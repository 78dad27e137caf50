/** References to external providers as the two backfill migrations read and create them. */
module MetadataRefs {
  import opened Wrappers
  import opened Titles
  import opened Extremes

  type Id = string

  // --- text ---

  /** Python's `strip()`. */
  function Strip(s: string): string {
    StripEnd(StripStart(s))
  }

  function StripStart(s: string): string {
    if s != "" && IsSpace(s[0]) then StripStart(s[1..]) else s
  }

  function StripEnd(s: string): string {
    if s != "" && IsSpace(s[|s| - 1]) then StripEnd(s[..|s| - 1]) else s
  }

  predicate Trimmed(s: string) {
    s == "" || (!IsSpace(s[0]) && !IsSpace(s[|s| - 1]))
  }

  lemma {:induction false} StripStartTrims(s: string)
    ensures StripStart(s) == "" || !IsSpace(StripStart(s)[0])
  {
    if s != "" && IsSpace(s[0]) {
      StripStartTrims(s[1..]);
    }
  }

  lemma {:induction false} StripEndTrims(s: string)
    requires s == "" || !IsSpace(s[0])
    ensures Trimmed(StripEnd(s))
  {
    if s != "" && IsSpace(s[|s| - 1]) {
      StripEndTrims(s[..|s| - 1]);
    }
  }

  /** Stripping trims, and changes nothing exactly when the text was trimmed. */
  lemma StripTrims(s: string)
    ensures Trimmed(Strip(s))
    ensures Strip(s) == s <==> Trimmed(s)
    ensures Strip(Strip(s)) == Strip(s)
  {
    StripStartTrims(s);
    StripEndTrims(StripStart(s));
  }

  /** The text of a nullable column: `str(value or "")`. */
  function Text(value: Option<string>): string {
    value.GetOr("")
  }

  /** Python's `a or b` on texts. */
  function OrElse(a: string, b: string): string {
    if a != "" then a else b
  }

  predicate AllDigits(s: string) {
    s != "" && forall c :: c in s ==> IsDigit(c)
  }

  // --- raw ids ---

  datatype Reference = Reference(provider: string, externalId: string, profile: string, policy: string)

  function PolicyFor(provider: string): string {
    if provider == "tmdb" then "tmdb_primary"
    else if provider == "douban" then "douban_primary"
    else if provider == "bangumi" then "bangumi_primary"
    else ""
  }

  /** What the legacy id column stands for; `imdb` says whether IMDb ids are understood too. */
  function ParseRef(raw: string, imdb: bool): Option<Reference> {
    ParseTrimmed(Strip(raw), imdb)
  }

  function ParseTrimmed(value: string, imdb: bool): Option<Reference> {
    if |value| > 3 && UpperAll(value)[..3] == "DB:" then
      Some(Reference("douban", value[3..], "default", "douban_primary"))
    else if |value| > 3 && UpperAll(value)[..3] == "BG:" then
      Some(Reference("bangumi", value[3..], "anime", "bangumi_primary"))
    else if AllDigits(value) then
      Some(Reference("tmdb", value, "default", "tmdb_primary"))
    else if imdb && |value| > 2 && LowerAll(value)[..2] == "tt" && AllDigits(value[2..]) then
      Some(Reference("imdb", LowerAll(value), "default", ""))
    else None
  }

  predicate EndsVisibly(s: string) {
    s != "" && !IsSpace(s[|s| - 1])
  }

  lemma {:induction false} VisibleSurvivesStrip(s: string)
    requires EndsVisibly(s)
    ensures Strip(s) != ""
    decreases |s|
  {
    if IsSpace(s[0]) {
      assert |s| > 1 && s[1..][|s| - 2] == s[|s| - 1];
      VisibleSurvivesStrip(s[1..]);
    }
  }

  predicate Visible(s: string) {
    s != "" && Trimmed(s)
  }

  /** A provider, that provider's policy, and an id that is not blank and not untrimmed but for a leading space. */
  predicate Shaped(p: Reference) {
    && Visible(p.provider) && Visible(p.profile)
    && Trimmed(p.policy) && p.policy == PolicyFor(p.provider)
    && EndsVisibly(p.externalId)
    && (!Trimmed(p.externalId) ==> IsSpace(p.externalId[0]) && p.provider in {"douban", "bangumi"})
  }

  lemma DigitsAreVisible(value: string)
    requires AllDigits(value)
    ensures EndsVisibly(value) && Trimmed(value)
  {
    assert value[0] in value && value[|value| - 1] in value;
  }

  lemma ImdbIsVisible(value: string)
    requires |value| > 2 && Trimmed(value) && AllDigits(value[2..])
    ensures EndsVisibly(LowerAll(value)) && Trimmed(LowerAll(value))
  {
    DigitsAreVisible(value[2..]);
    assert LowerAll(value)[|value| - 1] == Lower(value[|value| - 1]);
    assert LowerAll(value)[0] == Lower(value[0]);
  }

  /** A parsed reference names a provider, its policy is that provider's, and its id is not blank; an id that is not
      trimmed starts with the space that followed the DB: or BG: prefix. */
  lemma ParsedShape(raw: string, imdb: bool)
    requires ParseRef(raw, imdb).Some?
    ensures Shaped(ParseRef(raw, imdb).value)
  {
    StripTrims(raw);
    hide Strip;
    ParsedTrimmedShape(Strip(raw), imdb);
  }

  lemma ParsedTrimmedShape(value: string, imdb: bool)
    requires Trimmed(value) && ParseTrimmed(value, imdb).Some?
    ensures Shaped(ParseTrimmed(value, imdb).value)
  {
    if AllDigits(value) {
      DigitsAreVisible(value);
    }
    if imdb && |value| > 2 && AllDigits(value[2..]) {
      ImdbIsVisible(value);
    }
    hide UpperAll;
    hide LowerAll;
  }

  // --- what ids are read as, in their own characters ---

  predicate Blank(s: string) {
    forall c :: c in s ==> IsSpace(c)
  }

  lemma {:induction false} StripStartDropsBlanks(before: string, s: string)
    requires Blank(before)
    ensures StripStart(before + s) == StripStart(s)
    decreases |before|
  {
    if before != "" {
      assert (before + s)[1..] == before[1..] + s;
      assert before[0] in before;
      StripStartDropsBlanks(before[1..], s);
    } else {
      assert before + s == s;
    }
  }

  lemma {:induction false} StripEndDropsBlanks(s: string, after: string)
    requires Blank(after)
    ensures StripEnd(s + after) == StripEnd(s)
    decreases |after|
  {
    if after != "" {
      var n := |after| - 1;
      assert (s + after)[..|s + after| - 1] == s + after[..n];
      assert (s + after)[|s + after| - 1] == after[n] && after[n] in after;
      StripEndDropsBlanks(s, after[..n]);
    } else {
      assert s + after == s;
    }
  }

  /** Stripping drops exactly the blanks around a text. */
  lemma StripDropsBlanks(before: string, s: string, after: string)
    requires Blank(before) && Blank(after) && Trimmed(s)
    ensures Strip(before + s + after) == s
  {
    assert before + s + after == before + (s + after);
    StripStartDropsBlanks(before, s + after);
    if s == "" {
      assert s + after == after + "";
      StripStartDropsBlanks(after, "");
    } else {
      assert (s + after)[0] == s[0];
      StripEndDropsBlanks(s, after);
    }
  }

  lemma {:induction false} BlankIsStripped(s: string)
    ensures Strip(s) == "" <==> Blank(s)
  {
    if Blank(s) {
      StripDropsBlanks(s, "", "");
      assert s + "" + "" == s;
    } else {
      NotBlankStart(s);
      NotBlankEnd(StripStart(s));
    }
  }

  lemma {:induction false} NotBlankStart(s: string)
    requires !Blank(s)
    ensures !Blank(StripStart(s))
  {
    if IsSpace(s[0]) {
      assert s == [s[0]] + s[1..];
      NotBlankStart(s[1..]);
    }
  }

  lemma {:induction false} NotBlankEnd(s: string)
    requires !Blank(s)
    ensures StripEnd(s) != ""
  {
    var n := |s| - 1;
    if IsSpace(s[n]) {
      assert s == s[..n] + [s[n]];
      NotBlankEnd(s[..n]);
    }
  }

  /** A column's text without the blanks around it, or a default. */
  function Given(value: Option<string>, default: string): string {
    if Blank(Text(value)) then default else Strip(Text(value))
  }

  lemma PolicyNames(provider: string)
    ensures PolicyFor("tmdb") == "tmdb_primary" && PolicyFor("douban") == "douban_primary"
    ensures PolicyFor("bangumi") == "bangumi_primary"
    ensures provider !in {"tmdb", "douban", "bangumi"} ==> PolicyFor(provider) == ""
  {
  }

  /** How a legacy id is read: the prefixes in either case, digits alone, and "tt" with digits where IMDb ids are
      understood. */
  lemma LegacyIdIsRead(before: string, prefix: string, id: string, after: string, imdb: bool)
    requires Blank(before) && Blank(after) && id != ""
    ensures UpperAll(prefix) == "DB:" && EndsVisibly(id)
            ==> ParseRef(before + prefix + id + after, imdb)
                == Some(Reference("douban", id, "default", "douban_primary"))
    ensures UpperAll(prefix) == "BG:" && EndsVisibly(id)
            ==> ParseRef(before + prefix + id + after, imdb)
                == Some(Reference("bangumi", id, "anime", "bangumi_primary"))
    ensures prefix == "" && AllDigits(id)
            ==> ParseRef(before + prefix + id + after, imdb)
                == Some(Reference("tmdb", id, "default", "tmdb_primary"))
    ensures LowerAll(prefix) == "tt" && AllDigits(id)
            ==> ParseRef(before + prefix + id + after, imdb)
                == if imdb then Some(Reference("imdb", "tt" + id, "default", "")) else None
  {
    var value := prefix + id;
    assert before + prefix + id + after == before + value + after;
    if UpperAll(prefix) == "DB:" && EndsVisibly(id) {
      PrefixIsSeen(prefix, id);
      StripDropsBlanks(before, value, after);
    } else if UpperAll(prefix) == "BG:" && EndsVisibly(id) {
      PrefixIsSeen(prefix, id);
      StripDropsBlanks(before, value, after);
    } else if prefix == "" && AllDigits(id) {
      assert value == id;
      DigitsAreRead(id, imdb);
      StripDropsBlanks(before, value, after);
    } else if LowerAll(prefix) == "tt" && AllDigits(id) {
      ImdbIsRead(prefix, id, imdb);
      StripDropsBlanks(before, value, after);
    }
  }

  lemma PrefixIsSeen(prefix: string, id: string)
    requires UpperAll(prefix) in {"DB:", "BG:"} && EndsVisibly(id)
    ensures UpperAll(prefix + id)[..3] == UpperAll(prefix) && (prefix + id)[3..] == id && Trimmed(prefix + id)
  {
    assert UpperAll(prefix)[0] == Upper(prefix[0]);
  }

  lemma DigitsAreRead(id: string, imdb: bool)
    requires AllDigits(id)
    ensures Trimmed(id) && ParseTrimmed(id, imdb) == Some(Reference("tmdb", id, "default", "tmdb_primary"))
  {
    assert id[0] in id && id[|id| - 1] in id;
    assert UpperAll(id)[0] == Upper(id[0]) == id[0];
  }

  lemma ImdbIsTrimmed(prefix: string, id: string)
    requires LowerAll(prefix) == "tt" && AllDigits(id)
    ensures |prefix| == 2 && Trimmed(prefix + id) && LowerAll(prefix + id) == "tt" + id
    ensures UpperAll(prefix + id)[0] == 'T' && !AllDigits(prefix + id)
  {
    assert id[|id| - 1] in id;
    var first := LowerAll(prefix)[0];
    assert first == Lower(prefix[0]) == 't';
    assert (prefix + id)[0] in prefix + id;
    forall i | 0 <= i < |id|
      ensures Lower(id[i]) == id[i]
    {
      assert id[i] in id;
    }
    assert forall i :: 0 <= i < |prefix| ==> Lower(prefix[i]) == "tt"[i];
  }

  lemma ImdbIsRead(prefix: string, id: string, imdb: bool)
    requires LowerAll(prefix) == "tt" && AllDigits(id)
    ensures Trimmed(prefix + id)
    ensures ParseTrimmed(prefix + id, imdb) == if imdb then Some(Reference("imdb", "tt" + id, "default", "")) else None
  {
    ImdbIsTrimmed(prefix, id);
    var value := prefix + id;
    assert value[2..] == id;
    assert LowerAll(value)[..2] == "tt";
    hide UpperAll;
    hide LowerAll;
    hide AllDigits;
    hide IsSpace;
    assert UpperAll(value)[..3][0] == 'T';
    assert "DB:"[0] == 'D' && "BG:"[0] == 'B';
  }

  /** A text of no other shape is not read. */
  lemma OtherIdsAreNotRead(before: string, value: string, after: string, imdb: bool)
    requires Blank(before) && Blank(after) && Trimmed(value)
    requires |value| > 3 ==> UpperAll(value[..3]) !in {"DB:", "BG:"}
    requires !AllDigits(value)
    requires imdb && |value| > 2 ==> LowerAll(value[..2]) != "tt" || !AllDigits(value[2..])
    ensures ParseRef(before + value + after, imdb) == None
  {
    StripDropsBlanks(before, value, after);
    assert |value| > 3 ==> UpperAll(value)[..3] == UpperAll(value[..3]);
    assert |value| > 2 ==> LowerAll(value)[..2] == LowerAll(value[..2]);
  }

  // --- the reference table ---

  datatype RefRow = RefRow(identity: Id, provider: string, externalId: string, scope: string, linkMethod: string)

  type RefRows = map<nat, RefRow>

  predicate Names(row: RefRow, provider: string, externalId: string) {
    row.provider == provider && row.externalId == externalId && row.scope == "default"
  }

  /** Some row of the default scope assigns `id` to the reference. */
  ghost predicate Resolves(refs: RefRows, provider: string, externalId: string, id: Id) {
    exists r :: r in refs && Names(refs[r], provider, externalId) && refs[r].identity == id
  }

  predicate SameReference(a: RefRow, b: RefRow) {
    a.provider == b.provider && a.externalId == b.externalId && a.scope == b.scope
  }

  /** (provider, external id, scope) determines the identity. */
  ghost predicate Functional(refs: RefRows) {
    forall a, b :: a in refs && b in refs && SameReference(refs[a], refs[b]) ==> refs[a].identity == refs[b].identity
  }

  ghost predicate Extends(before: RefRows, after: RefRows) {
    before.Keys <= after.Keys && forall r :: r in before ==> after[r] == before[r]
  }

  lemma ResolvesOnce(refs: RefRows, provider: string, externalId: string, a: Id, b: Id)
    requires Functional(refs) && Resolves(refs, provider, externalId, a) && Resolves(refs, provider, externalId, b)
    ensures a == b
  {
  }

  lemma ResolvesLater(before: RefRows, after: RefRows, provider: string, externalId: string, id: Id)
    requires Extends(before, after) && Resolves(before, provider, externalId, id)
    ensures Resolves(after, provider, externalId, id)
  {
    var r :| r in before && Names(before[r], provider, externalId) && before[r].identity == id;
    assert r in after;
  }

  /** The identities still to be generated are distinct, not empty and appear nowhere. */
  ghost predicate Unused(ulid: nat -> Id, generated: nat, identities: set<Id>, refs: RefRows) {
    && (forall n :: n >= generated ==> ulid(n) != "" && ulid(n) !in identities)
    && (forall m, n :: generated <= m < n ==> ulid(m) != ulid(n))
    && (forall r, n :: r in refs && n >= generated ==> refs[r].identity != ulid(n))
  }

  lemma UnusedAfterOne(ulid: nat -> Id, generated: nat, identities: set<Id>, refs: RefRows, r: nat, row: RefRow)
    requires Unused(ulid, generated, identities, refs) && row.identity == ulid(generated)
    ensures Unused(ulid, generated + 1, identities + {ulid(generated)}, refs[r := row])
    ensures row.identity !in identities && forall q :: q in refs ==> refs[q].identity != row.identity
  {
  }

  lemma FunctionalAfterOne(refs: RefRows, r: nat, row: RefRow)
    requires Functional(refs) && r !in refs && row.scope == "default"
    requires forall q :: q in refs ==> !Names(refs[q], row.provider, row.externalId)
    ensures Functional(refs[r := row]) && Extends(refs, refs[r := row])
    ensures Resolves(refs[r := row], row.provider, row.externalId, row.identity)
  {
    assert r in refs[r := row];
  }

  /** MEDIA_IDENTITY and MEDIA_EXTERNAL_REF, with the generator of new identities. */
  class Catalog {
    var identities: set<Id>
    var refs: RefRows
    const ulid: nat -> Id
    var generated: nat

    ghost predicate Valid()
      reads this
    {
      Functional(refs) && Unused(ulid, generated, identities, refs)
    }

    /** `_ensure_identity`: the identity of the reference, created together with the reference when there is none. */
    method EnsureIdentity(provider: string, externalId: string, linkMethod: string) returns (id: Id, created: bool)
      requires Valid()
      modifies this
      ensures Valid()
      ensures Resolves(refs, provider, externalId, id)
      ensures created <==> !exists x :: Resolves(old(refs), provider, externalId, x)
      ensures !created ==> refs == old(refs) && identities == old(identities) && generated == old(generated)
      ensures created ==> id !in old(identities) && identities == old(identities) + {id}
                          && (forall r :: r in old(refs) ==> old(refs)[r].identity != id)
      ensures generated == old(generated) + (if created then 1 else 0)
      ensures created ==> id == ulid(old(generated))
      ensures created
              ==> exists r: nat ::
                    r !in old(refs)
                    && refs == old(refs)[r := RefRow(id, provider, externalId, "default", linkMethod)]
      ensures Extends(old(refs), refs)
    {
      var existing := set r | r in refs && Names(refs[r], provider, externalId);
      assert forall r :: r in refs && Names(refs[r], provider, externalId) ==> r in existing;
      if existing != {} {
        var r :| r in existing;
        id, created := refs[r].identity, false;
        assert Resolves(refs, provider, externalId, id);
      } else {
        assert forall x :: !Resolves(refs, provider, externalId, x);
        id, created := ulid(generated), true;
        var r := NextId(refs);
        var row := RefRow(id, provider, externalId, "default", linkMethod);
        UnusedAfterOne(ulid, generated, identities, refs, r, row);
        FunctionalAfterOne(refs, r, row);
        hide Unused;
        hide Functional;
        hide Resolves;
        generated := generated + 1;
        identities := identities + {id};
        refs := refs[r := row];
      }
    }
  }

  // --- references that a run creates ---

  /** (provider, external id, link method) of a reference in the default scope. */
  type Request = (string, string, string)

  /** A new reference row was asked for and nothing resolved it before. */
  ghost predicate NewRefsNeeded(wanted: set<Request>, before: RefRows, after: RefRows) {
    forall r :: r in after && r !in before ==>
                  (after[r].provider, after[r].externalId, after[r].linkMethod) in wanted && after[r].scope == "default"
                  && forall x :: !Resolves(before, after[r].provider, after[r].externalId, x)
  }

  /** The reference table has only grown, by rows that were needed. */
  ghost predicate Progress(wanted: set<Request>, refs0: RefRows, refs: RefRows) {
    Extends(refs0, refs) && NewRefsNeeded(wanted, refs0, refs)
  }

  lemma ExtendsSelf(refs: RefRows)
    ensures Extends(refs, refs)
  {
  }

  lemma ExtendsBoth(a: RefRows, b: RefRows, c: RefRows)
    requires Extends(a, b) && Extends(b, c)
    ensures Extends(a, c)
  {
  }

  function NewOwners(before: RefRows, after: RefRows): set<Id> {
    set r | r in after && r !in before :: after[r].identity
  }

  /** MEDIA_IDENTITY has grown by exactly the identities of the new reference rows. */
  ghost predicate CatalogGrown(ids: set<Id>, refs: RefRows, ids': set<Id>, refs': RefRows) {
    Extends(refs, refs') && ids' == ids + NewOwners(refs, refs')
  }

  lemma CatalogSame(ids: set<Id>, refs: RefRows)
    ensures CatalogGrown(ids, refs, ids, refs)
  {
  }

  lemma CatalogOneMore(ids: set<Id>, refs: RefRows, n: nat, row: RefRow)
    requires n !in refs
    ensures CatalogGrown(ids, refs, ids + {row.identity}, refs[n := row])
  {
    assert NewOwners(refs, refs[n := row]) == {row.identity} by {
      assert refs[n := row][n].identity in NewOwners(refs, refs[n := row]);
    }
  }

  lemma CatalogBoth(ids0: set<Id>, refs0: RefRows, ids1: set<Id>, refs1: RefRows, ids2: set<Id>, refs2: RefRows)
    requires CatalogGrown(ids0, refs0, ids1, refs1) && CatalogGrown(ids1, refs1, ids2, refs2)
    ensures CatalogGrown(ids0, refs0, ids2, refs2)
  {
    assert NewOwners(refs0, refs2) == NewOwners(refs0, refs1) + NewOwners(refs1, refs2) by {
      forall id
        ensures id in NewOwners(refs0, refs2) <==> id in NewOwners(refs0, refs1) + NewOwners(refs1, refs2)
      {
        if id in NewOwners(refs0, refs1) {
          var r :| r in refs1 && r !in refs0 && refs1[r].identity == id;
          assert refs2[r].identity == id;
        }
      }
    }
  }

  lemma ProgressStarts(wanted: set<Request>, refs: RefRows)
    ensures Progress(wanted, refs, refs)
  {
  }

  lemma NeededOneMore(wanted: set<Request>, refs0: RefRows, refs: RefRows, n: nat, row: RefRow)
    requires Progress(wanted, refs0, refs) && (row.provider, row.externalId, row.linkMethod) in wanted && n !in refs
    requires row.scope == "default"
    requires forall x :: !Resolves(refs, row.provider, row.externalId, x)
    ensures Progress(wanted, refs0, refs[n := row])
  {
    forall x
      ensures !Resolves(refs0, row.provider, row.externalId, x)
    {
      if Resolves(refs0, row.provider, row.externalId, x) {
        ResolvesLater(refs0, refs, row.provider, row.externalId, x);
      }
    }
  }

  /** Either the reference resolved and the table is unchanged, or it did not and one row for it is new. */
  ghost predicate CreatedOrKept(before: RefRows, after: RefRows, provider: string, externalId: string, created: bool) {
    if created then
      (forall x :: !Resolves(before, provider, externalId, x))
      && forall r :: r in after && r !in before ==> Names(after[r], provider, externalId)
    else after == before
  }

  /** `EnsureIdentity` inside a run that asks for the references `wanted` and began with the rows `refs0`. */
  method ResolveWanted(catalog: Catalog, provider: string, externalId: string, linkMethod: string,
                       ghost wanted: set<Request>, ghost refs0: RefRows)
    returns (id: Id, created: bool)
    requires catalog.Valid() && (provider, externalId, linkMethod) in wanted && Progress(wanted, refs0, catalog.refs)
    modifies catalog
    ensures catalog.Valid() && catalog.generated >= old(catalog.generated)
    ensures Resolves(catalog.refs, provider, externalId, id)
    ensures Extends(old(catalog.refs), catalog.refs) && Progress(wanted, refs0, catalog.refs)
    ensures created ==> id == catalog.ulid(old(catalog.generated)) && id != ""
    ensures CreatedOrKept(old(catalog.refs), catalog.refs, provider, externalId, created)
    ensures CatalogGrown(old(catalog.identities), old(catalog.refs), catalog.identities, catalog.refs)
  {
    assert catalog.ulid(catalog.generated) != "";
    hide NewRefsNeeded;
    hide Functional;
    hide Unused;
    ghost var refs, ids := catalog.refs, catalog.identities;
    id, created := catalog.EnsureIdentity(provider, externalId, linkMethod);
    if created {
      assert forall x :: !Resolves(refs, provider, externalId, x);
      ghost var n: nat :| n !in refs
                          && catalog.refs == refs[n := RefRow(id, provider, externalId, "default", linkMethod)];
      NeededOneMore(wanted, refs0, refs, n, RefRow(id, provider, externalId, "default", linkMethod));
      CatalogOneMore(ids, refs, n, RefRow(id, provider, externalId, "default", linkMethod));
    } else {
      CatalogSame(ids, refs);
    }
  }

  /** `max(ID) + 1`, counted from 0 when there is no row. */
  function NextId(refs: RefRows): (n: nat)
    ensures n !in refs && (forall r :: r in refs ==> r < n)
    ensures if refs == map[] then n == 1 else n - 1 in refs
  {
    if |refs.Keys| == 0 then 1 else MaxId(refs.Keys) + 1
  }
}
