/** The last step of the release notification: angle brackets that begin no allowed Telegram tag are escaped. */
module ReleaseNotify {
  import opened Titles

  const TAGS: seq<string> :=
    ["</", "<b>", "</b>", "<i>", "</i>", "<code>", "</code>", "<a ", "</a>", "<strong>", "</strong>", "<em>", "</em>",
     "<u>", "</u>", "<s>", "</s>"]

  /** The next twenty characters, in lower case. */
  function Tail(s: string): string {
    LowerAll(if |s| <= 20 then s else s[..20])
  }

  predicate Allowed(s: string) {
    exists k :: 0 <= k < |TAGS| && TAGS[k] <= Tail(s)
  }

  /** What the text is to become. */
  function Escaped(s: string): string {
    if s == "" then ""
    else (if s[0] == '<' && !Allowed(s) then "&lt;" else [s[0]]) + Escaped(s[1..])
  }

  lemma EscapedStep(line: string, i: nat)
    requires i < |line|
    ensures Escaped(line[i..])
            == (if line[i] == '<' && !Allowed(line[i..]) then "&lt;" else [line[i]]) + Escaped(line[i + 1..])
  {
    assert line[i..][0] == line[i] && line[i..][1..] == line[i + 1..];
  }

  lemma Joined(a: string, b: string, c: string)
    ensures a + (b + c) == (a + b) + c
  {
  }

  /** `_escape_stray_angle_brackets`. */
  method EscapeStrayBrackets(line: string) returns (result: string)
    ensures result == Escaped(line)
  {
    result := "";
    var i := 0;
    assert line[0..] == line;
    while i < |line|
      invariant 0 <= i <= |line|
      invariant result + Escaped(line[i..]) == Escaped(line)
    {
      EscapedStep(line, i);
      hide Allowed;
      hide Escaped;
      if line[i] != '<' {
        Joined(result, [line[i]], Escaped(line[i + 1..]));
        result := result + [line[i]];
        i := i + 1;
        continue;
      }
      if Allowed(line[i..]) {
        Joined(result, [line[i]], Escaped(line[i + 1..]));
        result := result + [line[i]];
        i := i + 1;
        continue;
      }
      Joined(result, "&lt;", Escaped(line[i + 1..]));
      result := result + "&lt;";
      i := i + 1;
    }
  }

  /** Every bracket begins an allowed tag. */
  ghost predicate Clean(s: string) {
    forall i :: 0 <= i < |s| && s[i] == '<' ==> Allowed(s[i..])
  }

  /** A tag has one bracket, at its start, and fits into the scanner's window. */
  predicate WellFormedTag(t: string) {
    2 <= |t| <= 20 && t[0] == '<' && forall i :: 1 <= i < |t| ==> t[i] != '<'
  }

  lemma TagsAreWellFormed(k: nat)
    requires k < |TAGS|
    ensures WellFormedTag(TAGS[k])
  {
  }

  lemma {:induction false} PlainIsCopied(s: string, n: nat)
    requires n <= |s| && forall i :: 0 <= i < n ==> s[i] != '<'
    ensures Escaped(s) == s[..n] + Escaped(s[n..])
  {
    if n == 0 {
      assert s[0..] == s;
    } else {
      PlainIsCopied(s[1..], n - 1);
      assert s[1..][n - 1..] == s[n..];
      assert s[..n] == [s[0]] + s[1..][..n - 1];
      Joined([s[0]], s[1..][..n - 1], Escaped(s[n..]));
    }
  }

  lemma LowerBracket(c: char)
    ensures Lower(c) == '<' <==> c == '<'
  {
  }

  lemma PrefixAllows(s: string, t: string, n: nat)
    requires n <= |s| && n <= |t| && s[..n] == t[..n]
    requires exists k :: 0 <= k < |TAGS| && TAGS[k] <= Tail(s) && |TAGS[k]| <= n
    ensures Allowed(t)
  {
    var k :| 0 <= k < |TAGS| && TAGS[k] <= Tail(s) && |TAGS[k]| <= n;
    var tag := TAGS[k];
    forall i | 0 <= i < |tag|
      ensures i < |Tail(t)| && Tail(t)[i] == tag[i]
    {
      assert s[i] == s[..n][i] == t[..n][i] == t[i];
    }
    assert tag == Tail(t)[..|tag|];
  }

  lemma TagIsPlain(s: string, k: nat)
    requires k < |TAGS| && TAGS[k] <= Tail(s)
    ensures 2 <= |TAGS[k]| <= |s| && forall i :: 1 <= i < |TAGS[k]| ==> s[i] != '<'
  {
    TagsAreWellFormed(k);
    var tag := TAGS[k];
    forall i | 1 <= i < |tag|
      ensures s[i] != '<'
    {
      assert Tail(s)[i] == tag[i];
      LowerBracket(s[i]);
    }
  }

  /** What follows an allowed bracket is copied as far as the tag reaches, so it stays allowed. */
  lemma AllowedStaysAllowed(s: string)
    requires s != "" && s[0] == '<' && Allowed(s)
    ensures Allowed(Escaped(s))
  {
    var k :| 0 <= k < |TAGS| && TAGS[k] <= Tail(s);
    var n := |TAGS[k]|;
    TagIsPlain(s, k);
    PlainIsCopied(s[1..], n - 1);
    assert Escaped(s) == [s[0]] + Escaped(s[1..]);
    CopiedHead(s, n, Escaped(s[1..]), Escaped(s[1..][n - 1..]));
    hide Escaped;
    hide Tail;
    PrefixAllows(s, Escaped(s), n);
  }

  lemma CopiedHead(s: string, n: nat, rest: string, after: string)
    requires 1 <= n <= |s| && rest == s[1..][..n - 1] + after
    ensures ([s[0]] + rest)[..n] == s[..n] && n <= |[s[0]] + rest|
  {
    assert s[..n] == [s[0]] + s[1..][..n - 1];
  }

  lemma CleanJoin(piece: string, rest: string)
    requires Clean(rest) && forall i :: 0 <= i < |piece| && piece[i] == '<' ==> Allowed((piece + rest)[i..])
    ensures Clean(piece + rest)
  {
    forall i | 0 <= i < |piece + rest| && (piece + rest)[i] == '<'
      ensures Allowed((piece + rest)[i..])
    {
      if i >= |piece| {
        assert (piece + rest)[i..] == rest[i - |piece|..];
      }
    }
  }

  /** No stray bracket is left. */
  lemma {:induction false} EscapedIsClean(s: string)
    ensures Clean(Escaped(s))
  {
    if s != "" {
      EscapedIsClean(s[1..]);
      if s[0] == '<' && Allowed(s) {
        AllowedStaysAllowed(s);
        assert ([s[0]] + Escaped(s[1..]))[0..] == Escaped(s);
      }
      CleanJoin(if s[0] == '<' && !Allowed(s) then "&lt;" else [s[0]], Escaped(s[1..]));
    }
  }

  /** The number of stray brackets. */
  function Strays(s: string): nat {
    if s == "" then 0 else (if s[0] == '<' && !Allowed(s) then 1 else 0) + Strays(s[1..])
  }

  /** Each stray bracket costs three characters more. */
  lemma {:induction false} EscapedLength(s: string)
    ensures |Escaped(s)| == |s| + 3 * Strays(s)
  {
    if s != "" {
      EscapedLength(s[1..]);
    }
  }

  lemma {:induction false} CleanHasNoStrays(s: string)
    ensures Clean(s) <==> Strays(s) == 0
  {
    if s != "" {
      CleanHasNoStrays(s[1..]);
      assert s[0..] == s;
      if Clean(s) {
        forall i | 0 <= i < |s| - 1 && s[1..][i] == '<'
          ensures Allowed(s[1..][i..])
        {
          assert s[1..][i..] == s[i + 1..];
        }
      }
      if Strays(s) == 0 {
        assert s == [s[0]] + s[1..];
        CleanJoin([s[0]], s[1..]);
      }
    }
  }

  lemma {:induction false} NoStraysNoChange(s: string)
    requires Strays(s) == 0
    ensures Escaped(s) == s
  {
    if s != "" {
      NoStraysNoChange(s[1..]);
    }
  }

  /** A text is left alone exactly when it is clean. */
  lemma UnchangedExactly(s: string)
    ensures Escaped(s) == s <==> Clean(s)
  {
    CleanHasNoStrays(s);
    EscapedLength(s);
    if Strays(s) == 0 {
      NoStraysNoChange(s);
    }
  }

  /** Scanning the output again changes nothing. */
  lemma EscapingTwice(s: string)
    ensures Escaped(Escaped(s)) == Escaped(s)
  {
    EscapedIsClean(s);
    UnchangedExactly(Escaped(s));
  }

  predicate Stray(s: string, i: nat)
    requires i < |s|
  {
    s[i] == '<' && !Allowed(s[i..])
  }

  /** The number of stray brackets before position `i`. */
  function StraysBefore(s: string, i: nat): nat
    requires i <= |s|
  {
    if i == 0 then 0 else (if Stray(s, 0) then 1 else 0) + StraysBefore(s[1..], i - 1)
  }

  /** Position `at` of the output holds the character `c`, or the entity in its place. */
  predicate Lands(stray: bool, c: char, out: string, at: nat) {
    if stray then at + 4 <= |out| && out[at..at + 4] == "&lt;" else at < |out| && out[at] == c
  }

  /** Every character but a stray bracket stays, shifted by three for each stray bracket before it; a stray bracket
      becomes the entity. */
  lemma {:induction false} KeptInPlace(s: string, i: nat)
    requires i < |s|
    ensures Lands(Stray(s, i), s[i], Escaped(s), i + 3 * StraysBefore(s, i))
    decreases i
  {
    hide Escaped;
    hide Allowed;
    EscapedStep(s, 0);
    assert s[0..] == s;
    var piece := if Stray(s, 0) then "&lt;" else [s[0]];
    if i == 0 {
      LandsFirst(piece, Escaped(s[1..]));
    } else {
      KeptInPlace(s[1..], i - 1);
      assert s[1..][i - 1..] == s[i..] && s[1..][i - 1] == s[i];
      Shifted(piece, Escaped(s[1..]), Stray(s, i), s[i], i - 1 + 3 * StraysBefore(s[1..], i - 1));
    }
  }

  lemma LandsFirst(piece: string, rest: string)
    requires piece == "&lt;" || |piece| == 1
    ensures piece == "&lt;" ==> Lands(true, '<', piece + rest, 0)
    ensures |piece| == 1 ==> Lands(false, piece[0], piece + rest, 0)
  {
    assert (piece + rest)[0..|piece|] == piece;
  }

  lemma Shifted(piece: string, rest: string, stray: bool, c: char, at: nat)
    requires Lands(stray, c, rest, at)
    ensures Lands(stray, c, piece + rest, |piece| + at)
  {
    if stray {
      assert (piece + rest)[|piece| + at..|piece| + at + 4] == rest[at..at + 4];
    }
  }

  /** What a reader sees: the entity read as a bracket. */
  function Shown(s: string): string {
    if "&lt;" <= s then "<" + Shown(s[4..])
    else if s == "" then ""
    else [s[0]] + Shown(s[1..])
  }

  lemma PrefixStep(t: string, s: string)
    requires t != "" && s != ""
    ensures t <= s <==> t[0] == s[0] && t[1..] <= s[1..]
  {
    assert t == [t[0]] + t[1..] && s == [s[0]] + s[1..];
  }

  /** Input and output begin with the same ordinary characters. */
  lemma {:induction false} SamePrefix(s: string, t: string)
    requires forall i :: 0 <= i < |t| ==> t[i] != '<' && t[i] != '&'
    ensures t <= s <==> t <= Escaped(s)
    decreases |t|
  {
    if t != "" && s != "" {
      SamePrefix(s[1..], t[1..]);
      PrefixStep(t, s);
      PrefixStep(t, Escaped(s));
      if s[0] != '<' {
        assert Escaped(s)[1..] == Escaped(s[1..]);
      }
    }
  }

  lemma EntityIsCopied(s: string)
    requires s != "" && s[0] == '&'
    ensures "&lt;" <= s <==> "&lt;" <= Escaped(s)
    ensures "&lt;" <= s ==> Escaped(s)[4..] == Escaped(s[4..])
  {
    assert "&lt;"[1..] == "lt;";
    assert Escaped(s)[1..] == Escaped(s[1..]);
    SamePrefix(s[1..], "lt;");
    PrefixStep("&lt;", s);
    PrefixStep("&lt;", Escaped(s));
    if "&lt;" <= s {
      PlainIsCopied(s, 4);
    }
  }

  /** With the entity read as a bracket the text is the same as before. */
  lemma {:induction false} ShownAsBefore(s: string)
    ensures Shown(Escaped(s)) == Shown(s)
    decreases |s|
  {
    if s != "" && s[0] == '&' {
      EntityIsCopied(s);
    }
    if "&lt;" <= s {
      ShownAsBefore(s[4..]);
    } else if s != "" {
      ShownAsBefore(s[1..]);
      if s[0] == '<' && !Allowed(s) {
        assert Escaped(s) == "&lt;" + Escaped(s[1..]);
        assert Escaped(s)[4..] == Escaped(s[1..]);
        assert Escaped(s)[..4] == "&lt;";
      } else {
        assert Escaped(s) == [s[0]] + Escaped(s[1..]);
        assert Escaped(s)[1..] == Escaped(s[1..]);
      }
    }
  }

  // --- the tags ---

  const NAMES: seq<string> := ["b", "i", "code", "strong", "em", "u", "s"]

  /** What a bracket may begin: a closing tag, a link, or one of seven plain tags. */
  lemma TagsExactly(t: string)
    ensures t in TAGS <==> t in {"</", "<a ", "</a>"}
                           || (exists i :: 0 <= i < |NAMES|
                                           && (t == "<" + NAMES[i] + ">" || t == "</" + NAMES[i] + ">"))
  {
    TagsFromNames();
    if t in TAGS {
      var k :| 0 <= k < |TAGS| && TAGS[k] == t;
      NamesOfTags(k);
    }
  }

  lemma TagsFromNames()
    ensures TAGS[0] == "</" && TAGS[7] == "<a " && TAGS[8] == "</a>"
    ensures forall i :: 0 <= i < 3
                        ==> TAGS[2 * i + 1] == "<" + NAMES[i] + ">" && TAGS[2 * i + 2] == "</" + NAMES[i] + ">"
    ensures forall i :: 3 <= i < 7
                        ==> TAGS[2 * i + 3] == "<" + NAMES[i] + ">" && TAGS[2 * i + 4] == "</" + NAMES[i] + ">"
  {
  }

  lemma NamesOfTags(k: nat)
    requires k < |TAGS|
    ensures TAGS[k] in {"</", "<a ", "</a>"}
            || exists i :: 0 <= i < |NAMES| && (TAGS[k] == "<" + NAMES[i] + ">" || TAGS[k] == "</" + NAMES[i] + ">")
  {
    TagsFromNames();
    var i := if k < 7 then (k - 1) / 2 else (k - 3) / 2;
    assert 0 <= i < |NAMES| ==> NAMES[i] == NAMES[i];
  }

  /** A bracket is kept exactly when the text begins with one of the tags, in either case. */
  lemma AllowedExactly(s: string)
    ensures Allowed(s) <==> exists t :: t in TAGS && |t| <= |s| && LowerAll(s[..|t|]) == t
  {
    forall k | 0 <= k < |TAGS|
      ensures TAGS[k] <= Tail(s) <==> |TAGS[k]| <= |s| && LowerAll(s[..|TAGS[k]|]) == TAGS[k]
    {
      TagsAreWellFormed(k);
      var t, tail := TAGS[k], Tail(s);
      if |t| <= |s| {
        assert |t| <= |tail| && tail[..|t|] == LowerAll(s[..|t|]);
      }
    }
    if t :| t in TAGS && |t| <= |s| && LowerAll(s[..|t|]) == t {
      var k :| 0 <= k < |TAGS| && TAGS[k] == t;
    }
    if k :| 0 <= k < |TAGS| && TAGS[k] <= Tail(s) {
      assert TAGS[k] in TAGS;
    }
  }
}
