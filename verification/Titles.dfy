/** The normal forms under which two works count as the same: titles and media codes. Letters and white space are
    ASCII. */
module Titles {

  predicate IsSpace(c: char) {
    c == ' ' || '\t' <= c <= '\r' || '\U{1c}' <= c <= '\U{1f}'
  }

  function Lower(c: char): char {
    if 'A' <= c <= 'Z' then c - 'A' + 'a' else c
  }

  function Upper(c: char): char {
    if 'a' <= c <= 'z' then c - 'a' + 'A' else c
  }

  function LowerAll(s: string): (r: string)
    ensures |r| == |s| && forall i :: 0 <= i < |s| ==> r[i] == Lower(s[i])
  {
    seq(|s|, i requires 0 <= i < |s| => Lower(s[i]))
  }

  function UpperAll(s: string): (r: string)
    ensures |r| == |s| && forall i :: 0 <= i < |s| ==> r[i] == Upper(s[i])
  {
    seq(|s|, i requires 0 <= i < |s| => Upper(s[i]))
  }

  /** Length of the leading run without white space. */
  function WordLength(s: string): (n: nat)
    ensures n <= |s|
    ensures forall i :: 0 <= i < n ==> !IsSpace(s[i])
    ensures n < |s| ==> IsSpace(s[n])
  {
    if s == "" || IsSpace(s[0]) then 0 else 1 + WordLength(s[1..])
  }

  /** Python's `split()` without arguments. */
  function Words(s: string): seq<string> {
    if s == "" then []
    else if IsSpace(s[0]) then Words(s[1..])
    else [s[..WordLength(s)]] + Words(s[WordLength(s)..])
  }

  function Join(words: seq<string>): string {
    if words == [] then ""
    else if |words| == 1 then words[0]
    else words[0] + " " + Join(words[1..])
  }

  function NormalizeTitle(title: string): string {
    Join(Words(LowerAll(title)))
  }

  /** A word: not empty, no white space, no capital letter. */
  predicate IsWord(w: string) {
    w != "" && forall c :: c in w ==> !IsSpace(c) && Lower(c) == c
  }

  lemma {:induction false} WordsAreWords(s: string)
    requires forall c :: c in s ==> Lower(c) == c
    ensures forall w :: w in Words(s) ==> IsWord(w)
  {
    if s != "" {
      if IsSpace(s[0]) {
        WordsAreWords(s[1..]);
      } else {
        WordsAreWords(s[WordLength(s)..]);
      }
    }
  }

  /** Splitting a joined list of words gives the list back. */
  lemma {:induction false} WordsOfJoin(words: seq<string>)
    requires forall w :: w in words ==> IsWord(w)
    ensures Words(Join(words)) == words
    ensures forall c :: c in Join(words) ==> Lower(c) == c
  {
    if |words| == 1 {
      var w := words[0];
      assert w in words;
      assert WordLength(w) == |w|;
      assert w[..|w|] == w;
    } else if |words| > 1 {
      var w, rest := words[0], Join(words[1..]);
      assert w in words;
      WordsOfJoin(words[1..]);
      var s := w + " " + rest;
      assert s[|w|] == ' ' && forall i :: 0 <= i < |w| ==> s[i] == w[i];
      assert WordLength(s) == |w|;
      assert s[..|w|] == w && s[|w|..] == " " + rest;
      assert (" " + rest)[1..] == rest;
      assert words == [w] + words[1..];
    }
  }

  lemma LowerAllFixed(s: string)
    requires forall c :: c in s ==> Lower(c) == c
    ensures LowerAll(s) == s
  {
  }

  /** Normalising is idempotent, and two titles are equal under it exactly when their lower-cased words agree. */
  lemma NormalFormOfTitles(a: string, b: string)
    ensures NormalizeTitle(NormalizeTitle(a)) == NormalizeTitle(a)
    ensures NormalizeTitle(a) == NormalizeTitle(b) <==> Words(LowerAll(a)) == Words(LowerAll(b))
  {
    WordsAreWords(LowerAll(a));
    WordsAreWords(LowerAll(b));
    WordsOfJoin(Words(LowerAll(a)));
    WordsOfJoin(Words(LowerAll(b)));
    LowerAllFixed(NormalizeTitle(a));
  }

  // --- what counts as the same title ---

  lemma WordLengthIs(s: string, n: nat)
    requires n <= |s| && (forall i :: 0 <= i < n ==> !IsSpace(s[i])) && (n < |s| ==> IsSpace(s[n]))
    ensures WordLength(s) == n
  {
  }

  /** A white-space character separates words. */
  lemma {:induction false} SpaceSeparates(a: string, c: char, b: string)
    requires IsSpace(c)
    ensures Words(a + [c] + b) == Words(a) + Words(b)
    decreases |a|
  {
    var s := a + [c] + b;
    if a == "" {
      assert s[1..] == b;
    } else if IsSpace(a[0]) {
      assert s[1..] == a[1..] + [c] + b;
      SpaceSeparates(a[1..], c, b);
    } else {
      var n := WordLength(a);
      assert forall i :: 0 <= i < n ==> s[i] == a[i];
      assert s[n] == if n < |a| then a[n] else c;
      WordLengthIs(s, n);
      assert s[..n] == a[..n] && s[n..] == a[n..] + [c] + b;
      SpaceSeparates(a[n..], c, b);
    }
  }

  /** A text without white space is one word. */
  lemma TextIsOneWord(w: string)
    requires w != "" && forall i :: 0 <= i < |w| ==> !IsSpace(w[i])
    ensures Words(w) == [w]
  {
    WordLengthIs(w, |w|);
    assert w[..|w|] == w && w[|w|..] == "";
  }

  /** Titles that differ only in the case of letters are the same title. */
  lemma CaseDoesNotMatter(a: string)
    ensures NormalizeTitle(UpperAll(a)) == NormalizeTitle(a) == NormalizeTitle(LowerAll(a))
  {
    assert LowerAll(UpperAll(a)) == LowerAll(a) == LowerAll(LowerAll(a));
  }

  // --- media codes ---

  predicate IsSeparator(c: char) {
    c == '-' || c == '_' || c == ' '
  }

  predicate IsLetter(c: char) {
    'a' <= c <= 'z' || 'A' <= c <= 'Z'
  }

  predicate IsDigit(c: char) {
    '0' <= c <= '9'
  }

  function NormalizeCode(value: string): string {
    if value == "" then ""
    else if IsSeparator(value[0]) then NormalizeCode(value[1..])
    else [Upper(value[0])] + NormalizeCode(value[1..])
  }

  predicate IsCode(value: string) {
    var code := NormalizeCode(value);
    4 <= |code| <= 20
    && (forall c :: c in code ==> IsLetter(c) || IsDigit(c))
    && (exists c :: c in code && IsLetter(c))
    && (exists c :: c in code && IsDigit(c))
  }

  /** A normalised code is its own normal form, so being a code does not depend on how it was written. */
  lemma {:induction false} NormalFormOfCodes(value: string)
    ensures NormalizeCode(NormalizeCode(value)) == NormalizeCode(value)
    ensures IsCode(NormalizeCode(value)) <==> IsCode(value)
  {
    NormalizeCodeTwice(value);
  }

  lemma {:induction false} NormalizeCodeTwice(value: string)
    ensures NormalizeCode(NormalizeCode(value)) == NormalizeCode(value)
  {
    if value != "" {
      NormalizeCodeTwice(value[1..]);
      if !IsSeparator(value[0]) {
        var code := [Upper(value[0])] + NormalizeCode(value[1..]);
        assert code[1..] == NormalizeCode(value[1..]);
      }
    }
  }

  // --- what counts as the same code ---

  /** Separators can stand anywhere. */
  lemma {:induction false} SeparatorsDoNotMatter(a: string, c: char, b: string)
    requires IsSeparator(c)
    ensures NormalizeCode(a + [c] + b) == NormalizeCode(a + b)
    decreases |a|
  {
    if a == "" {
      assert ("" + [c] + b)[1..] == b && "" + b == b;
    } else {
      assert (a + [c] + b)[1..] == a[1..] + [c] + b && (a + b)[1..] == a[1..] + b;
      SeparatorsDoNotMatter(a[1..], c, b);
    }
  }

  /** A code without separators is read in upper case. */
  lemma {:induction false} PlainCodeInUpperCase(s: string)
    requires forall i :: 0 <= i < |s| ==> !IsSeparator(s[i])
    ensures NormalizeCode(s) == UpperAll(s)
  {
    if s != "" {
      PlainCodeInUpperCase(s[1..]);
      assert UpperAll(s) == [Upper(s[0])] + UpperAll(s[1..]);
    }
  }

  /** The characters that are no separators. */
  function Symbols(s: string): nat {
    if s == "" then 0 else (if IsSeparator(s[0]) then 0 else 1) + Symbols(s[1..])
  }

  lemma {:induction false} CodeCharacters(s: string)
    ensures |NormalizeCode(s)| == Symbols(s)
    ensures forall c :: c in NormalizeCode(s) ==> exists d :: d in s && !IsSeparator(d) && c == Upper(d)
    ensures forall d :: d in s && !IsSeparator(d) ==> Upper(d) in NormalizeCode(s)
  {
    if s != "" {
      CodeCharacters(s[1..]);
      assert s == [s[0]] + s[1..];
    }
  }

  lemma KindOfUpper(c: char)
    ensures IsLetter(Upper(c)) <==> IsLetter(c)
    ensures IsDigit(Upper(c)) <==> IsDigit(c)
    ensures IsSeparator(c) ==> !IsLetter(c) && !IsDigit(c)
  {
  }

  lemma KindsOfUpper()
    ensures forall c {:trigger Upper(c)} {:trigger IsLetter(c)} {:trigger IsDigit(c)} ::
              (IsLetter(Upper(c)) <==> IsLetter(c)) && (IsDigit(Upper(c)) <==> IsDigit(c))
              && (IsSeparator(c) ==> !IsLetter(c) && !IsDigit(c))
  {
    forall c
      ensures (IsLetter(Upper(c)) <==> IsLetter(c)) && (IsDigit(Upper(c)) <==> IsDigit(c))
              && (IsSeparator(c) ==> !IsLetter(c) && !IsDigit(c))
    {
      KindOfUpper(c);
    }
  }

  /** A media code has four to twenty letters and digits, at least one of each, and nothing else but separators. */
  lemma CodesExactly(s: string)
    ensures IsCode(s) <==> 4 <= Symbols(s) <= 20
                           && (forall c :: c in s ==> IsSeparator(c) || IsLetter(c) || IsDigit(c))
                           && (exists c :: c in s && IsLetter(c)) && (exists c :: c in s && IsDigit(c))
  {
    CodeCharacters(s);
    KindsOfUpper();
    hide NormalizeCode;
    hide Symbols;
    hide Upper;
    hide IsLetter;
    hide IsDigit;
    hide IsSeparator;
    var code := NormalizeCode(s);
    if IsCode(s) {
      forall d | d in s && !IsSeparator(d)
        ensures IsLetter(d) || IsDigit(d)
      {
        assert Upper(d) in code;
      }
    }
    if d :| d in s && IsLetter(d) {
      assert Upper(d) in code;
    }
    if d :| d in s && IsDigit(d) {
      assert Upper(d) in code;
    }
  }

  // --- characters ---

  /** White space in ASCII is the blank, tab to carriage return, and the four separators. */
  lemma CharactersAre(c: char)
    ensures IsSpace(c) <==> c in " \t\n\U{b}\U{c}\r\U{1c}\U{1d}\U{1e}\U{1f}"
    ensures IsSeparator(c) <==> c in "-_ "
    ensures IsDigit(c) <==> c in "0123456789"
    ensures IsLetter(c) <==> c in SMALL_LETTERS || c in CAPITAL_LETTERS
  {
  }

  const SMALL_LETTERS := "abcdefghijklmnopqrstuvwxyz"
  const CAPITAL_LETTERS := "ABCDEFGHIJKLMNOPQRSTUVWXYZ"

  lemma LettersHaveTwoCases(i: nat, c: char)
    requires i < 26
    ensures Lower(CAPITAL_LETTERS[i]) == SMALL_LETTERS[i] && Upper(SMALL_LETTERS[i]) == CAPITAL_LETTERS[i]
    ensures !IsLetter(c) ==> Lower(c) == Upper(c) == c
  {
  }
}
