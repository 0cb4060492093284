/** Option, and the ASCII part of the string operations the services share. */
module Text {

  datatype Option<+T> = None | Some(value: T)

  /** The ASCII characters that Python's str.strip and JavaScript's trim remove. */
  predicate IsSpace(c: char) {
    c == ' ' || 9 <= c as int <= 13
  }

  function StripLeft(s: string): (r: string)
    ensures |r| <= |s| && r == s[|s| - |r|..]
    ensures r != "" ==> !IsSpace(r[0])
    ensures forall i :: 0 <= i < |s| - |r| ==> IsSpace(s[i])
  {
    if s != "" && IsSpace(s[0]) then
      var rest := s[1..];
      var r := StripLeft(rest);
      assert rest[|rest| - |r|..] == s[|s| - |r|..];
      assert forall i :: 0 < i < |s| ==> s[i] == rest[i - 1];
      r
    else s
  }

  function StripRight(s: string): (r: string)
    ensures |r| <= |s| && r == s[..|r|]
    ensures r != "" ==> !IsSpace(r[|r| - 1])
    ensures forall i :: |r| <= i < |s| ==> IsSpace(s[i])
  {
    if s != "" && IsSpace(s[|s| - 1]) then StripRight(s[..|s| - 1]) else s
  }

  function Strip(s: string): string {
    StripRight(StripLeft(s))
  }

  predicate Trimmed(s: string) {
    s == "" || (!IsSpace(s[0]) && !IsSpace(s[|s| - 1]))
  }

  predicate Blank(s: string) {
    forall i :: 0 <= i < |s| ==> IsSpace(s[i])
  }

  lemma {:induction false} StripTrimmed(s: string)
    ensures Trimmed(Strip(s))
    ensures Trimmed(s) ==> Strip(s) == s
  {
    var l := StripLeft(s);
    var r := StripRight(l);
    if r != "" {
      assert r[0] == l[0];
    }
    if s != "" && Trimmed(s) {
      assert StripLeft(s) == s && StripRight(s) == s;
    }
  }

  lemma {:induction false} StripLeftPadding(left: string, rest: string)
    requires Blank(left) && rest != "" && !IsSpace(rest[0])
    ensures StripLeft(left + rest) == rest
  {
    hide StripLeft, IsSpace;
    var s := left + rest;
    var r := StripLeft(s);
    var i := |s| - |r|;
    assert s[|left|] == rest[0];
    assert forall k :: 0 <= k < |left| ==> s[k] == left[k];
    assert r[0] == s[i];
    assert s[|left|..] == rest;
  }

  lemma {:induction false} StripRightPadding(core: string, right: string)
    requires Blank(right) && core != "" && !IsSpace(core[|core| - 1])
    ensures StripRight(core + right) == core
  {
    hide StripRight, IsSpace;
    var s := core + right;
    var r := StripRight(s);
    assert s[|core| - 1] == core[|core| - 1];
    assert forall k :: |core| <= k < |s| ==> s[k] == right[k - |core|];
    assert r[|r| - 1] == s[|r| - 1];
    assert s[..|core|] == core;
  }

  /** Whitespace around a trimmed core is exactly what Strip takes away. */
  lemma {:induction false} StripPadding(left: string, core: string, right: string)
    requires Blank(left) && Blank(right) && Trimmed(core) && core != ""
    ensures Strip(left + core + right) == core
  {
    hide Blank, StripLeft, StripRight, IsSpace;
    var rest := core + right;
    assert rest[0] == core[0];
    StripLeftPadding(left, rest);
    StripRightPadding(core, right);
    assert left + core + right == left + rest;
  }

  function UpperChar(c: char): char {
    if 'a' <= c <= 'z' then (c as int - 32) as char else c
  }

  function LowerChar(c: char): char {
    if 'A' <= c <= 'Z' then (c as int + 32) as char else c
  }

  function Upper(s: string): (r: string)
    ensures |r| == |s|
  {
    seq(|s|, i requires 0 <= i < |s| => UpperChar(s[i]))
  }

  function Lower(s: string): (r: string)
    ensures |r| == |s|
  {
    seq(|s|, i requires 0 <= i < |s| => LowerChar(s[i]))
  }

  function DashChar(c: char): char {
    if c == '_' || c == '/' then '-' else c
  }

  function Dashed(s: string): (r: string)
    ensures |r| == |s|
  {
    seq(|s|, i requires 0 <= i < |s| => DashChar(s[i]))
  }

  /** canonical_market_pair: the BASE-QUOTE form used for display and storage. */
  function CanonicalPair(pair: string): string {
    Dashed(Strip(pair))
  }

  /** _normalize_pair: the form in which the policy gate compares pairs. */
  function NormalizePair(pair: string): string {
    Upper(CanonicalPair(pair))
  }

  lemma {:induction false} NormalCharFixed(c: char)
    ensures var n := UpperChar(DashChar(c)); UpperChar(n) == n && DashChar(n) == n && (IsSpace(n) ==> IsSpace(c))
  {
  }

  lemma {:induction false} NormalFormFixed(c: string)
    requires Trimmed(c)
    ensures var n := Upper(Dashed(c)); Trimmed(n) && Dashed(n) == n && Upper(n) == n
  {
    var n := Upper(Dashed(c));
    forall i | 0 <= i < |c|
      ensures UpperChar(n[i]) == n[i] && DashChar(n[i]) == n[i] && (IsSpace(n[i]) ==> IsSpace(c[i]))
    {
      NormalCharFixed(c[i]);
    }
  }

  /** Mirrors store pairs normalized and the gate normalizes them again: that
      second pass changes nothing. */
  lemma {:induction false} NormalizeIdempotent(pair: string)
    ensures NormalizePair(NormalizePair(pair)) == NormalizePair(pair)
  {
    StripTrimmed(pair);
    NormalFormFixed(Strip(pair));
    StripTrimmed(NormalizePair(pair));
  }

  // ---- What counts as the same ----

  const CAPITALS := "ABCDEFGHIJKLMNOPQRSTUVWXYZ"
  const SMALLS := "abcdefghijklmnopqrstuvwxyz"

  /** The k-th letter has the k-th capital and back; nothing else changes. */
  lemma {:induction false} CaseOfLetters(k: nat, c: char)
    requires k < 26
    ensures UpperChar(SMALLS[k]) == CAPITALS[k] && LowerChar(CAPITALS[k]) == SMALLS[k]
    ensures !('a' <= c <= 'z') ==> UpperChar(c) == c
    ensures !('A' <= c <= 'Z') ==> LowerChar(c) == c
  {
  }

  /** Blank are the space, the tab, the two line ends and the two feeds. */
  lemma {:induction false} Blanks(c: char)
    ensures IsSpace(c) <==> c == ' ' || c == '\t' || c == '\n' || c == '\r' || c as int == 11 || c as int == 12
  {
  }

  predicate Separates(c: char) { c == '-' || c == '_' || c == '/' }

  /** The same character, the same letter in another case, or two of the three separators. */
  predicate SameMark(c: char, d: char) {
    || c == d || (Separates(c) && Separates(d))
    || ('a' <= c <= 'z' && d as int - 'A' as int == c as int - 'a' as int)
    || ('a' <= d <= 'z' && c as int - 'A' as int == d as int - 'a' as int)
  }

  lemma {:induction false} SameMarkExactlyWhen(c: char, d: char)
    ensures UpperChar(DashChar(c)) == UpperChar(DashChar(d)) <==> SameMark(c, d)
  {
  }

  /** Two spellings are of one pair exactly when, blanks around them apart, they agree character
      by character up to case and separator. */
  lemma {:induction false} SameSpellingExactlyWhen(a: string, b: string)
    ensures NormalizePair(a) == NormalizePair(b)
       <==> |Strip(a)| == |Strip(b)| && forall i :: 0 <= i < |Strip(a)| ==> SameMark(Strip(a)[i], Strip(b)[i])
  {
    hide UpperChar, DashChar, SameMark, Strip;
    var (x, y) := (Strip(a), Strip(b));
    var (m, n) := (NormalizePair(a), NormalizePair(b));
    if |x| == |y| {
      forall i | 0 <= i < |x| ensures m[i] == n[i] <==> SameMark(x[i], y[i]) {
        SameMarkExactlyWhen(x[i], y[i]);
      }
      if forall i :: 0 <= i < |x| ==> SameMark(x[i], y[i]) {
        assert forall i :: 0 <= i < |m| ==> m[i] == n[i];
      }
    } else {
      assert |m| == |x| && |n| == |y|;
    }
  }
}
