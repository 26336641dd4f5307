/**
  Text helpers shared by the model: character classes and their maximal runs
  (the building block of the regular expressions the bot uses), ASCII
  lowercasing, `str.startswith`, and `str.split` with a one-character
  separator together with its inverse.
*/
module Text {
  import opened Wrappers


  /** The character classes of the patterns the bot matches. */
  datatype CharClass = Upper | Lowercase | Letter | Digit | UpperOrDigit | Space

  /** `[A-Z]`, `[a-z]`, `[A-Za-z]`, `[0-9]`, `[A-Z0-9]`, and `\s` (the Unicode
      white space of Python's `str.isspace`). */
  predicate InClass(c: char, k: CharClass) {
    match k
    case Upper => 'A' <= c <= 'Z'
    case Lowercase => 'a' <= c <= 'z'
    case Letter => 'A' <= c <= 'Z' || 'a' <= c <= 'z'
    case Digit => '0' <= c <= '9'
    case UpperOrDigit => 'A' <= c <= 'Z' || '0' <= c <= '9'
    case Space =>
      c == ' ' || '\t' <= c <= '\r' || '\U{001C}' <= c <= '\U{001F}'
      || c == '\U{0085}' || c == '\U{00A0}' || c == '\U{1680}'
      || '\U{2000}' <= c <= '\U{200A}' || c == '\U{2028}' || c == '\U{2029}'
      || c == '\U{202F}' || c == '\U{205F}' || c == '\U{3000}'
  }

  /** Every character of `t` on `[i, j)` is of class `k`. */
  predicate Span(t: string, i: nat, j: nat, k: CharClass)
    requires i <= j <= |t|
  {
    forall m :: i <= m < j ==> InClass(t[m], k)
  }

  /** The end of the maximal run of class `k` that starts at `i` (a greedy `+` or `*`). */
  function RunEnd(s: string, i: nat, k: CharClass): (j: nat)
    requires i <= |s|
    ensures i <= j <= |s|
    ensures Span(s, i, j, k)
    ensures j == |s| || !InClass(s[j], k)
    decreases |s| - i
  {
    if i == |s| || !InClass(s[i], k) then i else RunEnd(s, i + 1, k)
  }

  /** A run of class `k` from `i` to `j` that cannot be extended is the maximal run. */
  lemma {:induction false} RunEndIs(s: string, i: nat, j: nat, k: CharClass)
    requires i <= j <= |s| && Span(s, i, j, k)
    requires j == |s| || !InClass(s[j], k)
    ensures RunEnd(s, i, k) == j
    decreases j - i
  {
    if i < j {
      RunEndIs(s, i + 1, j, k);
    }
  }

  /** Any run of class `k` from `i` ends no later than the maximal one. */
  lemma {:induction false} RunEndAtLeast(s: string, i: nat, j: nat, k: CharClass)
    requires i <= j <= |s| && Span(s, i, j, k)
    ensures j <= RunEnd(s, i, k)
    decreases j - i
  {
    if i < j {
      assert InClass(s[i], k);
      RunEndAtLeast(s, i + 1, j, k);
    }
  }

  /** Offsets into `s[p..e]` are offsets into `s` moved by `p`. */
  lemma SpanShift(s: string, p: nat, e: nat, i: nat, j: nat, k: CharClass)
    requires p <= e <= |s| && i <= j <= e - p
    ensures Span(s[p..e], i, j, k) <==> Span(s, p + i, p + j, k)
  {
    if Span(s[p..e], i, j, k) {
      forall m | p + i <= m < p + j ensures InClass(s[m], k) {
        assert s[m] == s[p..e][m - p];
      }
    }
  }

  function LowerChar(c: char): char {
    if 'A' <= c <= 'Z' then (c as int + 32) as char else c
  }

  /** `str.lower()` on text made of ASCII letters. */
  function Lower(t: string): (r: string)
    ensures |r| == |t|
    ensures forall i :: 0 <= i < |t| ==> r[i] == LowerChar(t[i])
  {
    if t == [] then [] else [LowerChar(t[0])] + Lower(t[1..])
  }

  /** Lowercasing ASCII letters gives lowercase letters. */
  lemma LowerOfLetters(t: string)
    requires Span(t, 0, |t|, Letter)
    ensures Span(Lower(t), 0, |t|, Lowercase)
  {
  }

  // ---------------------------------------------------------------------------
  // str.startswith and str.split
  // ---------------------------------------------------------------------------

  /** `s.startswith(prefix)`. */
  predicate StartsWith(s: string, prefix: string) {
    |prefix| <= |s| && s[..|prefix|] == prefix
  }

  /** `s.split(c)`: the pieces of `s` between occurrences of `c`, in order. */
  function Split(s: string, c: char): (r: seq<string>)
    ensures |r| >= 1
    ensures forall i :: 0 <= i < |r| ==> c !in r[i]
  {
    if s == [] then [""]
    else
      var rest := Split(s[1..], c);
      if s[0] == c then [""] + rest else [[s[0]] + rest[0]] + rest[1..]
  }

  /** There is one more piece than there are separators. */
  lemma {:induction false} SplitCount(s: string, c: char)
    ensures |Split(s, c)| == multiset(s)[c] + 1
    decreases |s|
  {
    if s != [] {
      SplitCount(s[1..], c);
      assert s == [s[0]] + s[1..];
    }
  }

  /** `sep.join(parts)` for a one-character separator. */
  function Join(parts: seq<string>, c: char): string
    requires |parts| >= 1
  {
    if |parts| == 1 then parts[0] else parts[0] + [c] + Join(parts[1..], c)
  }

  /** Joining the pieces back gives the original string. */
  lemma {:induction false} JoinSplit(s: string, c: char)
    ensures Join(Split(s, c), c) == s
    decreases |s|
  {
    if s != [] {
      var rest := Split(s[1..], c);
      JoinSplit(s[1..], c);
      if s[0] == c {
        JoinEmptyFirst(rest, c);
      } else {
        JoinExtendsFirst(s[0], rest, c);
      }
      assert [s[0]] + s[1..] == s;
    }
  }

  lemma JoinEmptyFirst(parts: seq<string>, c: char)
    requires |parts| >= 1
    ensures Join([""] + parts, c) == [c] + Join(parts, c)
  {
    assert ([""] + parts)[1..] == parts;
  }

  lemma JoinExtendsFirst(x: char, parts: seq<string>, c: char)
    requires |parts| >= 1
    ensures Join([[x] + parts[0]] + parts[1..], c) == [x] + Join(parts, c)
  {
    var r := [[x] + parts[0]] + parts[1..];
    if |parts| > 1 {
      assert r[1..] == parts[1..];
    }
  }

  /** A string without the separator is a single piece. */
  lemma {:induction false} SplitWhole(p: string, c: char)
    requires c !in p
    ensures Split(p, c) == [p]
    decreases |p|
  {
    if p != [] {
      assert p[0] != c;
      SplitWhole(p[1..], c);
      assert [p[0]] + p[1..] == p;
    }
  }

  /** A piece without the separator, then the separator, splits off as the first piece. */
  lemma {:induction false} SplitAfterPiece(p: string, c: char, s: string)
    requires c !in p
    ensures Split(p + [c] + s, c) == [p] + Split(s, c)
    decreases |p|
  {
    var t := p + [c] + s;
    if p == [] {
      assert t[1..] == s;
    } else {
      assert p[0] != c && t[0] == p[0];
      assert t[1..] == p[1..] + [c] + s;
      SplitAfterPiece(p[1..], c, s);
      assert [p[0]] + p[1..] == p;
    }
  }

  /** Splitting undoes joining, for pieces that do not contain the separator. */
  lemma {:induction false} SplitJoin(parts: seq<string>, c: char)
    requires |parts| >= 1
    requires forall i :: 0 <= i < |parts| ==> c !in parts[i]
    ensures Split(Join(parts, c), c) == parts
    decreases |parts|
  {
    if |parts| == 1 {
      SplitWhole(parts[0], c);
    } else {
      SplitJoin(parts[1..], c);
      SplitAfterPiece(parts[0], c, Join(parts[1..], c));
      assert [parts[0]] + parts[1..] == parts;
    }
  }

  /** `s.split(c, 1)[1]`: what follows the first separator, or `None` when there is
      none (Python raises `IndexError` there). */
  function AfterFirst(s: string, c: char): Option<string>
  {
    var pieces := Split(s, c);
    if |pieces| < 2 then None else Some(Join(pieces[1..], c))
  }

  /** After a separator-free prefix and the separator comes exactly the rest. */
  lemma AfterFirstPrefix(p: string, c: char, s: string)
    requires c !in p
    ensures AfterFirst(p + [c] + s, c) == Some(s)
  {
    SplitAfterPiece(p, c, s);
    JoinSplit(s, c);
    assert ([p] + Split(s, c))[1..] == Split(s, c);
  }
}
