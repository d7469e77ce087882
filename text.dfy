/**
 * The string operations the core relies on: `char.IsWhiteSpace`, `string.IsNullOrWhiteSpace`,
 * `string.Trim`, `StringComparer.OrdinalIgnoreCase`, ordinal ordering and `string.Join`.
 */
module Text {
  import opened Wrappers

  /** `char.IsWhiteSpace`: U+0009..U+000D, U+0085 and the Unicode space, line and paragraph separators. */
  predicate IsWhiteSpace(c: char) {
    || ('\t' <= c <= '\r')
    || c == ' '
    || c == '\U{85}'
    || c == '\U{A0}'
    || c == '\U{1680}'
    || ('\U{2000}' <= c <= '\U{200A}')
    || c == '\U{2028}'
    || c == '\U{2029}'
    || c == '\U{202F}'
    || c == '\U{205F}'
    || c == '\U{3000}'
  }

  predicate IsBlank(s: string) {
    forall i :: 0 <= i < |s| ==> IsWhiteSpace(s[i])
  }

  /** `string.IsNullOrWhiteSpace`; `None` stands for a null reference. */
  predicate IsNullOrWhiteSpace(s: Option<string>) {
    s.None? || IsBlank(s.value)
  }

  /** Drops the longest all-white-space prefix. */
  function TrimStart(s: string): (r: string)
    ensures |r| <= |s| && r == s[|s| - |r|..]
    ensures forall i :: 0 <= i < |s| - |r| ==> IsWhiteSpace(s[i])
    ensures r != [] ==> !IsWhiteSpace(r[0])
  {
    if s != [] && IsWhiteSpace(s[0]) then TrimStart(s[1..]) else s
  }

  /** Drops the longest all-white-space suffix. */
  function TrimEnd(s: string): (r: string)
    ensures |r| <= |s| && r == s[..|r|]
    ensures forall i :: |r| <= i < |s| ==> IsWhiteSpace(s[i])
    ensures r != [] ==> !IsWhiteSpace(r[|r| - 1])
  {
    if s != [] && IsWhiteSpace(s[|s| - 1]) then TrimEnd(s[..|s| - 1]) else s
  }

  /** No white space at either end. */
  predicate Trimmed(s: string) {
    s != [] ==> !IsWhiteSpace(s[0]) && !IsWhiteSpace(s[|s| - 1])
  }

  /** `r` sits at offset `k` of `s` with only white space before and after it. */
  predicate MiddleOf(s: string, r: string, k: int) {
    && 0 <= k <= |s| - |r|
    && r == s[k..k + |r|]
    && IsBlank(s[..k])
    && IsBlank(s[k + |r|..])
  }

  /** `string.Trim()`: the middle of `s` left once white space is removed from both ends. */
  function Trim(s: string): (r: string)
    ensures r == [] <==> IsBlank(s)
    ensures Trimmed(r)
    ensures |r| <= |s|
    ensures exists k :: MiddleOf(s, r, k)
  {
    var t := TrimStart(s);
    var r := TrimEnd(t);
    TrimMiddle(s, t, r);
    r
  }

  /** The trimmed text is the middle of `s`, between the blank prefix `TrimStart` drops and the blank suffix `TrimEnd` drops. */
  lemma TrimMiddle(s: string, t: string, r: string)
    requires t == TrimStart(s) && r == TrimEnd(t)
    ensures r == [] <==> IsBlank(s)
    ensures Trimmed(r)
    ensures MiddleOf(s, r, |s| - |t|)
  {
    BlankIffTrimStartEmpty(s, t);
    BlankPrefix(s, t);
    if t != [] {
      assert r[0] == t[0];
    }
    BlankSuffix(t, r);
    MiddleFromPieces(s, t, r);
  }

  /** `r` is the middle of `s` when it starts the suffix `t` of `s` and both what precedes `t` and what follows `r` in `t` are blank. */
  lemma MiddleFromPieces(s: string, t: string, r: string)
    requires |t| <= |s| && t == s[|s| - |t|..] && IsBlank(s[..|s| - |t|])
    requires |r| <= |t| && r == t[..|r|] && IsBlank(t[|r|..])
    ensures MiddleOf(s, r, |s| - |t|)
  {
    var k := |s| - |t|;
    assert r == s[k..k + |r|];
    assert t[|r|..] == s[k + |r|..];
  }

  /** `TrimStart` leaves nothing exactly when the text is blank. */
  lemma BlankIffTrimStartEmpty(s: string, t: string)
    requires t == TrimStart(s)
    ensures t == [] <==> IsBlank(s)
  {
    if t != [] {
      assert !IsWhiteSpace(s[|s| - |t|]);
    }
  }

  /** What `TrimStart` drops is blank. */
  lemma BlankPrefix(s: string, t: string)
    requires t == TrimStart(s)
    ensures IsBlank(s[..|s| - |t|])
  {
    var head := s[..|s| - |t|];
    forall i | 0 <= i < |head| ensures IsWhiteSpace(head[i]) {
      assert head[i] == s[i];
    }
  }

  /** What `TrimEnd` drops is blank. */
  lemma BlankSuffix(t: string, r: string)
    requires r == TrimEnd(t)
    ensures IsBlank(t[|r|..])
  {
    var tail := t[|r|..];
    forall i | 0 <= i < |tail| ensures IsWhiteSpace(tail[i]) {
      assert tail[i] == t[|r| + i];
    }
  }

  /** Trimming text that has no white space at either end gives it back unchanged. */
  lemma {:induction false} TrimOfTrimmed(s: string)
    requires Trimmed(s)
    ensures Trim(s) == s
  {
    if s != [] {
      assert TrimStart(s) == s;
      assert TrimEnd(s) == s;
    }
  }

  /** Trim is idempotent. */
  lemma TrimIdempotent(s: string)
    ensures Trim(Trim(s)) == Trim(s)
  {
    TrimOfTrimmed(Trim(s));
  }

  /** The per-character case mapping behind `OrdinalIgnoreCase`, restricted to ASCII letters. */
  function UpperAscii(c: char): char {
    if 'a' <= c <= 'z' then (c as int - 32) as char else c
  }

  function Fold(s: string): string {
    seq(|s|, i requires 0 <= i < |s| => UpperAscii(s[i]))
  }

  /** `StringComparer.OrdinalIgnoreCase.Equals`. */
  predicate EqualsIgnoreCase(a: string, b: string) {
    Fold(a) == Fold(b)
  }

  /** Two strings of one length are equal ignoring case when their letters agree position by position. */
  lemma EqualsIgnoreCaseByLetters(a: string, b: string)
    requires |a| == |b|
    requires forall i :: 0 <= i < |a| ==> UpperAscii(a[i]) == UpperAscii(b[i])
    ensures EqualsIgnoreCase(a, b)
  {
  }

  /** Strings of different lengths are not equal ignoring case. */
  lemma LengthsDiffer(a: string, b: string)
    requires |a| != |b|
    ensures !EqualsIgnoreCase(a, b)
  {
    assert |Fold(a)| != |Fold(b)|;
  }

  /** Strings whose first letters differ ignoring case are not equal ignoring case. */
  lemma FirstLettersDiffer(a: string, b: string)
    requires a != [] && b != [] && UpperAscii(a[0]) != UpperAscii(b[0])
    ensures !EqualsIgnoreCase(a, b)
  {
    assert Fold(a)[0] != Fold(b)[0];
  }

  /** Ordinal (code-point) lexicographic order; a proper prefix sorts first. */
  predicate OrdinalLe(a: string, b: string) {
    a == [] || (b != [] && (a[0] < b[0] || (a[0] == b[0] && OrdinalLe(a[1..], b[1..]))))
  }

  lemma {:induction false} OrdinalLeTotal(a: string, b: string)
    ensures OrdinalLe(a, b) || OrdinalLe(b, a)
  {
    if a != [] && b != [] && a[0] == b[0] {
      OrdinalLeTotal(a[1..], b[1..]);
    }
  }

  lemma {:induction false} OrdinalLeTransitive(a: string, b: string, c: string)
    requires OrdinalLe(a, b) && OrdinalLe(b, c)
    ensures OrdinalLe(a, c)
  {
    if a != [] && a[0] == b[0] && b[0] == c[0] {
      OrdinalLeTransitive(a[1..], b[1..], c[1..]);
    }
  }

  predicate SortedOrdinal(s: seq<string>) {
    forall i, j :: 0 <= i < j < |s| ==> OrdinalLe(s[i], s[j])
  }

  function InsertOrdinal(x: string, t: seq<string>): (r: seq<string>)
    requires SortedOrdinal(t)
    ensures SortedOrdinal(r)
    ensures multiset(r) == multiset(t) + multiset{x}
  {
    if t == [] then [x]
    else if OrdinalLe(x, t[0]) then
      assert forall j :: 0 <= j < |t| ==> OrdinalLe(x, t[j]) by {
        forall j | 0 <= j < |t| ensures OrdinalLe(x, t[j]) {
          if j > 0 { OrdinalLeTransitive(x, t[0], t[j]); }
        }
      }
      [x] + t
    else
      var rest := InsertOrdinal(x, t[1..]);
      assert t == [t[0]] + t[1..];
      OrdinalLeTotal(x, t[0]);
      forall j | 0 <= j < |rest| ensures OrdinalLe(t[0], rest[j]) {
        var y := rest[j];
        assert y in multiset(rest);
        if y != x {
          assert y in t[1..];
          var i :| 1 <= i < |t| && t[i] == y;
        }
      }
      [t[0]] + rest
  }

  /** Inserting behind a first element that sorts strictly before `x`. */
  lemma InsertOrdinalBehind(x: string, t: seq<string>)
    requires SortedOrdinal(t) && t != [] && !OrdinalLe(x, t[0])
    ensures InsertOrdinal(x, t) == [t[0]] + InsertOrdinal(x, t[1..])
  {
  }

  /** `OrderBy(x => x)` over strings, under the ordinal order. */
  function SortOrdinal(s: seq<string>): (r: seq<string>)
    ensures SortedOrdinal(r)
    ensures multiset(r) == multiset(s)
    ensures |r| == |s|
  {
    if s == [] then []
    else
      assert s == [s[0]] + s[1..];
      var r := InsertOrdinal(s[0], SortOrdinal(s[1..]));
      assert |r| == |multiset(r)|;
      r
  }

  /** `string.Join(sep, xs)`. */
  function Join(sep: string, xs: seq<string>): string {
    if xs == [] then ""
    else if |xs| == 1 then xs[0]
    else xs[0] + sep + Join(sep, xs[1..])
  }
}
