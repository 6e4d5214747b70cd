/**
 * The string operations both bots rely on: Python's `str.strip()`,
 * lower-casing (ASCII letters only), `str.split(',')` and the substring
 * test shared by Python's `in` and Go's `strings.Contains`.
 */
module Text {

  /** Python's `str.isspace()` on one character. */
  predicate IsSpace(c: char) {
    || c == ' '
    || ('\t' <= c <= '\r')
    || ('\U{1c}' <= c <= '\U{1f}')
    || c == '\U{85}' || c == '\U{a0}' || c == '\U{1680}'
    || ('\U{2000}' <= c <= '\U{200a}')
    || c == '\U{2028}' || c == '\U{2029}' || c == '\U{202f}'
    || c == '\U{205f}' || c == '\U{3000}'
  }

  predicate IsUpper(c: char) {
    'A' <= c <= 'Z'
  }

  predicate AllSpace(s: string) {
    forall i :: 0 <= i < |s| ==> IsSpace(s[i])
  }

  /** True when `s` has no leading and no trailing whitespace. */
  predicate IsStripped(s: string) {
    s == [] || (!IsSpace(s[0]) && !IsSpace(s[|s| - 1]))
  }

  predicate HasUpper(s: string) {
    exists i :: 0 <= i < |s| && IsUpper(s[i])
  }

  /** ASCII lower-casing of one character: `A`..`Z` move down by 32 to `a`..`z`. */
  function LowerChar(c: char): (d: char)
    ensures !IsUpper(d)
    ensures IsSpace(d) <==> IsSpace(c)
    ensures IsUpper(c) ==> d as int == c as int + 32 && 'a' <= d <= 'z'
    ensures !IsUpper(c) ==> d == c
  {
    if IsUpper(c) then (c as int + 32) as char else c
  }

  /** Lower-cases the ASCII letters and keeps every other character. */
  function Lower(s: string): (r: string)
    ensures |r| == |s|
    ensures forall i :: 0 <= i < |s| ==> r[i] == LowerChar(s[i])
    ensures !HasUpper(r)
  {
    seq(|s|, i requires 0 <= i < |s| => LowerChar(s[i]))
  }

  /** Text without upper-case letters is its own lower-case form. */
  lemma LowerOfLower(s: string)
    requires !HasUpper(s)
    ensures Lower(s) == s
  {
  }

  /** `c` and `d` are the same letter up to ASCII case, or the same character. */
  predicate SameUpToCase(c: char, d: char) {
    c == d || (IsUpper(c) && d as int == c as int + 32) || (IsUpper(d) && c as int == d as int + 32)
  }

  /** Strings that differ only in the case of ASCII letters lower-case to the same string. */
  lemma LowerIgnoresCase(s: string, t: string)
    requires |s| == |t| && forall i :: 0 <= i < |s| ==> SameUpToCase(s[i], t[i])
    ensures Lower(s) == Lower(t)
  {
    forall i | 0 <= i < |s| ensures Lower(s)[i] == Lower(t)[i] {
      var c, d := s[i], t[i];
      if IsUpper(c) && d as int == c as int + 32 {
        assert !IsUpper(d);
      } else if IsUpper(d) && c as int == d as int + 32 {
        assert !IsUpper(c);
      }
    }
  }

  /**
   * The match test both bots apply to a post: the keyword is a substring of
   * the lower-cased title or of the lower-cased text.
   */
  predicate KeywordFound(keyword: string, title: string, text: string) {
    Contains(Lower(title), keyword) || Contains(Lower(text), keyword)
  }

  /** The shape of a keyword match: `GPU` lower-cases to `gpu`. */
  lemma LowerOfUpperWord()
    ensures Lower("GPU") == "gpu"
  {
    assert LowerChar('G') == 'g' && LowerChar('P') == 'p' && LowerChar('U') == 'u';
  }

  /** Lower-casing brings in no comma. */
  lemma LowerKeepsComma(s: string)
    requires ',' !in s
    ensures ',' !in Lower(s)
  {
    forall i | 0 <= i < |s| ensures Lower(s)[i] != ',' {
      assert s[i] in s;
    }
  }

  /** Two runs of whitespace make one; `StripLeftStep` and `StripRightStep` use it. */
  lemma AllSpaceJoin(a: string, b: string)
    requires AllSpace(a) && AllSpace(b)
    ensures AllSpace(a + b)
  {
    forall i | 0 <= i < |a + b| ensures IsSpace((a + b)[i]) {
      if i >= |a| {
        assert (a + b)[i] == b[i - |a|];
      }
    }
  }

  /** A slice of a suffix is a slice of the whole string. */
  lemma SliceOfSlice(s: string, a: nat, n: nat)
    requires a + n <= |s|
    ensures s[a..][..n] == s[a..a + n] && s[a..][n..] == s[a + n..]
  {
  }

  /** Python's `str.lstrip()`. */
  function StripLeft(s: string): (r: string)
    ensures |r| <= |s| && r == s[|s| - |r|..]
    ensures AllSpace(s[..|s| - |r|])
    ensures r == [] || !IsSpace(r[0])
  {
    if |s| > 0 && IsSpace(s[0]) then
      var r := StripLeft(s[1..]);
      StripLeftStep(s, r);
      r
    else s
  }

  /** The recursive case of `StripLeft`: one more leading space is cut off. */
  lemma StripLeftStep(s: string, r: string)
    requires |s| > 0 && IsSpace(s[0])
    requires |r| <= |s| - 1 && r == s[1..][|s| - 1 - |r|..]
    requires AllSpace(s[1..][..|s| - 1 - |r|])
    ensures r == s[|s| - |r|..]
    ensures AllSpace(s[..|s| - |r|])
  {
    var k := |s| - |r|;
    SliceOfSlice(s, 1, k - 1);
    assert s[..k] == [s[0]] + s[1..k];
    AllSpaceJoin([s[0]], s[1..k]);
  }

  /** Python's `str.rstrip()`. */
  function StripRight(s: string): (r: string)
    ensures |r| <= |s| && r == s[..|r|]
    ensures AllSpace(s[|r|..])
    ensures r == [] || !IsSpace(r[|r| - 1])
  {
    if |s| > 0 && IsSpace(s[|s| - 1]) then
      var r := StripRight(s[..|s| - 1]);
      StripRightStep(s, r);
      r
    else s
  }

  /** The recursive case of `StripRight`: one more trailing space is cut off. */
  lemma StripRightStep(s: string, r: string)
    requires |s| > 0 && IsSpace(s[|s| - 1])
    requires |r| <= |s| - 1 && r == s[..|s| - 1][..|r|]
    requires AllSpace(s[..|s| - 1][|r|..])
    ensures r == s[..|r|]
    ensures AllSpace(s[|r|..])
  {
    var n := |s| - 1;
    assert s[..n][|r|..] == s[|r|..n];
    assert s[|r|..] == s[|r|..n] + [s[n]];
    AllSpaceJoin(s[|r|..n], [s[n]]);
  }

  /** Python's `str.strip()`: drops leading and trailing whitespace. */
  function Strip(s: string): (r: string)
    ensures IsStripped(r)
    ensures |r| <= |s|
    ensures r == [] <==> AllSpace(s)
  {
    var t := StripLeft(s);
    var r := StripRight(t);
    assert r != [] ==> r[0] == t[0];
    assert t != [] ==> t[0] == s[|s| - |t|];
    assert r == [] ==> AllSpace(s) by {
      if r == [] {
        assert AllSpace(t);
        assert s == s[..|s| - |t|] + t;
      }
    }
    r
  }

  /** `Strip(s)` is the slice of `s` left once the whitespace at both ends is cut off. */
  lemma StripIsSlice(s: string) returns (a: nat, b: nat)
    ensures a == |s| - |StripLeft(s)|
    ensures 0 <= a <= b <= |s| && Strip(s) == s[a..b]
    ensures AllSpace(s[..a]) && AllSpace(s[b..])
  {
    a, b := TrimIsSlice(s);
    assert Strip(s) == StripRight(StripLeft(s));
  }

  /** `StripIsSlice` before `Strip` is unfolded: both trims together cut out a slice. */
  lemma TrimIsSlice(s: string) returns (a: nat, b: nat)
    ensures a == |s| - |StripLeft(s)|
    ensures 0 <= a <= b <= |s| && StripRight(StripLeft(s)) == s[a..b]
    ensures AllSpace(s[..a]) && AllSpace(s[b..])
  {
    var t := StripLeft(s);
    var r := StripRight(t);
    a := |s| - |t|;
    b := a + |r|;
    SliceOfSlice(s, a, |r|);
    assert t[|r|..] == s[b..];
  }

  /** Stripping adds no character. */
  lemma StripKeepsAbsent(s: string, c: char)
    requires c !in s
    ensures c !in Strip(s)
  {
    var a, b := StripIsSlice(s);
    assert forall x :: x in s[a..b] ==> x in s;
  }

  lemma StripOfStripped(s: string)
    requires IsStripped(s)
    ensures Strip(s) == s
  {
  }

  lemma StripIdempotent(s: string)
    ensures Strip(Strip(s)) == Strip(s)
  {
    StripOfStripped(Strip(s));
  }

  /** Lower-casing neither adds nor removes whitespace at the ends. */
  lemma LowerKeepsStripped(s: string)
    requires IsStripped(s)
    ensures IsStripped(Lower(s))
  {
  }

  lemma LowerIdempotent(s: string)
    ensures Lower(Lower(s)) == Lower(s)
  {
  }

  predicate IsPrefix(p: string, s: string) {
    |p| <= |s| && s[..|p|] == p
  }

  /** `p` occurs in `s`: Python's `p in s`, Go's `strings.Contains(s, p)`. */
  predicate Contains(s: string, p: string)
    decreases |s|
  {
    IsPrefix(p, s) || (|s| > 0 && Contains(s[1..], p))
  }

  /** `p` occurs in `s` starting at index `i`. */
  predicate OccursAt(s: string, p: string, i: int) {
    0 <= i && i + |p| <= |s| && s[i..i + |p|] == p
  }

  /** `Contains` agrees with "some window of `s` equals `p`". */
  lemma {:induction false} ContainsIff(s: string, p: string)
    ensures Contains(s, p) <==> exists i :: OccursAt(s, p, i)
    decreases |s|
  {
    if Contains(s, p) {
      if IsPrefix(p, s) {
        assert OccursAt(s, p, 0);
      } else {
        ContainsIff(s[1..], p);
        var i :| OccursAt(s[1..], p, i);
        assert s[i + 1..i + 1 + |p|] == s[1..][i..i + |p|];
        assert OccursAt(s, p, i + 1);
      }
    }
    if exists i :: OccursAt(s, p, i) {
      var i :| OccursAt(s, p, i);
      if i > 0 {
        assert s[1..][i - 1..i - 1 + |p|] == s[i..i + |p|];
        assert OccursAt(s[1..], p, i - 1);
        ContainsIff(s[1..], p);
      }
    }
  }

  lemma EmptyIsContained(s: string)
    ensures Contains(s, "")
  {
  }

  /** Every character of a contained string occurs in the containing one. */
  lemma {:induction false} ContainsChars(s: string, p: string, k: nat)
    requires Contains(s, p)
    requires k < |p|
    ensures exists j :: 0 <= j < |s| && s[j] == p[k]
    decreases |s|
  {
    if IsPrefix(p, s) {
      assert s[k] == p[k];
    } else {
      ContainsChars(s[1..], p, k);
      var j :| 0 <= j < |s| - 1 && s[1..][j] == p[k];
      assert s[j + 1] == p[k];
    }
  }

  /** A string with an upper-case ASCII letter never occurs in lower-cased text. */
  lemma UpperNotInLower(s: string, p: string)
    requires HasUpper(p)
    ensures !Contains(Lower(s), p)
  {
    if Contains(Lower(s), p) {
      var k :| 0 <= k < |p| && IsUpper(p[k]);
      ContainsChars(Lower(s), p, k);
    }
  }

  /** Python's `s.split(sep)`: the pieces between separators, at least one. */
  function Split(s: string, sep: char): (r: seq<string>)
    ensures |r| >= 1
    ensures forall i :: 0 <= i < |r| ==> sep !in r[i]
  {
    if s == [] then [""]
    else if s[0] == sep then [""] + Split(s[1..], sep)
    else
      var rest := Split(s[1..], sep);
      [[s[0]] + rest[0]] + rest[1..]
  }

  /** Python's `sep.join(pieces)`. */
  function Join(pieces: seq<string>, sep: char): string
    requires |pieces| >= 1
  {
    if |pieces| == 1 then pieces[0] else pieces[0] + [sep] + Join(pieces[1..], sep)
  }

  /** Splitting loses nothing: joining the pieces gives the string back. */
  lemma {:induction false} JoinSplit(s: string, sep: char)
    ensures Join(Split(s, sep), sep) == s
  {
    if s != [] {
      JoinSplit(s[1..], sep);
      if s[0] != sep {
        var rest := Split(s[1..], sep);
        if |rest| > 1 {
          assert Join(rest, sep) == rest[0] + [sep] + Join(rest[1..], sep);
          assert ([[s[0]] + rest[0]] + rest[1..])[1..] == rest[1..];
        }
      }
    }
  }

  /** A separator splits the string into the pieces of each side. */
  lemma {:induction false} SplitAround(s: string, t: string, sep: char)
    requires sep !in s
    ensures Split(s + [sep] + t, sep) == [s] + Split(t, sep)
  {
    if s == [] {
      assert s + [sep] + t == [sep] + t;
    } else {
      assert (s + [sep] + t)[1..] == s[1..] + [sep] + t;
      SplitAround(s[1..], t, sep);
      assert [s[0]] + s[1..] == s;
    }
  }

  /** Splitting a concatenation joined by `sep` concatenates the pieces. */
  lemma {:induction false} SplitConcat(s: string, t: string, sep: char)
    ensures Split(s + [sep] + t, sep) == Split(s, sep) + Split(t, sep)
  {
    if s == [] {
      assert s + [sep] + t == [sep] + t;
    } else if s[0] == sep {
      assert (s + [sep] + t)[1..] == s[1..] + [sep] + t;
      SplitConcat(s[1..], t, sep);
    } else {
      assert (s + [sep] + t)[1..] == s[1..] + [sep] + t;
      SplitConcat(s[1..], t, sep);
    }
  }

  /** A string without the separator is a single piece. */
  lemma {:induction false} SplitNoSep(s: string, sep: char)
    requires sep !in s
    ensures Split(s, sep) == [s]
  {
    if s != [] {
      assert sep !in s[1..] by {
        assert forall c :: c in s[1..] ==> c in s;
      }
      SplitNoSep(s[1..], sep);
      assert [s[0]] + s[1..] == s;
    }
  }
}
