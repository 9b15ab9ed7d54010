/** String helpers with the meaning Python's `str` methods have in the source:
    whitespace as `str.isspace()` and the regex class `\s` see it, `strip`,
    `split`, `join`, `lower`, substring search, and the zero-padded counters
    (`f"{n:03d}"`) the extractors use for their ids. */
module Text {

  datatype Option<T> = None | Some(value: T)

  /** The characters for which `str.isspace()` holds (and which `\s` matches in a
      `str` pattern). */
  predicate IsSpace(c: char) {
    ('\t' <= c <= '\r') || ('\U{1C}' <= c <= ' ') || c == '\U{85}' || c == '\U{A0}'
    || c == '\U{1680}' || ('\U{2000}' <= c <= '\U{200A}') || c == '\U{2028}' || c == '\U{2029}'
    || c == '\U{202F}' || c == '\U{205F}' || c == '\U{3000}'
  }

  predicate IsDigit(c: char) { '0' <= c <= '9' }

  predicate IsUpper(c: char) { 'A' <= c <= 'Z' }

  predicate IsLowerLetter(c: char) { 'a' <= c <= 'z' }

  predicate IsLetter(c: char) { IsUpper(c) || IsLowerLetter(c) }

  /** `\w` restricted to ASCII: letters, digits and underscore. */
  predicate IsWordChar(c: char) { IsLetter(c) || IsDigit(c) || c == '_' }

  predicate AllSpace(s: string) { forall k :: 0 <= k < |s| ==> IsSpace(s[k]) }

  /** No leading and no trailing whitespace. */
  predicate IsStripped(s: string) { s == [] || (!IsSpace(s[0]) && !IsSpace(s[|s| - 1])) }

  // ---------------------------------------------------------------- strip

  /** Index of the first non-whitespace character at or after `i`, or `|s|`. */
  function SkipSpace(s: string, i: nat): (k: nat)
    requires i <= |s|
    ensures i <= k <= |s|
    ensures forall j :: i <= j < k ==> IsSpace(s[j])
    ensures k < |s| ==> !IsSpace(s[k])
    decreases |s| - i
  {
    if i == |s| || !IsSpace(s[i]) then i else SkipSpace(s, i + 1)
  }

  /** The end of `s[lo..]` once trailing whitespace is removed. */
  function TrimEnd(s: string, lo: nat, hi: nat): (e: nat)
    requires lo <= hi <= |s|
    ensures lo <= e <= hi
    ensures forall j :: e <= j < hi ==> IsSpace(s[j])
    ensures e > lo ==> !IsSpace(s[e - 1])
    decreases hi
  {
    if hi == lo || !IsSpace(s[hi - 1]) then hi else TrimEnd(s, lo, hi - 1)
  }

  function LStrip(s: string): (r: string)
    ensures r == s[SkipSpace(s, 0)..]
  {
    s[SkipSpace(s, 0)..]
  }

  function RStrip(s: string): (r: string)
    ensures r == s[..TrimEnd(s, 0, |s|)]
    ensures r == [] || !IsSpace(r[|r| - 1])
  {
    s[..TrimEnd(s, 0, |s|)]
  }

  /** Python's `s.strip()`: the slice between the first and the last
      non-whitespace characters. Its properties are stated by `StripProperties`. */
  function Strip(s: string): (r: string)
    ensures |r| <= |s|
  {
    s[SkipSpace(s, 0)..TrimEnd(s, SkipSpace(s, 0), |s|)]
  }

  /** A stripped string has no whitespace at either end, and is empty exactly
      when the input was all whitespace. */
  lemma {:induction false} StripProperties(s: string)
    ensures IsStripped(Strip(s))
    ensures AllSpace(s) <==> Strip(s) == []
    ensures !AllSpace(s) ==> !IsSpace(Strip(s)[0])
  {
    var a := SkipSpace(s, 0);
    assert AllSpace(s) ==> a == |s|;
    assert a == |s| ==> AllSpace(s);
  }

  /** `Strip(s)` is the slice `s[StripStart(s)..StripEnd(s)]`: stripping never invents text. */
  function StripStart(s: string): nat { SkipSpace(s, 0) }

  function StripEnd(s: string): (e: nat)
    ensures StripStart(s) <= e <= |s|
  {
    TrimEnd(s, SkipSpace(s, 0), |s|)
  }

  lemma {:induction false} StripIsSlice(s: string)
    ensures Strip(s) == s[StripStart(s)..StripEnd(s)]
  {
  }

  /** A slice of a slice is a slice. */
  lemma {:induction false} SliceOfSlice<T>(s: seq<T>, lo: nat, hi: nat, i: nat, j: nat)
    requires lo <= hi <= |s| && i <= j <= hi - lo
    ensures s[lo..hi][i..j] == s[lo + i..lo + j]
  {
    assert |s[lo..hi][i..j]| == j - i;
    forall k | 0 <= k < j - i ensures s[lo..hi][i..j][k] == s[lo + i + k] {
      assert s[lo..hi][i + k] == s[lo + i + k];
    }
  }

  lemma {:induction false} StripIdempotent(s: string)
    ensures Strip(Strip(s)) == Strip(s)
  {
    var r := Strip(s);
    if r != [] {
      assert SkipSpace(r, 0) == 0;
      assert TrimEnd(r, 0, |r|) == |r|;
    }
  }

  // ---------------------------------------------------------------- prefixes

  lemma {:induction false} SliceSnoc<T>(s: seq<T>, a: nat, b: nat)
    requires a <= b < |s|
    ensures s[a..b + 1] == s[a..b] + [s[b]]
  {
  }

  predicate StartsWith(s: string, p: string) { |p| <= |s| && s[..|p|] == p }

  predicate EndsWith(s: string, p: string) { |p| <= |s| && s[|s| - |p|..] == p }

  /** A concatenation starts with its first part and ends with its last one. */
  lemma {:induction false} ConcatEnds(a: string, b: string, c: string)
    ensures StartsWith(a + b + c, a) && EndsWith(a + b + c, c)
  {
    assert (a + b + c)[..|a|] == a;
    assert (a + b + c)[|a| + |b|..] == c;
  }

  /** A suffix of a suffix is a suffix. */
  lemma {:induction false} EndsWithSuffix(s: string, i: nat, p: string)
    requires i <= |s| && EndsWith(s[i..], p)
    ensures EndsWith(s, p)
  {
    assert s[i..][|s[i..]| - |p|..] == s[|s| - |p|..];
  }

  /** Python's `s[:n]` for a non-negative `n`. */
  function Take<T>(s: seq<T>, n: nat): (r: seq<T>)
    ensures |r| == if |s| < n then |s| else n
    ensures r == s[..|r|]
  {
    if |s| <= n then s else s[..n]
  }

  /** Python's `s[:k]` for any integer `k` (a negative `k` drops elements from the end). */
  function SliceTo<T>(s: seq<T>, k: int): (r: seq<T>)
    ensures |r| <= |s| && r == s[..|r|]
    ensures k >= 0 ==> |r| == if |s| < k then |s| else k
    ensures k < 0 ==> |r| == if |s| + k < 0 then 0 else |s| + k
  {
    if k >= 0 then Take(s, k) else if |s| + k < 0 then [] else s[..|s| + k]
  }

  // ---------------------------------------------------------------- search

  predicate MatchAt(s: string, t: string, i: nat) { i + |t| <= |s| && s[i..i + |t|] == t }

  /** First position `k >= from` at which `t` occurs in `s` (Python's `s.find(t, from)`). */
  function IndexOf(s: string, t: string, from: nat): (r: Option<nat>)
    ensures r.Some? ==> from <= r.value && MatchAt(s, t, r.value)
    ensures r.Some? ==> forall j :: from <= j < r.value ==> !MatchAt(s, t, j)
    ensures r.None? ==> forall j :: from <= j ==> !MatchAt(s, t, j)
    decreases |s| - from
  {
    if from + |t| > |s| then None
    else if s[from..from + |t|] == t then Some(from)
    else IndexOf(s, t, from + 1)
  }

  /** Python's `t in s`. */
  predicate Contains(s: string, t: string) { IndexOf(s, t, 0).Some? }

  lemma {:induction false} ContainsWitness(s: string, t: string, i: nat)
    requires MatchAt(s, t, i)
    ensures Contains(s, t)
  {
  }

  predicate ContainsChar(s: string, c: char) { exists k :: 0 <= k < |s| && s[k] == c }

  /** Python's `any(t in s for t in ts)`. */
  predicate ContainsAny(s: string, ts: seq<string>) { exists k :: 0 <= k < |ts| && Contains(s, ts[k]) }

  function CountChar(s: string, c: char): (n: nat)
    ensures n <= |s|
  {
    if s == [] then 0 else (if s[0] == c then 1 else 0) + CountChar(s[1..], c)
  }

  // ---------------------------------------------------------------- case

  function LowerChar(c: char): char { if IsUpper(c) then (c as int + 32) as char else c }

  function UpperChar(c: char): char { if IsLowerLetter(c) then (c as int - 32) as char else c }

  /** `s.lower()` on ASCII letters. */
  function Lower(s: string): (r: string)
    ensures |r| == |s|
    ensures forall k :: 0 <= k < |s| ==> r[k] == LowerChar(s[k])
  {
    if s == [] then [] else [LowerChar(s[0])] + Lower(s[1..])
  }

  /** `s.title()` on ASCII letters: a letter is upper-cased when it starts a run of
      letters and lower-cased otherwise. */
  function Title(s: string): (r: string)
    ensures |r| == |s|
  {
    seq(|s|, k requires 0 <= k < |s| =>
      if k == 0 || !IsLetter(s[k - 1]) then UpperChar(s[k]) else LowerChar(s[k]))
  }

  /** `s.replace(a, b)` for single characters. */
  function ReplaceChar(s: string, a: char, b: char): (r: string)
    ensures |r| == |s|
    ensures forall k :: 0 <= k < |s| ==> r[k] == if s[k] == a then b else s[k]
  {
    seq(|s|, k requires 0 <= k < |s| => if s[k] == a then b else s[k])
  }

  // ---------------------------------------------------------------- regex pieces

  /** End of the run of ASCII digits starting at `i` (a greedy `\d*`). */
  function DigitEnd(s: string, i: nat): (k: nat)
    requires i <= |s|
    ensures i <= k <= |s|
    ensures forall j :: i <= j < k ==> IsDigit(s[j])
    ensures k < |s| ==> !IsDigit(s[k])
    decreases |s| - i
  {
    if i == |s| || !IsDigit(s[i]) then i else DigitEnd(s, i + 1)
  }

  /** Where a greedy `\*?\*?` starting at `i` stops: past at most two stars. */
  function StarsEnd(s: string, i: nat): (k: nat)
    requires i <= |s|
    ensures i <= k <= i + 2 && k <= |s|
    ensures forall j :: i <= j < k ==> s[j] == '*'
    ensures k < i + 2 && k < |s| ==> s[k] != '*'
  {
    if i < |s| && s[i] == '*' then (if i + 1 < |s| && s[i + 1] == '*' then i + 2 else i + 1) else i
  }

  /** The lower-case literal `t` occurs at `i`, ignoring the case of ASCII letters. */
  predicate MatchFold(s: string, t: string, i: nat) {
    i + |t| <= |s| && Lower(s[i..i + |t|]) == t
  }

  /** A case-insensitive match of `t` also matches every prefix of `t`. */
  lemma {:induction false} MatchFoldPrefix(s: string, t: string, i: nat, n: nat)
    requires MatchFold(s, t, i) && n <= |t|
    ensures MatchFold(s, t[..n], i)
  {
    var long, short := Lower(s[i..i + |t|]), Lower(s[i..i + n]);
    forall k | 0 <= k < n ensures short[k] == t[k] {
      assert s[i..i + n][k] == s[i..i + |t|][k];
      assert long[k] == t[k];
    }
  }

  /** `s.rstrip(c)`: the text without its trailing run of `c`. */
  function TrimEndChar(s: string, c: char): (r: string)
    ensures |r| <= |s| && r == s[..|r|]
    ensures r == [] || r[|r| - 1] != c
    ensures forall j :: |r| <= j < |s| ==> s[j] == c
    decreases |s|
  {
    if s != [] && s[|s| - 1] == c then TrimEndChar(s[..|s| - 1], c) else s
  }

  /** End of the run of characters of `cs` starting at `i`. */
  function SkipIn(s: string, cs: set<char>, i: nat): (k: nat)
    requires i <= |s|
    ensures i <= k <= |s|
    ensures forall j :: i <= j < k ==> s[j] in cs
    ensures k < |s| ==> s[k] !in cs
    decreases |s| - i
  {
    if i == |s| || s[i] !in cs then i else SkipIn(s, cs, i + 1)
  }

  /** Start of the run of characters of `cs` that ends at `hi`, not before `lo`. */
  function TrimIn(s: string, cs: set<char>, lo: nat, hi: nat): (e: nat)
    requires lo <= hi <= |s|
    ensures lo <= e <= hi
    ensures forall j :: e <= j < hi ==> s[j] in cs
    ensures e > lo ==> s[e - 1] !in cs
    decreases hi
  {
    if hi == lo || s[hi - 1] !in cs then hi else TrimIn(s, cs, lo, hi - 1)
  }

  /** Python's `s.strip(chars)`: the slice left once the leading and the
      trailing characters of `cs` are removed. */
  function StripChars(s: string, cs: set<char>): (r: string)
    ensures r == [] || (r[0] !in cs && r[|r| - 1] !in cs)
    ensures r == s[SkipIn(s, cs, 0)..TrimIn(s, cs, SkipIn(s, cs, 0), |s|)]
  {
    s[SkipIn(s, cs, 0)..TrimIn(s, cs, SkipIn(s, cs, 0), |s|)]
  }

  /** Index of the first element at or after `i` that `keep` accepts: the
      early `return` of a `for` loop over a list. */
  function FirstIndex<T>(xs: seq<T>, keep: T -> bool, i: nat): (r: Option<nat>)
    requires i <= |xs|
    ensures r.Some? ==> i <= r.value < |xs| && keep(xs[r.value])
    ensures forall k :: i <= k < |xs| && (r.None? || k < r.value) ==> !keep(xs[k])
    decreases |xs| - i
  {
    if i == |xs| then None else if keep(xs[i]) then Some(i) else FirstIndex(xs, keep, i + 1)
  }

  // ---------------------------------------------------------------- split / join

  /** `sep.join(parts)`. */
  function Join(parts: seq<string>, sep: string): string {
    if parts == [] then ""
    else if |parts| == 1 then parts[0]
    else parts[0] + sep + Join(parts[1..], sep)
  }

  /** Index of the first `c` at or after `i`, or `|s|`. */
  function NextChar(s: string, c: char, i: nat): (k: nat)
    requires i <= |s|
    ensures i <= k <= |s|
    ensures forall j :: i <= j < k ==> s[j] != c
    ensures k < |s| ==> s[k] == c
    decreases |s| - i
  {
    if i == |s| || s[i] == c then i else NextChar(s, c, i + 1)
  }

  /** Python's `s.split(c)` for a one-character separator: never empty, and the
      pieces contain no separator. */
  function Split(s: string, c: char): (r: seq<string>)
    ensures |r| >= 1
    ensures forall k :: 0 <= k < |r| ==> c !in r[k]
    decreases |s|
  {
    var k := NextChar(s, c, 0);
    if k == |s| then [s] else [s[..k]] + Split(s[k + 1..], c)
  }

  /** A text holding the separator splits into at least two pieces. */
  lemma {:induction false} SplitAtSeparator(s: string, c: char)
    requires c in s
    ensures |Split(s, c)| >= 2
  {
  }

  /** Splitting and joining again with the same separator gives back the text. */
  lemma {:induction false} SplitJoin(s: string, c: char)
    ensures Join(Split(s, c), [c]) == s
    decreases |s|
  {
    var k := NextChar(s, c, 0);
    if k < |s| {
      SplitJoin(s[k + 1..], c);
      assert s == s[..k] + [c] + s[k + 1..];
    }
  }

  /** Appending a part adds the separator and the part at the end. */
  lemma {:induction false} JoinSnoc(parts: seq<string>, p: string, sep: string)
    requires parts != []
    ensures Join(parts + [p], sep) == Join(parts, sep) + sep + p
    decreases |parts|
  {
    if |parts| > 1 {
      assert (parts + [p])[1..] == parts[1..] + [p];
      JoinSnoc(parts[1..], p, sep);
    }
  }

  /** Joining pieces free of the separator and splitting again gives back the
      pieces. */
  lemma {:induction false} JoinSplit(parts: seq<string>, c: char)
    requires |parts| >= 1
    requires forall k :: 0 <= k < |parts| ==> c !in parts[k]
    ensures Split(Join(parts, [c]), c) == parts
    decreases |parts|
  {
    var s := Join(parts, [c]);
    var p := parts[0];
    if |parts| == 1 {
      assert NextChar(s, c, 0) == |s|;
    } else {
      var rest := Join(parts[1..], [c]);
      assert s == p + [c] + rest;
      assert s[|p|] == c;
      forall j | 0 <= j < |p| ensures s[j] != c {
        assert s[j] == p[j] && p[j] in p;
      }
      assert s[..|p|] == p && s[|p| + 1..] == rest;
      JoinSplit(parts[1..], c);
    }
  }

  /** Python's `s.split()`: the maximal runs of non-whitespace characters. */
  function Words(s: string): (r: seq<string>)
    ensures forall k :: 0 <= k < |r| ==> r[k] != [] && forall j :: 0 <= j < |r[k]| ==> !IsSpace(r[k][j])
    decreases |s|
  {
    var a := SkipSpace(s, 0);
    if a == |s| then []
    else
      var b := NextSpace(s, a);
      [s[a..b]] + Words(s[b..])
  }

  function NextSpace(s: string, i: nat): (k: nat)
    requires i <= |s|
    ensures i <= k <= |s|
    ensures forall j :: i <= j < k ==> !IsSpace(s[j])
    ensures k < |s| ==> IsSpace(s[k])
    decreases |s| - i
  {
    if i == |s| || IsSpace(s[i]) then i else NextSpace(s, i + 1)
  }

  /** The lines of a text, as `text.split("\n")`. */
  function Lines(s: string): (r: seq<string>)
    ensures |r| >= 1
  {
    Split(s, '\n')
  }

  // ---------------------------------------------------------------- counters

  function DigitChar(d: nat): char
    requires d < 10
  {
    ['0', '1', '2', '3', '4', '5', '6', '7', '8', '9'][d]
  }

  /** Decimal digits of `n`, most significant first, without leading zeros. */
  function Decimal(n: nat): (r: string)
    ensures |r| >= 1
    ensures n >= 10 ==> |r| >= 2
    ensures n >= 100 ==> |r| >= 3
    ensures forall k :: 0 <= k < |r| ==> IsDigit(r[k])
    decreases n
  {
    if n < 10 then [DigitChar(n)] else Decimal(n / 10) + [DigitChar(n % 10)]
  }

  /** Value of a string of decimal digits (leading zeros allowed). */
  function DigitsValue(s: string): nat
    requires forall k :: 0 <= k < |s| ==> IsDigit(s[k])
  {
    if s == [] then 0
    else
      assert IsDigit(s[|s| - 1]);
      DigitsValue(s[..|s| - 1]) * 10 + (s[|s| - 1] as int - '0' as int)
  }

  /** `f"{n:03d}"`: at least three digits, zero-padded on the left. */
  function Pad3(n: nat): (r: string)
    ensures |r| >= 3
    ensures forall k :: 0 <= k < |r| ==> IsDigit(r[k])
  {
    if n < 10 then "00" + Decimal(n) else if n < 100 then "0" + Decimal(n) else Decimal(n)
  }

  /** An id such as `eq_007`: the prefix followed by the zero-padded counter. */
  function FormatId(prefix: string, n: nat): (r: string)
    ensures StartsWith(r, prefix)
  {
    prefix + Pad3(n)
  }

  lemma {:induction false} DecimalValue(n: nat)
    ensures DigitsValue(Decimal(n)) == n
    decreases n
  {
    if n >= 10 {
      DecimalValue(n / 10);
      var d := Decimal(n);
      assert d[..|d| - 1] == Decimal(n / 10);
    }
  }

  lemma {:induction false} LeadingZeros(z: string, s: string)
    requires forall k :: 0 <= k < |z| ==> z[k] == '0'
    requires forall k :: 0 <= k < |s| ==> IsDigit(s[k])
    ensures DigitsValue(z + s) == DigitsValue(s)
    decreases |s|
  {
    if s == [] {
      assert z + s == z;
      ZerosValue(z);
    } else {
      LeadingZeros(z, s[..|s| - 1]);
      assert (z + s)[..|z + s| - 1] == z + s[..|s| - 1];
    }
  }

  lemma {:induction false} ZerosValue(z: string)
    requires forall k :: 0 <= k < |z| ==> z[k] == '0'
    ensures DigitsValue(z) == 0
    decreases |z|
  {
    if z != [] { ZerosValue(z[..|z| - 1]); }
  }

  /** Reading back a zero-padded counter gives the counter. */
  lemma {:induction false} Pad3RoundTrip(n: nat)
    ensures DigitsValue(Pad3(n)) == n
  {
    DecimalValue(n);
    if n < 10 { LeadingZeros("00", Decimal(n)); }
    else if n < 100 { LeadingZeros("0", Decimal(n)); }
  }

  /** Distinct counters give distinct ids. */
  lemma {:induction false} FormatIdInjective(prefix: string, m: nat, n: nat)
    requires FormatId(prefix, m) == FormatId(prefix, n)
    ensures m == n
  {
    assert Pad3(m) == FormatId(prefix, m)[|prefix|..];
    assert Pad3(n) == FormatId(prefix, n)[|prefix|..];
    Pad3RoundTrip(m);
    Pad3RoundTrip(n);
  }
  /** Different numbers give different ids. */
  lemma {:induction false} FormatIdDistinct(prefix: string, m: nat, n: nat)
    requires m != n
    ensures FormatId(prefix, m) != FormatId(prefix, n)
  {
    if FormatId(prefix, m) == FormatId(prefix, n) {
      FormatIdInjective(prefix, m, n);
    }
  }

}
