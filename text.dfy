/**
  The string primitives of the .NET base library that the core relies on:
  string.IsNullOrWhiteSpace, culture-free lower-casing, string.Join,
  string.Split, string.Replace and int.ToString. Each is a total function
  over `string` (= seq<char>), proved against an independent description.
*/
module Text {
  import opened Wrappers

  /** char.IsWhiteSpace: the Unicode space separators plus U+0009..U+000D, U+0085, U+2028 and U+2029. */
  predicate IsWhiteSpace(c: char) {
    || c == ' ' || ('\t' <= c <= '\r') || c == '\U{85}' || c == '\U{A0}' || c == '\U{1680}'
    || ('\U{2000}' <= c <= '\U{200A}') || c == '\U{2028}' || c == '\U{2029}'
    || c == '\U{202F}' || c == '\U{205F}' || c == '\U{3000}'
  }

  predicate IsWhiteSpaceOnly(s: string) {
    forall i | 0 <= i < |s| :: IsWhiteSpace(s[i])
  }

  /** string.IsNullOrWhiteSpace; null is None. */
  predicate IsNullOrWhiteSpace(s: Option<string>) {
    s.None? || IsWhiteSpaceOnly(s.value)
  }

  // ---------------------------------------------------------------------------
  // Lower-casing (the culture-sensitive ToLower of .NET, restricted to ASCII)

  function ToLowerChar(c: char): char {
    if 'A' <= c <= 'Z' then (c as int + 32) as char else c
  }

  predicate IsUpper(c: char) {
    'A' <= c <= 'Z'
  }

  /** string.ToLower */
  function ToLower(s: string): string {
    seq(|s|, i requires 0 <= i < |s| => ToLowerChar(s[i]))
  }

  lemma ToLowerCharIdempotent(c: char)
    ensures ToLowerChar(ToLowerChar(c)) == ToLowerChar(c)
    ensures !IsUpper(ToLowerChar(c))
  {
  }

  /** Lower-casing twice is lower-casing once, and leaves no upper-case letter. */
  lemma ToLowerIdempotent(s: string)
    ensures ToLower(ToLower(s)) == ToLower(s)
    ensures forall i | 0 <= i < |s| :: !IsUpper(ToLower(s)[i])
  {
    forall i | 0 <= i < |s|
      ensures ToLower(ToLower(s))[i] == ToLower(s)[i] && !IsUpper(ToLower(s)[i])
    {
      ToLowerCharIdempotent(s[i]);
    }
  }

  lemma ToLowerAppend(a: string, b: string)
    ensures ToLower(a + b) == ToLower(a) + ToLower(b)
  {
  }

  // ---------------------------------------------------------------------------
  // Searching

  /** The pattern `pat` occurs in `s` starting at index `j`. */
  predicate OccursAt(s: string, pat: string, j: int) {
    0 <= j && j + |pat| <= |s| && s[j..j + |pat|] == pat
  }

  /** Ordinal string.IndexOf(pat, k): the first occurrence at or after k. */
  function IndexOfFrom(s: string, pat: string, k: nat): (r: Option<nat>)
    ensures r.Some? ==> k <= r.value && OccursAt(s, pat, r.value)
    ensures forall j | k <= j && (r.None? || j < r.value) :: !OccursAt(s, pat, j)
    decreases |s| - k
  {
    if k + |pat| > |s| then None
    else if s[k..k + |pat|] == pat then Some(k)
    else IndexOfFrom(s, pat, k + 1)
  }

  function IndexOf(s: string, pat: string): Option<nat> {
    IndexOfFrom(s, pat, 0)
  }

  /** No occurrence of `sep` starts inside `p`, not even one running on into a following `sep`. */
  predicate FreeOf(p: string, sep: string) {
    forall j | 0 <= j < |p| :: !OccursAt(p + sep, sep, j)
  }

  /** A string with no line feed cannot contain, or end in the start of, the batch delimiter ",\n". */
  lemma {:induction false} NoNewlineIsFreeOfDelimiter(p: string)
    requires '\n' !in p
    ensures FreeOf(p, ",\n")
  {
    forall j | 0 <= j < |p|
      ensures !OccursAt(p + ",\n", ",\n", j)
    {
      var s := p + ",\n";
      if j + 1 < |p| {
        assert s[j + 1] == p[j + 1];
        assert p[j + 1] != '\n';
      } else {
        assert s[j + 1] == ',';
      }
      assert s[j..j + 2][1] == s[j + 1];
    }
  }

  // ---------------------------------------------------------------------------
  // Join, Split and Replace

  /** string.Join(sep, parts) */
  function Join(parts: seq<string>, sep: string): string {
    if |parts| == 0 then ""
    else if |parts| == 1 then parts[0]
    else parts[0] + sep + Join(parts[1..], sep)
  }

  /** string.Split(sep) with ordinal matching, empty pieces kept. */
  function Split(s: string, sep: string): (r: seq<string>)
    requires |sep| > 0
    ensures |r| >= 1
    decreases |s|
  {
    match IndexOf(s, sep)
    case None => [s]
    case Some(i) => [s[..i]] + Split(s[i + |sep|..], sep)
  }

  /** Ordinal string.Replace(pat, rep): every non-overlapping occurrence, left to right. */
  function Replace(s: string, pat: string, rep: string): string
    requires |pat| > 0
    decreases |s|
  {
    match IndexOf(s, pat)
    case None => s
    case Some(i) => s[..i] + rep + Replace(s[i + |pat|..], pat, rep)
  }

  lemma {:induction false} JoinAppend(parts: seq<string>, x: string, sep: string)
    requires |parts| >= 1
    ensures Join(parts + [x], sep) == Join(parts, sep) + sep + x
    decreases |parts|
  {
    if |parts| == 1 {
      assert parts + [x] == [parts[0], x];
    } else {
      assert (parts + [x])[1..] == parts[1..] + [x];
      JoinAppend(parts[1..], x, sep);
    }
  }

  lemma {:induction false} JoinConcat(a: seq<string>, b: seq<string>, sep: string)
    requires |a| >= 1 && |b| >= 1
    ensures Join(a + b, sep) == Join(a, sep) + sep + Join(b, sep)
    decreases |a|
  {
    if |a| == 1 {
      assert a + b == [a[0]] + b;
      assert (a + b)[1..] == b;
    } else {
      assert (a + b)[1..] == a[1..] + b;
      JoinConcat(a[1..], b, sep);
    }
  }

  /** Splitting and joining again with the same separator gives the string back. */
  lemma {:induction false} JoinSplit(s: string, sep: string)
    requires |sep| > 0
    ensures Join(Split(s, sep), sep) == s
    decreases |s|
  {
    match IndexOf(s, sep)
    case None =>
    case Some(i) =>
      var rest := s[i + |sep|..];
      var t := Split(rest, sep);
      JoinSplit(rest, sep);
      assert Split(s, sep) == [s[..i]] + t;
      assert ([s[..i]] + t)[1..] == t;
      assert Join([s[..i]] + t, sep) == s[..i] + sep + Join(t, sep);
      assert s[i..i + |sep|] == sep;
      assert s == s[..i] + s[i..i + |sep|] + rest;
  }

  /** Replace is Split on the pattern followed by Join with the replacement. */
  lemma {:induction false} ReplaceIsSplitJoin(s: string, pat: string, rep: string)
    requires |pat| > 0
    ensures Replace(s, pat, rep) == Join(Split(s, pat), rep)
    decreases |s|
  {
    match IndexOf(s, pat)
    case None =>
    case Some(i) =>
      ReplaceIsSplitJoin(s[i + |pat|..], pat, rep);
  }

  /** Joining pieces that are free of the separator and splitting again gives the pieces back. */
  lemma {:induction false} SplitJoin(parts: seq<string>, sep: string)
    requires |sep| > 0 && |parts| >= 1
    requires forall k | 0 <= k < |parts| :: FreeOf(parts[k], sep)
    ensures Split(Join(parts, sep), sep) == parts
    decreases |parts|
  {
    var p := parts[0];
    if |parts| == 1 {
      var r := IndexOf(p, sep);
      if r.Some? {
        var j := r.value;
        assert (p + sep)[j..j + |sep|] == p[j..j + |sep|];
        assert OccursAt(p + sep, sep, j);
        assert false;
      }
    } else {
      var tail := Join(parts[1..], sep);
      var s := p + sep + tail;
      assert Join(parts, sep) == s;
      assert OccursAt(s, sep, |p|) by {
        assert s[|p|..|p| + |sep|] == sep;
      }
      var r := IndexOf(s, sep);
      assert r.Some? && r.value <= |p|;
      if r.value < |p| {
        var j := r.value;
        assert s[j..j + |sep|] == (p + sep)[j..j + |sep|];
        assert OccursAt(p + sep, sep, j);
        assert false;
      }
      assert r.value == |p| && s[..|p|] == p;
      assert s[|p| + |sep|..] == tail;
      SplitJoin(parts[1..], sep);
      assert Split(s, sep) == [p] + Split(tail, sep);
      assert parts == [p] + parts[1..];
    }
  }

  /** Replacing never introduces a character that neither the input nor the replacement has. */
  lemma {:induction false} ReplaceKeepsCharOut(s: string, pat: string, rep: string, c: char)
    requires |pat| > 0 && c !in s && c !in rep
    ensures c !in Replace(s, pat, rep)
    decreases |s|
  {
    match IndexOf(s, pat)
    case None =>
    case Some(i) =>
      var rest := s[i + |pat|..];
      assert forall x | x in rest :: x in s;
      ReplaceKeepsCharOut(rest, pat, rep, c);
      assert forall x | x in s[..i] :: x in s;
  }

  /** Replacing inside a non-blank string with a non-blank replacement leaves it non-blank. */
  lemma ReplaceKeepsNonBlank(s: string, pat: string, rep: string)
    requires |pat| > 0 && !IsWhiteSpaceOnly(s) && !IsWhiteSpaceOnly(rep)
    ensures !IsWhiteSpaceOnly(Replace(s, pat, rep))
  {
    match IndexOf(s, pat)
    case None =>
    case Some(i) =>
      var r := Replace(s, pat, rep);
      var k :| 0 <= k < |rep| && !IsWhiteSpace(rep[k]);
      assert r[i + k] == rep[k];
  }

  // ---------------------------------------------------------------------------
  // Decimal rendering of integers (int.ToString with the invariant culture)

  function DigitChar(d: nat): char
    requires d <= 9
  {
    ('0' as int + d) as char
  }

  function DigitValue(c: char): int {
    c as int - '0' as int
  }

  function NatToDecimal(n: nat): string
    decreases n
  {
    if n < 10 then [DigitChar(n)] else NatToDecimal(n / 10) + [DigitChar(n % 10)]
  }

  /** int.ToString(): an optional minus sign followed by the decimal digits. */
  function IntToDecimal(n: int): string {
    if n < 0 then "-" + NatToDecimal(-n) else NatToDecimal(n)
  }

  function ParseNat(s: string): int {
    if s == [] then 0 else ParseNat(s[..|s| - 1]) * 10 + DigitValue(s[|s| - 1])
  }

  function ParseInt(s: string): int {
    if |s| > 0 && s[0] == '-' then -ParseNat(s[1..]) else ParseNat(s)
  }

  lemma {:induction false} NatToDecimalDigits(n: nat)
    ensures |NatToDecimal(n)| >= 1
    ensures forall i | 0 <= i < |NatToDecimal(n)| :: '0' <= NatToDecimal(n)[i] <= '9'
    ensures ParseNat(NatToDecimal(n)) == n
    decreases n
  {
    if n >= 10 {
      NatToDecimalDigits(n / 10);
      var s := NatToDecimal(n);
      assert s[..|s| - 1] == NatToDecimal(n / 10);
    }
  }

  /** The decimal text of an integer reads back as the same integer. */
  lemma IntToDecimalRoundTrip(n: int)
    ensures ParseInt(IntToDecimal(n)) == n
    ensures n >= 0 ==> forall i | 0 <= i < |IntToDecimal(n)| :: '0' <= IntToDecimal(n)[i] <= '9'
  {
    if n < 0 {
      NatToDecimalDigits(-n);
      assert ("-" + NatToDecimal(-n))[1..] == NatToDecimal(-n);
    } else {
      NatToDecimalDigits(n);
    }
  }
}
