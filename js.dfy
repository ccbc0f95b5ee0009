/** JavaScript values and the handful of String.prototype operations the server and the
    client rely on (trim, includes, split), stated over `string` (= seq<char>). */
module Js {

  datatype Option<+T> = None | Some(value: T) {
    function GetOr(default: T): T {
      match this
      case Some(v) => v
      case None => default
    }
  }

  /** A value as JavaScript sees it in a request body or after JSON.parse.
      Numbers are integers here; `Structured` is an array or an object, and `bound`
      is the text the database driver binds such a value as, whatever the column. */
  datatype Value =
    | Undefined
    | Null
    | Bool(b: bool)
    | Num(n: int)
    | Str(s: string)
    | Structured(bound: string)

  /** JavaScript truthiness: undefined, null, false, 0 and "" are falsy. */
  predicate Truthy(v: Value) {
    match v
    case Undefined => false
    case Null => false
    case Bool(b) => b
    case Num(n) => n != 0
    case Str(s) => s != ""
    case Structured(_) => true
  }

  /** The expression `a || b`. */
  function Or(a: Value, b: Value): Value {
    if Truthy(a) then a else b
  }

  /** The characters String.prototype.trim removes: white space and line terminators. */
  predicate IsSpace(c: char) {
    || c == ' ' || c == '\t' || c == '\n' || c == '\r'
    || c == '\U{000B}' || c == '\U{000C}' || c == '\U{00A0}' || c == '\U{1680}'
    || ('\U{2000}' <= c <= '\U{200A}')
    || c == '\U{2028}' || c == '\U{2029}' || c == '\U{202F}' || c == '\U{205F}'
    || c == '\U{3000}' || c == '\U{FEFF}'
  }

  predicate Blank(s: string) {
    forall i :: 0 <= i < |s| ==> IsSpace(s[i])
  }

  function TrimStart(s: string): (r: string)
    ensures |r| <= |s| && r == s[|s| - |r|..]
    ensures r == [] || !IsSpace(r[0])
  {
    if s != [] && IsSpace(s[0]) then TrimStart(s[1..]) else s
  }

  /** What TrimStart drops is white space. */
  lemma {:induction false} TrimStartDropsBlank(s: string)
    ensures Blank(s[..|s| - |TrimStart(s)|])
  {
    if s != [] && IsSpace(s[0]) {
      var r := TrimStart(s[1..]);
      TrimStartDropsBlank(s[1..]);
      assert s[..|s| - |r|] == [s[0]] + s[1..][..|s| - 1 - |r|];
    }
  }

  function TrimEnd(s: string): (r: string)
    ensures |r| <= |s| && r == s[..|r|]
    ensures r == [] || !IsSpace(r[|r| - 1])
  {
    if s != [] && IsSpace(s[|s| - 1]) then TrimEnd(s[..|s| - 1]) else s
  }

  /** What TrimEnd drops is white space. */
  lemma {:induction false} TrimEndDropsBlank(s: string)
    ensures Blank(s[|TrimEnd(s)|..])
  {
    if s != [] && IsSpace(s[|s| - 1]) {
      var r := TrimEnd(s[..|s| - 1]);
      TrimEndDropsBlank(s[..|s| - 1]);
      assert s[|r|..] == s[..|s| - 1][|r|..] + [s[|s| - 1]];
    }
  }

  /** String.prototype.trim. */
  function Trim(s: string): (r: string)
    ensures |r| <= |s|
    ensures r == [] || (!IsSpace(r[0]) && !IsSpace(r[|r| - 1]))
  {
    TrimEnd(TrimStart(s))
  }

  /** The trim of `s` is a slice of `s`. */
  lemma {:induction false} TrimIsSlice(s: string)
    ensures var a := |s| - |TrimStart(s)|;
      a + |Trim(s)| <= |s| && Trim(s) == s[a..a + |Trim(s)|]
  {
    var ts := TrimStart(s);
    var t := TrimEnd(ts);
    var a := |s| - |ts|;
    PrefixOfSuffix(s, a, |t|);
  }

  lemma PrefixOfSuffix(s: string, a: nat, k: nat)
    requires a + k <= |s|
    ensures s[a..][..k] == s[a..a + k]
  {
  }

  /** Trimming an already trimmed string changes nothing. */
  lemma TrimIdempotent(s: string)
    ensures Trim(Trim(s)) == Trim(s)
  {
    var t := Trim(s);
    assert TrimStart(t) == t;
    assert TrimEnd(t) == t;
  }

  /** A string that neither starts nor ends with white space is its own trim. */
  lemma TrimOfTrimmed(s: string)
    requires s == [] || (!IsSpace(s[0]) && !IsSpace(s[|s| - 1]))
    ensures Trim(s) == s
  {
  }

  /** `!s.trim()` holds exactly for strings made only of white space. */
  lemma {:induction false} TrimEmptyIffBlank(s: string)
    ensures Trim(s) == [] <==> Blank(s)
  {
    var t := TrimStart(s);
    TrimStartDropsBlank(s);
    TrimEndDropsBlank(t);
    if t == [] {
      assert s[..|s| - |t|] == s;
    } else {
      assert !IsSpace(s[|s| - |t|]);
      assert TrimEnd(t) != [];
    }
  }

  /** `pat` occurs in `s` starting at index `i`. */
  predicate OccursAt(s: string, pat: string, i: nat) {
    i + |pat| <= |s| && s[i..i + |pat|] == pat
  }

  lemma OccursChar(s: string, pat: string, i: nat, q: nat)
    requires OccursAt(s, pat, i) && q < |pat|
    ensures s[i + q] == pat[q]
  {
    assert s[i..i + |pat|][q] == s[i + q];
  }

  /** An occurrence inside a prefix of `s` is an occurrence in `s` that ends before the cut. */
  lemma OccursInPrefix(s: string, pat: string, n: nat, k: nat)
    requires n <= |s|
    ensures OccursAt(s[..n], pat, k) <==> k + |pat| <= n && OccursAt(s, pat, k)
  {
    if k + |pat| <= n {
      assert s[..n][k..k + |pat|] == s[k..k + |pat|];
    }
  }

  /** Occurrences in a suffix of `s` are occurrences in `s`, shifted. */
  lemma OccursShift(s: string, pat: string, d: nat, k: nat)
    requires d <= |s|
    ensures OccursAt(s[d..], pat, k) <==> OccursAt(s, pat, d + k)
  {
    if d + k + |pat| <= |s| {
      assert s[d..][k..k + |pat|] == s[d + k..d + k + |pat|];
    }
  }

  /** `s.includes(pat)`. */
  predicate Contains(s: string, pat: string) {
    exists i: nat :: i + |pat| <= |s| && OccursAt(s, pat, i)
  }

  function IndexFrom(s: string, pat: string, from: nat): (r: Option<nat>)
    requires from <= |s|
    ensures r.Some? ==> from <= r.value && OccursAt(s, pat, r.value)
    ensures r.Some? ==> forall j: nat :: from <= j < r.value ==> !OccursAt(s, pat, j)
    ensures r.None? ==> forall j: nat :: from <= j ==> !OccursAt(s, pat, j)
    decreases |s| - from
  {
    if from + |pat| > |s| then None
    else if s[from..from + |pat|] == pat then Some(from)
    else if from == |s| then None
    else IndexFrom(s, pat, from + 1)
  }

  /** `s.indexOf(pat)`, with None for -1: the first occurrence. */
  function IndexOf(s: string, pat: string): (r: Option<nat>)
    ensures r.Some? ==> OccursAt(s, pat, r.value)
    ensures r.Some? ==> forall j: nat :: j < r.value ==> !OccursAt(s, pat, j)
    ensures r.Some? <==> Contains(s, pat)
  {
    IndexFrom(s, pat, 0)
  }

  /** `s.split(sep)[0]`: the text before the first occurrence of `sep`, or all of `s`. */
  function SplitFirst(s: string, sep: string): (r: string)
    ensures |r| <= |s| && r == s[..|r|]
    ensures |r| < |s| ==> OccursAt(s, sep, |r|)
    ensures forall j: nat :: j < |r| ==> !OccursAt(s, sep, j)
  {
    match IndexOf(s, sep)
    case None => s
    case Some(i) => s[..i]
  }

  /** Splitting a suffix of `s` that starts at `d` stops at the first `sep` in `s` at or
      after `d`, or at the end of `s`. */
  lemma SplitFirstOfSuffix(s: string, sep: string, d: nat)
    requires d <= |s|
    ensures var b := SplitFirst(s[d..], sep);
      && d + |b| <= |s| && b == s[d..d + |b|]
      && (d + |b| == |s| || OccursAt(s, sep, d + |b|))
      && forall k: nat :: d <= k < d + |b| ==> !OccursAt(s, sep, k)
  {
    var b := SplitFirst(s[d..], sep);
    if |b| < |s| - d {
      OccursShift(s, sep, d, |b|);
    }
    forall k: nat | d <= k < d + |b| ensures !OccursAt(s, sep, k) {
      OccursShift(s, sep, d, k - d);
    }
  }

  /** `i` is the first `open` in `s`, and `j` ends the text after it: the next `close`, or
      the end of `s`. */
  ghost predicate Delimited(s: string, open: string, close: string, i: nat, j: nat) {
    && OccursAt(s, open, i) && (forall k: nat :: k < i ==> !OccursAt(s, open, k))
    && i + |open| <= j <= |s| && (j == |s| || OccursAt(s, close, j))
    && (forall k: nat :: i + |open| <= k < j ==> !OccursAt(s, close, k))
  }

  /** Splitting at `close` what follows the first `open` gives the delimited text. */
  lemma DelimitedAfter(s: string, open: string, close: string, i: nat) returns (j: nat)
    requires OccursAt(s, open, i) && forall k: nat :: k < i ==> !OccursAt(s, open, k)
    ensures i + |open| <= j <= |s| && Delimited(s, open, close, i, j)
    ensures SplitFirst(s[i + |open|..], close) == s[i + |open|..j]
  {
    var d := i + |open|;
    var b := SplitFirst(s[d..], close);
    SplitFirstOfSuffix(s, close, d);
    j := d + |b|;
    DelimitedIntro(s, open, close, i, j);
  }

  lemma DelimitedIntro(s: string, open: string, close: string, i: nat, j: nat)
    requires OccursAt(s, open, i) && (forall k: nat :: k < i ==> !OccursAt(s, open, k))
    requires i + |open| <= j <= |s| && (j == |s| || OccursAt(s, close, j))
    requires forall k: nat :: i + |open| <= k < j ==> !OccursAt(s, close, k)
    ensures Delimited(s, open, close, i, j)
  {
  }

  /** The text after the first occurrence of `sep`, so that `s.split(sep)[1]` is
      `SplitFirst(After(s, sep), sep)`. */
  function After(s: string, sep: string): (r: string)
    requires Contains(s, sep)
    ensures exists i: nat :: && OccursAt(s, sep, i) && r == s[i + |sep|..]
                             && forall j: nat :: j < i ==> !OccursAt(s, sep, j)
  {
    var i := IndexOf(s, sep).value;
    s[i + |sep|..]
  }

  /** The decimal text of a natural number. */
  function NatText(n: nat): (r: string)
    ensures |r| > 0
    ensures forall i :: 0 <= i < |r| ==> '0' <= r[i] <= '9'
  {
    var d := ['0' + (n % 10) as char];
    if n < 10 then d else NatText(n / 10) + d
  }

  /** The decimal text of an integer, as String(n) gives it. */
  function IntText(n: int): string {
    if n < 0 then "-" + NatText(-n) else NatText(n)
  }

  predicate IsDigit(c: char) { '0' <= c <= '9' }

  predicate AllDigits(s: string) {
    forall i :: 0 <= i < |s| ==> IsDigit(s[i])
  }

  function DigitsValue(s: string): (n: nat)
    requires AllDigits(s)
  {
    if s == [] then 0 else DigitsValue(s[..|s| - 1]) * 10 + (s[|s| - 1] - '0') as nat
  }

  /** The integer a well-formed decimal text denotes (an optional '-' and at least one
      digit), or None for any other text. */
  function ParseDecimal(s: string): (r: Option<int>)
    ensures r.Some? <==> (s != [] && s[0] == '-' && |s| > 1 && AllDigits(s[1..])) || (s != [] && AllDigits(s))
  {
    if s != [] && s[0] == '-' && |s| > 1 && AllDigits(s[1..]) then Some(-(DigitsValue(s[1..]) as int))
    else if s != [] && AllDigits(s) then Some(DigitsValue(s))
    else None
  }

  lemma {:induction false} NatTextValue(n: nat)
    ensures AllDigits(NatText(n)) && DigitsValue(NatText(n)) == n
  {
    var t := NatText(n);
    if n >= 10 {
      NatTextValue(n / 10);
      assert t[..|t| - 1] == NatText(n / 10);
    }
  }

  lemma ParseDigits(digits: string)
    requires digits != [] && AllDigits(digits)
    ensures ParseDecimal(digits) == Some(DigitsValue(digits))
  {
    assert IsDigit(digits[0]);
  }

  lemma ParseNegative(digits: string)
    requires digits != [] && AllDigits(digits)
    ensures ParseDecimal("-" + digits) == Some(-(DigitsValue(digits) as int))
  {
    assert ("-" + digits)[1..] == digits;
  }

  /** Reading back the decimal text of an integer gives the integer. */
  lemma {:induction false} DecimalRoundTrip(n: int)
    ensures ParseDecimal(IntText(n)) == Some(n)
  {
    if n < 0 {
      NatTextValue(-n);
      ParseNegative(NatText(-n));
    } else {
      NatTextValue(n);
      ParseDigits(NatText(n));
    }
  }
}

/** The shape of the HTTP replies the route handlers send. */
module Http {
  datatype Reply<+T> =
    | Ok(status: int, body: T)
    | Fail(status: int, error: string)
}
