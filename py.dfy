/** The slice of Python's value model that the export pipeline relies on:
    JSON-like values as decoded from the search index, Python truthiness and
    equality on them, the exceptions the pipeline can raise, and the decimal
    text formatting and parsing done by f-strings, `str` and `int`. */
module Py {

  /** A JSON-like value as produced by `Hit.to_dict()`. Numbers are integers. */
  datatype Json =
    | JNull
    | JBool(b: bool)
    | JInt(i: int)
    | JStr(s: string)
    | JArr(items: seq<Json>)
    | JObj(fields: map<string, Json>)

  /** Python exceptions the modelled code can raise. `UnorderedIteration` stands
      for iterating a non-empty dict where the code expects a list: Python then
      walks the keys in insertion order, which a map does not keep. */
  datatype PyError =
    | KeyError(key: string)
    | AttributeError(name: string)
    | TypeError
    | IndexError
    | ValueError
    | UnorderedIteration
    | ReprNotModelled

  datatype Result<+T> = Ok(value: T) | Err(error: PyError) {
    predicate IsFailure() { Err? }
    function PropagateFailure<U>(): Result<U> requires Err? { Err(error) }
    function Extract(): T requires Ok? { value }
  }

  datatype Option<+T> = None | Some(value: T)

  /** `bool(v)` in Python. */
  predicate Truthy(v: Json) {
    match v
    case JNull => false
    case JBool(b) => b
    case JInt(i) => i != 0
    case JStr(s) => s != []
    case JArr(xs) => xs != []
    case JObj(m) => m != map[]
  }

  /** `dict.get(k, None)`. */
  function Get(m: map<string, Json>, k: string): (v: Json)
    ensures k !in m ==> v == JNull
    ensures k in m ==> v == m[k]
  {
    if k in m then m[k] else JNull
  }

  /** Python `==` on these values: `True == 1` and `False == 0`; containers compare
      element by element. */
  predicate PyEq(a: Json, b: Json)
    decreases a
  {
    match a
    case JBool(x) => (b.JBool? && b.b == x) || (b.JInt? && b.i == (if x then 1 else 0))
    case JInt(n) => (b.JInt? && b.i == n) || (b.JBool? && n == (if b.b then 1 else 0))
    case JArr(xs) =>
      b.JArr? && |xs| == |b.items| && forall i :: 0 <= i < |xs| ==> PyEq(xs[i], b.items[i])
    case JObj(m) =>
      b.JObj? && m.Keys == b.fields.Keys && forall k :: k in m ==> PyEq(m[k], b.fields[k])
    case _ => a == b
  }

  /** `x in [a, b]` for a two-element list. */
  predicate InPair(x: Json, a: Json, b: Json) {
    PyEq(x, a) || PyEq(x, b)
  }

  /** `needle in haystack` on two strings. */
  predicate Substring(needle: string, haystack: string)
    decreases |haystack|
  {
    needle <= haystack || (haystack != [] && Substring(needle, haystack[1..]))
  }

  lemma AppendAssoc<T>(a: seq<T>, b: seq<T>, c: seq<T>)
    ensures a + (b + c) == (a + b) + c
  {
  }

  // ---------------------------------------------------------------------------
  // Decimal text

  predicate IsDigit(c: char) { '0' <= c <= '9' }

  predicate AllDigits(s: string) { forall i :: 0 <= i < |s| ==> IsDigit(s[i]) }

  function DigitChar(d: nat): (c: char)
    requires d < 10
    ensures IsDigit(c) && c as int - '0' as int == d
  {
    ('0' as int + d) as char
  }

  /** `str(n)` for a natural number: its decimal digits, without leading zeros. */
  function NatToString(n: nat): (s: string)
    ensures |s| >= 1 && AllDigits(s)
    ensures |s| > 1 ==> s[0] != '0'
    decreases n
  {
    if n < 10 then [DigitChar(n)] else NatToString(n / 10) + [DigitChar(n % 10)]
  }

  /** `str(n)` and `f"{n}"` for any integer. */
  function IntToString(n: int): (s: string)
    ensures |s| >= 1
    ensures n >= 0 <==> IsDigit(s[0])
    ensures n < 0 ==> s[0] == '-'
  {
    if n >= 0 then NatToString(n) else "-" + NatToString(-n)
  }

  /** The value of a string of decimal digits (leading zeros allowed). */
  function DigitsValue(s: string): nat
    requires AllDigits(s)
    decreases |s|
  {
    if s == [] then 0
    else DigitsValue(s[..|s| - 1]) * 10 + (s[|s| - 1] as int - '0' as int)
  }

  function Zeros(n: nat): (z: string)
    ensures |z| == n && AllDigits(z)
    ensures forall i :: 0 <= i < n ==> z[i] == '0'
  {
    if n == 0 then [] else Zeros(n - 1) + "0"
  }

  /** `f"{n:0Wd}"`: zero-padded to width `w`, the sign (if any) counting towards
      the width and the zeros going after it. */
  function PadInt(n: int, w: nat): (s: string)
    ensures |s| >= w
  {
    if n >= 0 then
      var d := NatToString(n);
      (if |d| < w then Zeros(w - |d|) else []) + d
    else
      var d := NatToString(-n);
      "-" + (if |d| + 1 < w then Zeros(w - 1 - |d|) else []) + d
  }

  /** `int(s)` on the strings the model feeds it: an optional sign followed by at
      least one ASCII digit. Anything else is a `ValueError`. */
  function ParseInt(s: string): (r: Result<int>)
    ensures r.Ok? && s != [] && IsDigit(s[0]) ==> r.value >= 0
  {
    if s != [] && (s[0] == '-' || s[0] == '+') then
      var t := s[1..];
      if t != [] && AllDigits(t) then Ok(if s[0] == '-' then 0 - DigitsValue(t) as int else DigitsValue(t))
      else Err(ValueError)
    else if s != [] && AllDigits(s) then Ok(DigitsValue(s))
    else Err(ValueError)
  }

  lemma {:induction false} DigitsValueAppend(s: string, c: char)
    requires AllDigits(s) && IsDigit(c)
    ensures AllDigits(s + [c])
    ensures DigitsValue(s + [c]) == DigitsValue(s) * 10 + (c as int - '0' as int)
  {
    assert (s + [c])[..|s + [c]| - 1] == s;
  }

  /** Reading back what `NatToString` writes gives the number. */
  lemma {:induction false} NatToStringRoundTrip(n: nat)
    ensures DigitsValue(NatToString(n)) == n
    decreases n
  {
    if n < 10 {
      assert NatToString(n)[..0] == [];
    } else {
      NatToStringRoundTrip(n / 10);
      DigitsValueAppend(NatToString(n / 10), DigitChar(n % 10));
    }
  }

  /** Leading zeros do not change the value read. */
  lemma {:induction false} LeadingZerosValue(k: nat, s: string)
    requires AllDigits(s)
    ensures AllDigits(Zeros(k) + s) && DigitsValue(Zeros(k) + s) == DigitsValue(s)
    decreases |s|
  {
    if s == [] {
      assert Zeros(k) + s == Zeros(k);
      ZerosValue(k);
    } else {
      var init := s[..|s| - 1];
      var last := s[|s| - 1];
      assert s == init + [last];
      LeadingZerosValue(k, init);
      assert Zeros(k) + s == (Zeros(k) + init) + [last];
      DigitsValueAppend(Zeros(k) + init, last);
      DigitsValueAppend(init, last);
    }
  }

  lemma {:induction false} ZerosValue(k: nat)
    ensures DigitsValue(Zeros(k)) == 0
  {
    if k > 0 {
      ZerosValue(k - 1);
      DigitsValueAppend(Zeros(k - 1), '0');
    }
  }

  /** `int(f"{n:0Wd}") == n` for every integer `n` and width `w`. */
  lemma PadIntRoundTrip(n: int, w: nat)
    ensures ParseInt(PadInt(n, w)) == Ok(n)
  {
    if n >= 0 {
      PadNonNegativeRoundTrip(n, w);
    } else {
      PadNegativeRoundTrip(n, w);
    }
  }

  lemma PadNonNegativeRoundTrip(n: nat, w: nat)
    ensures ParseInt(PadInt(n, w)) == Ok(n)
  {
    var d := NatToString(n);
    var z := if |d| < w then Zeros(w - |d|) else [];
    assert PadInt(n, w) == z + d;
    ReadPadded(z, d);
    NatToStringRoundTrip(n);
  }

  lemma PadNegativeRoundTrip(n: int, w: nat)
    requires n < 0
    ensures ParseInt(PadInt(n, w)) == Ok(n)
  {
    var d := NatToString(-n);
    var z := if |d| + 1 < w then Zeros(w - 1 - |d|) else [];
    assert PadInt(n, w) == "-" + (z + d);
    PaddedDigits(z, d);
    ReadNegative(z + d);
    NatToStringRoundTrip(-n);
    assert DigitsValue(z + d) == -n;
  }

  lemma ReadPadded(z: string, d: string)
    requires AllDigits(d) && |d| >= 1
    requires forall i :: 0 <= i < |z| ==> z[i] == '0'
    ensures ParseInt(z + d) == Ok(DigitsValue(d) as int)
  {
    PaddedDigits(z, d);
  }

  lemma ReadNegative(t: string)
    requires AllDigits(t) && |t| >= 1
    ensures ParseInt("-" + t) == Ok(0 - DigitsValue(t) as int)
  {
    assert ("-" + t)[1..] == t;
  }

  lemma PaddedDigits(z: string, d: string)
    requires AllDigits(d) && |d| >= 1
    requires forall i :: 0 <= i < |z| ==> z[i] == '0'
    ensures AllDigits(z + d) && IsDigit((z + d)[0]) && DigitsValue(z + d) == DigitsValue(d)
  {
    assert z == Zeros(|z|);
    LeadingZerosValue(|z|, d);
  }

  /** `int(str(n)) == n`. */
  lemma IntToStringRoundTrip(n: int)
    ensures ParseInt(IntToString(n)) == Ok(n)
  {
    assert IntToString(n) == PadInt(n, 0);
    PadIntRoundTrip(n, 0);
  }
}
