/** The few JavaScript value operations the backend relies on: string
    truthiness, ASCII case mapping, `String.prototype.includes`, and
    `parseFloat` followed by arithmetic on numbers that may be `NaN`. */
module JsValues {
  import opened Wrappers

  /** A JavaScript number: `None` is `NaN`, `Some(x)` a finite value. */
  type JsNumber = Option<real>

  /** A string is truthy exactly when it is not empty. */
  predicate Truthy(s: string) { |s| > 0 }

  /** A number is truthy when it is neither `NaN` nor zero. */
  predicate TruthyNumber(x: JsNumber) { x.Some? && x.value != 0.0 }

  // ---------------------------------------------------------------------
  // Case mapping (ASCII letters only)

  predicate IsLower(c: char) { 'a' <= c <= 'z' }
  predicate IsUpper(c: char) { 'A' <= c <= 'Z' }

  function UpperChar(c: char): (d: char)
    ensures !IsLower(d)
    ensures IsLower(c) ==> IsUpper(d) && d as int == c as int - 32
    ensures !IsLower(c) ==> d == c
  {
    if IsLower(c) then (c as int - 32) as char else c
  }

  function LowerChar(c: char): (d: char)
    ensures !IsUpper(d)
    ensures IsUpper(c) ==> IsLower(d) && d as int == c as int + 32
    ensures !IsUpper(c) ==> d == c
  {
    if IsUpper(c) then (c as int + 32) as char else c
  }

  /** `s.toUpperCase()`: the same length, each lower-case letter replaced
      by its upper-case partner (32 code points below), no lower-case
      letter left, and every other character kept. */
  function ToUpper(s: string): (r: string)
    ensures |r| == |s|
    ensures forall i :: 0 <= i < |r| ==> !IsLower(r[i])
    ensures forall i :: 0 <= i < |s| && IsLower(s[i]) ==> IsUpper(r[i]) && r[i] as int == s[i] as int - 32
    ensures forall i :: 0 <= i < |s| && !IsLower(s[i]) ==> r[i] == s[i]
  {
    seq(|s|, i requires 0 <= i < |s| => UpperChar(s[i]))
  }

  /** `s.toLowerCase()`, the mirror image of `ToUpper`. */
  function ToLower(s: string): (r: string)
    ensures |r| == |s|
    ensures forall i :: 0 <= i < |r| ==> !IsUpper(r[i])
    ensures forall i :: 0 <= i < |s| && IsUpper(s[i]) ==> IsLower(r[i]) && r[i] as int == s[i] as int + 32
    ensures forall i :: 0 <= i < |s| && !IsUpper(s[i]) ==> r[i] == s[i]
  {
    seq(|s|, i requires 0 <= i < |s| => LowerChar(s[i]))
  }

  lemma ToUpperIdempotent(s: string)
    ensures ToUpper(ToUpper(s)) == ToUpper(s)
  {
  }

  lemma ToLowerIdempotent(s: string)
    ensures ToLower(ToLower(s)) == ToLower(s)
  {
  }

  /** Lower-casing forgets whatever upper-casing did first. */
  lemma LowerOfUpper(s: string)
    ensures ToLower(ToUpper(s)) == ToLower(s)
  {
    var a, b := ToLower(ToUpper(s)), ToLower(s);
    forall i | 0 <= i < |s| ensures a[i] == b[i] {
      assert ToUpper(s)[i] == UpperChar(s[i]);
    }
  }

  // ---------------------------------------------------------------------
  // Substring search

  /** `sub` occurs in `s` starting at position `i`. */
  predicate OccursAt(s: string, sub: string, i: int) {
    0 <= i <= |s| - |sub| && s[i..i + |sub|] == sub
  }

  /** Whether `sub` occurs in `s` at position `i` or later. */
  function IncludesFrom(s: string, sub: string, i: nat): (r: bool)
    ensures r <==> exists j :: i <= j && OccursAt(s, sub, j)
    decreases |s| - i
  {
    if i + |sub| > |s| then false
    else OccursAt(s, sub, i) || IncludesFrom(s, sub, i + 1)
  }

  /** `s.includes(sub)`: `sub` occurs at some position of `s`. */
  function Includes(s: string, sub: string): (r: bool)
    ensures r <==> exists i :: OccursAt(s, sub, i)
  {
    IncludesFrom(s, sub, 0)
  }

  /** An occurrence of a word without upper-case letters survives
      lower-casing. */
  lemma LowerKeepsLowerCaseOccurrence(s: string, sub: string)
    requires forall k :: 0 <= k < |sub| ==> !IsUpper(sub[k])
    requires Includes(s, sub)
    ensures Includes(ToLower(s), sub)
  {
    var j :| OccursAt(s, sub, j);
    forall k | 0 <= k < |sub|
      ensures ToLower(s)[j + k] == sub[k]
    {
      assert s[j + k] == s[j..j + |sub|][k];
    }
    assert ToLower(s)[j..j + |sub|] == sub;
    assert OccursAt(ToLower(s), sub, j);
  }

  // ---------------------------------------------------------------------
  // parseFloat

  predicate IsDigit(c: char) { '0' <= c <= '9' }

  predicate AllDigits(s: string) { forall i :: 0 <= i < |s| ==> IsDigit(s[i]) }

  /** The length of the longest prefix of `s` made of decimal digits. */
  function DigitRun(s: string): (n: nat)
    ensures n <= |s|
    ensures AllDigits(s[..n])
    ensures n < |s| ==> !IsDigit(s[n])
  {
    if |s| > 0 && IsDigit(s[0]) then
      var m := DigitRun(s[1..]);
      assert s[..m + 1] == [s[0]] + s[1..][..m];
      m + 1
    else
      0
  }

  /** The value of a string of decimal digits. */
  function DigitsValue(s: string): nat
    requires AllDigits(s)
  {
    if s == [] then 0
    else DigitsValue(s[..|s| - 1]) * 10 + (s[|s| - 1] as int - '0' as int)
  }

  function Pow10(n: nat): (p: nat)
    ensures p >= 1
  {
    if n == 0 then 1 else 10 * Pow10(n - 1)
  }

  /** `parseFloat(s)` for text of the form `digits[.digits]` followed by
      anything: it reads the longest such prefix and gives `NaN` when no
      digit is there. */
  function ParseFloat(s: string): (r: JsNumber)
    ensures r.Some? ==> r.value >= 0.0
    ensures |s| > 0 && IsDigit(s[0]) ==> r.Some?
    ensures |s| == 0 || (!IsDigit(s[0]) && s[0] != '.') ==> r.None?
  {
    var n := DigitRun(s);
    var whole := DigitsValue(s[..n]) as real;
    if n < |s| && s[n] == '.' then
      var m := DigitRun(s[n + 1..]);
      if n == 0 && m == 0 then None
      else Some(whole + DigitsValue(s[n + 1..][..m]) as real / Pow10(m) as real)
    else if n == 0 then None
    else Some(whole)
  }

  /** The decimal text of a natural number, as `String(n)` writes it. */
  function NatToString(n: nat): (s: string)
    ensures |s| > 0 && AllDigits(s)
  {
    if n < 10 then [('0' as int + n) as char]
    else NatToString(n / 10) + [('0' as int + n % 10) as char]
  }

  lemma {:induction false} DigitsValueOfNatToString(n: nat)
    ensures DigitsValue(NatToString(n)) == n
  {
    var s := NatToString(n);
    if n >= 10 {
      DigitsValueOfNatToString(n / 10);
      assert s[..|s| - 1] == NatToString(n / 10);
    }
  }

  /** Reading back the decimal text of a natural number gives the number. */
  lemma ParseFloatOfNat(n: nat)
    ensures ParseFloat(NatToString(n)) == Some(n as real)
  {
    var s := NatToString(n);
    assert DigitRun(s) == |s| by { DigitRunOfDigits(s); }
    assert s[..|s|] == s;
    DigitsValueOfNatToString(n);
  }

  lemma {:induction false} DigitRunOfDigits(s: string)
    requires AllDigits(s)
    ensures DigitRun(s) == |s|
  {
    if |s| > 0 {
      DigitRunOfDigits(s[1..]);
    }
  }

  /** A non-empty run of digits parses to its decimal value; text that
      starts with neither a digit nor a dot is `NaN`. */
  lemma ParseFloatDigits(s: string)
    ensures |s| > 0 && AllDigits(s) ==> ParseFloat(s) == Some(DigitsValue(s) as real)
    ensures (|s| == 0 || (!IsDigit(s[0]) && s[0] != '.')) ==> ParseFloat(s) == None
  {
    if |s| > 0 && AllDigits(s) {
      DigitRunOfDigits(s);
      assert s[..|s|] == s;
    }
  }

  // ---------------------------------------------------------------------
  // Arithmetic on JavaScript numbers: NaN absorbs

  function Add(a: JsNumber, b: JsNumber): (r: JsNumber)
    ensures r.Some? <==> a.Some? && b.Some?
  {
    if a.Some? && b.Some? then Some(a.value + b.value) else None
  }

  function Sub(a: JsNumber, b: JsNumber): (r: JsNumber)
    ensures r.Some? <==> a.Some? && b.Some?
  {
    if a.Some? && b.Some? then Some(a.value - b.value) else None
  }

  function Scale(a: JsNumber, k: real): (r: JsNumber)
    ensures r.Some? <==> a.Some?
  {
    if a.Some? then Some(a.value * k) else None
  }

  /** `x / 1000000`, the rescaling from micro-units the source applies. */
  function FromMicro(x: JsNumber): (r: JsNumber)
    ensures r.Some? <==> x.Some?
    ensures r.Some? ==> r.value * 1000000.0 == x.value
  {
    if x.Some? then Some(x.value / 1000000.0) else None
  }
}
