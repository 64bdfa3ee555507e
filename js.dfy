/** JavaScript values, truthiness, flat objects and the string helpers the client relies on. */
module Js {

  /** A scalar JavaScript value, as it appears in the flat records the client builds and sends.
      A missing property (`undefined`) is a missing key of an `Obj`. */
  datatype Value = Null | Bool(b: bool) | Num(n: int) | Str(s: string)

  /** JavaScript truthiness: `null`, `false`, `0` and `''` are falsy. */
  predicate Truthy(v: Value) {
    match v
    case Null => false
    case Bool(b) => b
    case Num(n) => n != 0
    case Str(s) => s != ""
  }

  /** A flat JavaScript object. */
  type Obj = map<string, Value>

  /** `{ ...a, ...b }`: every key of either, the right operand winning. */
  function Spread(a: Obj, b: Obj): (r: Obj)
    ensures r.Keys == a.Keys + b.Keys
    ensures forall k :: k in b ==> r[k] == b[k]
    ensures forall k :: k in a && k !in b ==> r[k] == a[k]
  {
    a + b
  }

  /** Truthiness of an optional string such as `localStorage.getItem(key)`. */
  predicate TruthyText(t: Option<string>) {
    t.Some? && t.value != ""
  }

  datatype Option<T> = None | Some(value: T)

  // ---------------------------------------------------------------- characters and case

  function DigitChar(d: nat): (c: char)
    requires d < 10
    ensures '0' <= c <= '9' && c as int - '0' as int == d
  {
    ('0' as int + d) as char
  }

  predicate IsDigit(c: char) { '0' <= c <= '9' }

  function DigitValue(c: char): (d: nat)
    requires IsDigit(c)
    ensures d < 10 && DigitChar(d) == c
  {
    c as int - '0' as int
  }

  /** ASCII `toLowerCase` of one character. */
  function LowerChar(c: char): char {
    if 'A' <= c <= 'Z' then (c as int + 32) as char else c
  }

  /** `s.toLowerCase()`, restricted to ASCII case mapping. */
  function ToLower(s: string): (r: string)
    ensures |r| == |s|
    ensures forall i :: 0 <= i < |s| ==> r[i] == LowerChar(s[i])
  {
    seq(|s|, i requires 0 <= i < |s| => LowerChar(s[i]))
  }

  // ---------------------------------------------------------------- substring search

  /** `t` occurs in `s` starting at index `i`. */
  predicate OccursAt(s: string, t: string, i: int) {
    0 <= i <= |s| - |t| && s[i..i + |t|] == t
  }

  /** `s.includes(t)`: some window of `s` equals `t` (scanned from the left). */
  function Includes(s: string, t: string): bool
    decreases |s|
  {
    if |t| <= |s| && s[..|t|] == t then true
    else if s == [] then false
    else Includes(s[1..], t)
  }

  lemma {:induction false} IncludesAt(s: string, t: string, i: nat)
    requires OccursAt(s, t, i)
    ensures Includes(s, t)
    decreases i
  {
    if i > 0 && !(|t| <= |s| && s[..|t|] == t) {
      assert s[1..][i - 1..i - 1 + |t|] == s[i..i + |t|];
      IncludesAt(s[1..], t, i - 1);
    }
  }

  lemma {:induction false} IncludesWitness(s: string, t: string) returns (i: nat)
    requires Includes(s, t)
    ensures OccursAt(s, t, i)
    decreases |s|
  {
    if |t| <= |s| && s[..|t|] == t {
      i := 0;
    } else {
      var j := IncludesWitness(s[1..], t);
      assert s[1..][j..j + |t|] == s[j + 1..j + 1 + |t|];
      i := j + 1;
    }
  }

  /** `t` occurs somewhere in `s`. */
  predicate Occurs(s: string, t: string) {
    exists i :: 0 <= i <= |s| && OccursAt(s, t, i)
  }

  /** `includes` holds exactly when some window of the text equals the pattern. */
  lemma IncludesIff(s: string, t: string)
    ensures Includes(s, t) <==> Occurs(s, t)
  {
    if Includes(s, t) {
      var i := IncludesWitness(s, t);
    }
    if exists i :: OccursAt(s, t, i) {
      var i :| OccursAt(s, t, i);
      IncludesAt(s, t, i);
    }
  }

  lemma IncludesEmpty(s: string)
    ensures Includes(s, "")
  {
    assert s[..0] == "";
  }

  lemma IncludesSelf(s: string)
    ensures Includes(s, s)
  {
    assert s[..|s|] == s;
  }

  // ---------------------------------------------------------------- numerals

  /** Decimal text of a natural number, as `String(n)` writes it. */
  function NatToString(n: nat): (r: string)
    ensures |r| >= 1 && forall i :: 0 <= i < |r| ==> IsDigit(r[i])
    ensures (r[0] == '0') == (n == 0)
    decreases n
  {
    if n < 10 then [DigitChar(n)] else NatToString(n / 10) + [DigitChar(n % 10)]
  }

  /** `String(n)` for an integer. */
  function IntToString(n: int): string {
    if n < 0 then "-" + NatToString(-n) else NatToString(n)
  }

  /** Value of a non-empty string of decimal digits. */
  function DigitsValue(s: string): nat
    requires forall i :: 0 <= i < |s| ==> IsDigit(s[i])
    decreases |s|
  {
    if s == [] then 0 else DigitsValue(s[..|s| - 1]) * 10 + DigitValue(s[|s| - 1])
  }

  /** Length of the longest prefix of `s` made of decimal digits. */
  function DigitPrefix(s: string): (k: nat)
    ensures k <= |s| && (forall i :: 0 <= i < k ==> IsDigit(s[i])) && (k < |s| ==> !IsDigit(s[k]))
    decreases |s|
  {
    if s == [] || !IsDigit(s[0]) then 0 else 1 + DigitPrefix(s[1..])
  }

  /** `parseInt(s)` on decimal text: an optional sign and the longest run of digits after it;
      `None` is NaN. Without a radix argument `parseInt` also skips leading white space and
      reads a `0x` prefix as hexadecimal; neither is modelled, since the texts parsed here are
      `String(n)` of an id or a weekday, or the empty text. */
  function ParseInt(s: string): (r: Option<int>)
    ensures r.Some? <==> (|s| > 0 && IsDigit(s[0])) || (|s| > 1 && (s[0] == '-' || s[0] == '+') && IsDigit(s[1]))
  {
    if |s| > 0 && (s[0] == '-' || s[0] == '+') then
      var rest := s[1..];
      var k := DigitPrefix(rest);
      if k == 0 then None
      else if s[0] == '-' then var v: int := DigitsValue(rest[..k]); Some(-v)
      else Some(DigitsValue(rest[..k]))
    else
      var k := DigitPrefix(s);
      if k == 0 then None else Some(DigitsValue(s[..k]))
  }

  lemma {:induction false} DigitsOfNatToString(n: nat)
    ensures DigitsValue(NatToString(n)) == n
    decreases n
  {
    var r := NatToString(n);
    if n >= 10 {
      DigitsOfNatToString(n / 10);
      assert r[..|r| - 1] == NatToString(n / 10);
    }
  }

  lemma DigitPrefixAll(s: string)
    requires forall i :: 0 <= i < |s| ==> IsDigit(s[i])
    ensures DigitPrefix(s) == |s|
  {
  }

  /** `parseInt(String(n))` gives `n` back. */
  lemma ParseIntToString(n: int)
    ensures ParseInt(IntToString(n)) == Some(n)
  {
    var t := NatToString(if n < 0 then -n else n);
    DigitPrefixAll(t);
    DigitsOfNatToString(if n < 0 then -n else n);
    assert t[..|t|] == t;
    if n < 0 {
      assert IntToString(n)[1..] == t;
    }
  }

  /** `String(v)` as a template literal `${v}` writes it. */
  function Text(v: Value): string {
    match v
    case Null => "null"
    case Bool(b) => if b then "true" else "false"
    case Num(n) => IntToString(n)
    case Str(s) => s
  }
}
