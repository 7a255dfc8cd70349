/**
 * JavaScript values as the widget code handles them: schema fragments, event
 * payloads and cached parameter values.
 *
 * Numbers are integers (the code never depends on fractions in the modelled
 * paths), with NaN as a value of its own. An object is the sequence of its own
 * enumerable properties in JavaScript property order. Property access on null or
 * undefined raises a TypeError, which the model carries as an explicit outcome.
 */
module JsValue {

  datatype Option<+T> = None | Some(value: T)

  /** The value of an expression that may raise a TypeError. */
  datatype Result<+T> = Ok(value: T) | TypeError

  /** The end of a statement sequence: it completes, or it throws part way
      through. Either way the state reached so far is kept, because JavaScript
      does not undo side effects that happened before a throw. */
  datatype Completion<+T> = Done(state: T) | Threw(state: T)

  datatype Field = Field(key: string, val: Value)

  datatype Value =
    | Undefined
    | Null
    | Bool(b: bool)
    | Num(n: int)
    | NaN
    | Str(s: string)
    | Arr(elems: seq<Value>)
    | Obj(fields: seq<Field>)

  predicate Nullish(v: Value) {
    v.Undefined? || v.Null?
  }

  /** JavaScript truthiness (`if (v)`, `!v`, `a || b`). */
  predicate Truthy(v: Value) {
    match v
    case Undefined => false
    case Null => false
    case Bool(b) => b
    case Num(n) => n != 0
    case NaN => false
    case Str(s) => s != ""
    case Arr(_) => true
    case Obj(_) => true
  }

  /** `a || b`: the first operand when it is truthy, otherwise the second. */
  function Or(a: Value, b: Value): Value {
    if Truthy(a) then a else b
  }

  /** `typeof v === 'object'`, which holds for null, arrays and objects. */
  predicate IsObjectType(v: Value) {
    v.Null? || v.Arr? || v.Obj?
  }

  /** `===`. Two arrays or objects met here are always distinct references,
      so they are never strictly equal; NaN is not equal to itself. */
  predicate StrictEq(a: Value, b: Value) {
    || (a.Undefined? && b.Undefined?)
    || (a.Null? && b.Null?)
    || (a.Bool? && b.Bool? && a.b == b.b)
    || (a.Num? && b.Num? && a.n == b.n)
    || (a.Str? && b.Str? && a.s == b.s)
  }

  // ----- decimal digits -----

  predicate IsDigit(c: char) {
    '0' <= c <= '9'
  }

  predicate AllDigits(s: string) {
    forall i :: 0 <= i < |s| ==> IsDigit(s[i])
  }

  function DigitChar(d: nat): char
    requires d < 10
  {
    (('0' as int) + d) as char
  }

  /** Value of a string of decimal digits, most significant first. */
  function DigitsValue(s: string): nat
    requires AllDigits(s)
  {
    if s == [] then 0
    else DigitsValue(s[..|s| - 1]) * 10 + ((s[|s| - 1] as int) - ('0' as int))
  }

  /** Decimal notation of a natural number, without leading zeros. */
  function DecimalString(n: nat): (r: string)
    ensures |r| > 0 && AllDigits(r)
  {
    if n < 10 then [DigitChar(n)] else DecimalString(n / 10) + [DigitChar(n % 10)]
  }

  /** `String(n)` for an integer. */
  function IntString(i: int): string {
    if i < 0 then "-" + DecimalString(-i) else DecimalString(i)
  }

  lemma {:induction false} DecimalStringValue(n: nat)
    ensures DigitsValue(DecimalString(n)) == n
  {
    if n >= 10 {
      var s := DecimalString(n);
      assert s[..|s| - 1] == DecimalString(n / 10);
      DecimalStringValue(n / 10);
    }
  }

  /** A canonical array index key ("0", "1", ..., no leading zero). */
  function IndexKey(key: string): Option<nat> {
    if key != [] && AllDigits(key) && (key == "0" || key[0] != '0')
    then Some(DigitsValue(key))
    else None
  }

  // ----- property access -----

  /** The first field named `key`. */
  function Lookup(fields: seq<Field>, key: string): Option<Value> {
    if fields == [] then None
    else if fields[0].key == key then Some(fields[0].val)
    else Lookup(fields[1..], key)
  }

  /** `v[key]` on a value that is not null or undefined; a missing property
      reads as undefined. Arrays and strings expose `length` and their indices. */
  function Get(v: Value, key: string): Value {
    match v
    case Obj(fields) =>
      (match Lookup(fields, key) case Some(x) => x case None => Undefined)
    case Arr(elems) =>
      if key == "length" then Num(|elems|)
      else (match IndexKey(key)
            case Some(i) => if i < |elems| then elems[i] else Undefined
            case None => Undefined)
    case Str(s) =>
      if key == "length" then Num(|s|)
      else (match IndexKey(key)
            case Some(i) => if i < |s| then Str([s[i]]) else Undefined
            case None => Undefined)
    case _ => Undefined
  }

  /** `v[key]` in full: a TypeError on null or undefined. */
  function Prop(v: Value, key: string): (r: Result<Value>)
    ensures r.TypeError? <==> Nullish(v)
    ensures r.Ok? ==> r.value == Get(v, key)
  {
    if Nullish(v) then TypeError else Ok(Get(v, key))
  }

  predicate HasKey(fields: seq<Field>, key: string) {
    exists i :: 0 <= i < |fields| && fields[i].key == key
  }

  /** `v.hasOwnProperty(key)` on a value that is not null or undefined. */
  predicate HasOwn(v: Value, key: string) {
    match v
    case Obj(fields) => HasKey(fields, key)
    case Arr(elems) =>
      key == "length" || (IndexKey(key).Some? && IndexKey(key).value < |elems|)
    case Str(s) =>
      key == "length" || (IndexKey(key).Some? && IndexKey(key).value < |s|)
    case _ => false
  }

  /** `fields` with property `key` set to `x`: an existing property keeps its
      place, a new one goes last (JavaScript property order). */
  function WithField(fields: seq<Field>, key: string, x: Value): (r: seq<Field>)
    ensures Lookup(r, key) == Some(x)
    ensures forall k :: k != key ==> Lookup(r, k) == Lookup(fields, k)
  {
    if fields == [] then [Field(key, x)]
    else if fields[0].key == key then [Field(key, x)] + fields[1..]
    else [fields[0]] + WithField(fields[1..], key, x)
  }

  function IndexedFields(elems: seq<Value>, from: nat): seq<Field>
    decreases |elems|
  {
    if elems == [] then []
    else [Field(DecimalString(from), elems[0])] + IndexedFields(elems[1..], from + 1)
  }

  function CharValues(s: string): (r: seq<Value>)
    ensures |r| == |s|
  {
    if s == [] then [] else [Str([s[0]])] + CharValues(s[1..])
  }

  /** The own enumerable properties of a value, in order, as `{...v}` and
      `Object.entries(v)` see them. Primitives other than strings have none. */
  function Spread(v: Value): seq<Field> {
    match v
    case Obj(fields) => fields
    case Arr(elems) => IndexedFields(elems, 0)
    case Str(s) => IndexedFields(CharValues(s), 0)
    case _ => []
  }

  /** `Object.entries(v)`, which throws on null and undefined. */
  function Entries(v: Value): (r: Result<seq<Field>>)
    ensures r.TypeError? <==> Nullish(v)
  {
    if Nullish(v) then TypeError else Ok(Spread(v))
  }

  /** `{...v, key: x}`. */
  function Overriding(v: Value, key: string, x: Value): Value {
    Obj(WithField(Spread(v), key, x))
  }

  lemma {:induction false} IndexedFieldsHaveIndexKeys(elems: seq<Value>, from: nat, key: string)
    requires IndexKey(key).None?
    ensures Lookup(IndexedFields(elems, from), key).None?
    decreases |elems|
  {
    if elems != [] {
      var d := DecimalString(from);
      DecimalStringValue(from);
      assert IndexKey(d).Some? by {
        assert d == "0" || d[0] != '0' by { DecimalStringNoLeadingZero(from); }
      }
      IndexedFieldsHaveIndexKeys(elems[1..], from + 1, key);
    }
  }

  lemma {:induction false} DecimalStringNoLeadingZero(n: nat)
    ensures DecimalString(n) == "0" || DecimalString(n)[0] != '0'
  {
    if n >= 10 {
      DecimalStringNoLeadingZero(n / 10);
      DecimalStringValue(n / 10);
      var s := DecimalString(n / 10);
      assert DigitsValue("0") == 0;
      assert s != "0";
      assert DecimalString(n)[0] == s[0];
    }
  }

  /** Reading a named (non-index) property other than the overridden one
      through `{...v, key: x}` gives what `v` itself holds for an object, and
      undefined for anything else. */
  lemma OverridingGet(v: Value, key: string, x: Value, k: string)
    requires k != key && k != "length" && IndexKey(k).None?
    ensures Get(Overriding(v, key, x), k) == (if v.Obj? then Get(v, k) else Undefined)
  {
    match v
    case Obj(_) =>
    case Arr(elems) => IndexedFieldsHaveIndexKeys(elems, 0, k);
    case Str(s) => IndexedFieldsHaveIndexKeys(CharValues(s), 0, k);
    case _ =>
  }

  // ----- size, for termination of recursive walks over schemas -----

  function Size(v: Value): nat
    decreases v
  {
    match v
    case Arr(elems) => 1 + SizeSeq(elems)
    case Obj(fields) => 1 + SizeFields(fields)
    case _ => 1
  }

  function SizeSeq(vs: seq<Value>): nat
    decreases vs
  {
    if vs == [] then 0 else Size(vs[0]) + SizeSeq(vs[1..])
  }

  function SizeFields(fs: seq<Field>): nat
    decreases fs
  {
    if fs == [] then 0 else Size(fs[0].val) + SizeFields(fs[1..])
  }

  lemma {:induction false} ElementSmaller(vs: seq<Value>, i: nat)
    requires i < |vs|
    ensures Size(vs[i]) <= SizeSeq(vs)
  {
    if i > 0 {
      ElementSmaller(vs[1..], i - 1);
    }
  }

  lemma {:induction false} LookupSmaller(fs: seq<Field>, key: string)
    requires Lookup(fs, key).Some?
    ensures Size(Lookup(fs, key).value) <= SizeFields(fs)
  {
    if fs[0].key != key {
      LookupSmaller(fs[1..], key);
    }
  }

  /** An array or object read out of a value is strictly smaller than it. */
  lemma GetSmaller(v: Value, key: string)
    requires Get(v, key).Arr? || Get(v, key).Obj?
    ensures Size(Get(v, key)) < Size(v)
  {
    match v
    case Obj(fields) => LookupSmaller(fields, key);
    case Arr(elems) => ElementSmaller(elems, IndexKey(key).value);
  }

  lemma ElementOfArrSmaller(vs: seq<Value>, i: nat)
    requires i < |vs|
    ensures Size(vs[i]) < Size(Arr(vs))
  {
    ElementSmaller(vs, i);
  }

  // ----- string conversion -----

  /** `String(v)`, as used by `textContent`, `input.value` and option values. */
  function ToString(v: Value): string
    decreases v
  {
    match v
    case Undefined => "undefined"
    case Null => "null"
    case Bool(b) => if b then "true" else "false"
    case Num(n) => IntString(n)
    case NaN => "NaN"
    case Str(s) => s
    case Arr(elems) => Join(elems)
    case Obj(_) => "[object Object]"
  }

  /** `Array.prototype.join(',')`: null and undefined elements become "". */
  function Join(vs: seq<Value>): string
    decreases vs
  {
    if vs == [] then ""
    else
      var head := if Nullish(vs[0]) then "" else ToString(vs[0]);
      if |vs| == 1 then head else head + "," + Join(vs[1..])
  }

  /** JavaScript white space and line terminators, as `trim` and number
      parsing skip them. */
  predicate IsSpace(c: char) {
    || c == '\t' || c == '\n' || c == '\U{000B}' || c == '\U{000C}' || c == '\r' || c == ' '
    || c == '\U{00A0}' || c == '\U{1680}' || ('\U{2000}' <= c <= '\U{200A}')
    || c == '\U{2028}' || c == '\U{2029}' || c == '\U{202F}' || c == '\U{205F}'
    || c == '\U{3000}' || c == '\U{FEFF}'
  }

  function TrimStart(s: string): (r: string)
    ensures |r| <= |s|
    ensures r == s[|s| - |r|..]
    ensures r != [] ==> !IsSpace(r[0])
  {
    if s != [] && IsSpace(s[0]) then TrimStart(s[1..]) else s
  }

  function TrimEnd(s: string): (r: string)
    ensures |r| <= |s|
    ensures r == s[..|r|]
  {
    if s != [] && IsSpace(s[|s| - 1]) then TrimEnd(s[..|s| - 1]) else s
  }

  /** `s.trim()`. */
  function Trim(s: string): string {
    TrimEnd(TrimStart(s))
  }

  lemma {:induction false} TrimStartEmpty(s: string)
    ensures TrimStart(s) == [] <==> forall i :: 0 <= i < |s| ==> IsSpace(s[i])
  {
    if s != [] && IsSpace(s[0]) {
      TrimStartEmpty(s[1..]);
      assert forall i :: 1 <= i < |s| ==> s[i] == s[1..][i - 1];
    }
  }

  lemma {:induction false} TrimEndEmpty(s: string)
    ensures TrimEnd(s) == [] <==> forall i :: 0 <= i < |s| ==> IsSpace(s[i])
  {
    if s != [] && IsSpace(s[|s| - 1]) {
      TrimEndEmpty(s[..|s| - 1]);
      assert forall i :: 0 <= i < |s| - 1 ==> s[i] == s[..|s| - 1][i];
    }
  }

  /** `s.trim() !== ''` exactly when `s` holds a character that is not white space. */
  lemma TrimNonEmpty(s: string)
    ensures Trim(s) != "" <==> exists i :: 0 <= i < |s| && !IsSpace(s[i])
  {
    TrimStartEmpty(s);
    var t := TrimStart(s);
    TrimEndEmpty(t);
    if t != [] {
      assert !IsSpace(t[0]);
    }
  }

  // ----- number conversion -----

  /** Length of the run of decimal digits at the start of `s`. */
  function DigitRun(s: string): (k: nat)
    ensures k <= |s| && AllDigits(s[..k])
    ensures k < |s| ==> !IsDigit(s[k])
  {
    if s != [] && IsDigit(s[0]) then
      var k := 1 + DigitRun(s[1..]);
      assert forall i :: 1 <= i < k ==> s[..k][i] == s[1..][..k - 1][i - 1];
      k
    else 0
  }

  /** `parseInt(s, 10)`, and `parseFloat(s)` on integer notation: leading
      white space, an optional sign, then the longest run of digits; None
      stands for NaN (no digit at all). */
  function ParseLeadingInt(s: string): Option<int> {
    var t := TrimStart(s);
    var negative := t != [] && t[0] == '-';
    var u := if t != [] && (t[0] == '-' || t[0] == '+') then t[1..] else t;
    var k := DigitRun(u);
    var m: int := if k == 0 then 0 else DigitsValue(u[..k]);
    if k == 0 then None else Some(if negative then -m else m)
  }

  /** Number conversion of a whole string (`Number(s)`) in integer notation:
      blank is 0, otherwise an optional sign and digits only. */
  function StringToNumber(s: string): Option<int> {
    var t := Trim(s);
    if t == [] then Some(0)
    else
      var negative := t[0] == '-';
      var u := if t[0] == '-' || t[0] == '+' then t[1..] else t;
      if u != [] && AllDigits(u)
      then var m: int := DigitsValue(u); Some(if negative then -m else m)
      else None
  }

  /** `Number(v)`; None stands for NaN. An array converts through its string. */
  function ToNumber(v: Value): Option<int> {
    match v
    case Undefined => None
    case Null => Some(0)
    case Bool(b) => Some(if b then 1 else 0)
    case Num(n) => Some(n)
    case NaN => None
    case Str(s) => StringToNumber(s)
    case Arr(_) => StringToNumber(ToString(v))
    case Obj(_) => None
  }

  const TwoTo32: int := 0x1_0000_0000
  const TwoTo31: int := 0x8000_0000

  function Pow2(k: nat): (r: nat)
    ensures r > 0
  {
    if k == 0 then 1 else 2 * Pow2(k - 1)
  }

  /** The low `k` bits of `x`, least significant first. */
  function ToBits(x: nat, k: nat): (r: seq<bool>)
    ensures |r| == k
  {
    if k == 0 then [] else [x % 2 == 1] + ToBits(x / 2, k - 1)
  }

  /** The number a bit pattern denotes, least significant bit first. */
  function FromBits(s: seq<bool>): (r: nat)
    ensures r < Pow2(|s|)
  {
    if s == [] then 0 else (if s[0] then 1 else 0) + 2 * FromBits(s[1..])
  }

  lemma {:induction false} FromToBits(x: nat, k: nat)
    requires x < Pow2(k)
    ensures FromBits(ToBits(x, k)) == x
  {
    if k > 0 {
      FromToBits(x / 2, k - 1);
      assert ToBits(x, k)[1..] == ToBits(x / 2, k - 1);
    }
  }

  lemma {:induction false} ToFromBits(s: seq<bool>)
    ensures ToBits(FromBits(s), |s|) == s
  {
    if s != [] {
      var t := FromBits(s[1..]);
      var x := FromBits(s);
      assert x / 2 == t && (x % 2 == 1) == s[0];
      ToFromBits(s[1..]);
      assert s == [s[0]] + s[1..];
    }
  }

  lemma Pow2Of32()
    ensures Pow2(32) == TwoTo32
  {
    assert Pow2(8) == 0x100;
    assert Pow2(16) == 0x1_0000;
    assert Pow2(24) == 0x100_0000;
  }

  lemma {:induction false} Pow2Mono(a: nat, b: nat)
    requires a <= b
    ensures Pow2(a) <= Pow2(b)
  {
    if a < b {
      Pow2Mono(a, b - 1);
    }
  }

  /** A pattern with no bit set denotes zero. */
  lemma {:induction false} FromBitsNone(s: seq<bool>)
    requires forall i :: 0 <= i < |s| ==> !s[i]
    ensures FromBits(s) == 0
  {
    if s != [] {
      FromBitsNone(s[1..]);
    }
  }

  /** Setting bit `n` of a pattern adds `2^n` to what it denotes, unless the
      bit was already set. */
  lemma {:induction false} FromBitsSet(s: seq<bool>, t: seq<bool>, n: nat)
    requires |s| == |t| && n < |s| && t[n]
    requires forall i :: 0 <= i < |s| && i != n ==> t[i] == s[i]
    ensures FromBits(t) == FromBits(s) + (if s[n] then 0 else Pow2(n))
  {
    if n == 0 {
      assert s[1..] == t[1..];
    } else {
      FromBitsSet(s[1..], t[1..], n - 1);
      assert t[0] == s[0];
    }
  }

  /** The 32 bits, least significant first, that JavaScript's `>>`, `&` and
      `|` operate on (`ToInt32`); NaN gives all zeros. */
  function ToInt32Bits(v: Value): (r: seq<bool>)
    ensures |r| == 32
  {
    match ToNumber(v)
    case Some(n) => ToBits(n % TwoTo32, 32)
    case None => ToBits(0, 32)
  }

  function SignedOf(x: int): int {
    if x < TwoTo31 then x else x - TwoTo32
  }

  /** The signed number a 32-bit result denotes (`1 << 31` is negative). */
  function Signed(w: seq<bool>): int {
    SignedOf(FromBits(w))
  }

  lemma SignedOfMod(x: int)
    requires 0 <= x < TwoTo32
    ensures SignedOf(x) % TwoTo32 == x
  {
    if x >= TwoTo31 {
      assert (x - TwoTo32) % TwoTo32 == x;
    }
  }

  /** Storing a 32-bit result as a signed number loses no bit: converting it
      back with `ToInt32` gives the same bits. */
  lemma BitsRoundTrip(w: seq<bool>)
    requires |w| == 32
    ensures ToInt32Bits(Num(Signed(w))) == w
  {
    Pow2Of32();
    var x := FromBits(w);
    SignedOfMod(x);
    ToFromBits(w);
  }

  lemma {:induction false} DigitRunOfDigits(d: string, rest: string)
    requires AllDigits(d)
    requires rest == [] || !IsDigit(rest[0])
    ensures DigitRun(d + rest) == |d|
    decreases |d|
  {
    if d != [] {
      assert (d + rest)[1..] == d[1..] + rest;
      DigitRunOfDigits(d[1..], rest);
    } else {
      assert d + rest == rest;
    }
  }

  lemma DigitRunAll(d: string)
    requires AllDigits(d)
    ensures DigitRun(d) == |d|
  {
    DigitRunOfDigits(d, []);
    assert d + [] == d;
  }

  lemma ParseDecimalString(m: nat)
    ensures ParseLeadingInt(DecimalString(m)) == Some(m)
  {
    var d := DecimalString(m);
    assert IsDigit(d[0]);
    assert !IsSpace(d[0]);
    assert TrimStart(d) == d;
    assert d[0] != '-' && d[0] != '+';
    DigitRunAll(d);
    assert d[..|d|] == d;
    DecimalStringValue(m);
  }

  lemma ParseNegativeDecimalString(m: nat)
    ensures ParseLeadingInt("-" + DecimalString(m)) == Some(-(m as int))
  {
    var d := DecimalString(m);
    var s := "-" + d;
    assert s[0] == '-' && !IsSpace(s[0]);
    assert TrimStart(s) == s;
    assert s[1..] == d;
    DigitRunAll(d);
    assert d[..|d|] == d;
    DecimalStringValue(m);
  }

  /** `parseFloat(String(n))` gives `n` back. */
  lemma ParseIntString(i: int)
    ensures ParseLeadingInt(IntString(i)) == Some(i)
  {
    if i < 0 {
      ParseNegativeDecimalString(-i);
    } else {
      ParseDecimalString(i);
    }
  }
}
