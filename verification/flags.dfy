/**
 * The bit-flag widget's encoding: each checkbox carries a key such as
 * "3-overheat" whose text before the first '-' names a bit. The widget's
 * value is the 32-bit mask of the checked boxes' bits, and setting a value
 * checks exactly the boxes whose bit is set in it.
 */
module Flags {
  import opened JsValue

  /** The position of the first '-' in `s` (`indexOf('-')`), if any. */
  function DashIndex(s: string): (r: Option<nat>)
    ensures r.None? <==> '-' !in s
    ensures r.Some? ==> r.value < |s| && s[r.value] == '-' && '-' !in s[..r.value]
  {
    if s == [] then None
    else if s[0] == '-' then Some(0)
    else
      var rest := DashIndex(s[1..]);
      assert s == [s[0]] + s[1..];
      match rest
      case None => None
      case Some(i) =>
        assert s[..i + 1] == [s[0]] + s[1..][..i];
        Some(i + 1)
  }

  /** What a checkbox key names: a bit position in 0..31, or nothing. */
  datatype BitKey = NoBit | BitAt(n: nat)

  /** The bit a checkbox key names: `parseInt` of the text before the first
      '-', kept only when it is in 0..31. Keys without a dash name none. */
  function BitOf(key: string): (r: BitKey)
    ensures r.BitAt? ==> '-' in key && r.n < 32
    ensures r.BitAt? ==> ParseLeadingInt(key[..DashIndex(key).value]) == Some(r.n as int)
    ensures '-' !in key ==> r == NoBit
    ensures DashIndex(key).Some? ==>
              var prefix := ParseLeadingInt(key[..DashIndex(key).value]);
              (r.BitAt? <==> prefix.Some? && 0 <= prefix.value <= 31)
  {
    match DashIndex(key)
    case None => NoBit
    case Some(i) =>
      match ParseLeadingInt(key[..i])
      case Some(n) => if 0 <= n <= 31 then BitAt(n) else NoBit
      case None => NoBit
  }

  /** A key written as "N-label" names bit N, whatever the label holds
      (further dashes included). */
  lemma KeyNamesBit(n: nat, name: string)
    requires n < 32
    ensures BitOf(DecimalString(n) + "-" + name) == BitAt(n)
  {
    var d := DecimalString(n);
    var key := d + "-" + name;
    assert key[|d|] == '-';
    assert '-' !in d by {
      forall i | 0 <= i < |d| ensures d[i] != '-' {
        assert IsDigit(d[i]);
      }
    }
    var i := DashIndex(key).value;
    assert key[..i] == d;
    ParseDecimalString(n);
  }

  /** A 32-bit pattern with no bit set. */
  function Zero(): (r: seq<bool>)
    ensures |r| == 32 && forall i :: 0 <= i < 32 ==> !r[i]
  {
    seq(32, i => false)
  }

  /** `1 << n` as a bit pattern. */
  function Bit(n: nat): (r: seq<bool>)
    requires n < 32
    ensures |r| == 32 && forall i :: 0 <= i < 32 ==> (r[i] <==> i == n)
  {
    seq(32, i => i == n)
  }

  /** `a | b`. */
  function OrBits(a: seq<bool>, b: seq<bool>): (r: seq<bool>)
    requires |a| == 32 && |b| == 32
    ensures |r| == 32 && forall i :: 0 <= i < 32 ==> (r[i] <==> a[i] || b[i])
  {
    seq(32, i requires 0 <= i < 32 => a[i] || b[i])
  }

  /** `1 << n` denotes `2^n`, which as a signed 32-bit number is negative
      for bit 31. */
  lemma BitValue(n: nat)
    requires n < 32
    ensures FromBits(Bit(n)) == Pow2(n)
    ensures Signed(Bit(n)) == if n < 31 then Pow2(n) else -TwoTo31
  {
    FromBitsNone(Zero());
    FromBitsSet(Zero(), Bit(n), n);
    Pow2Of32();
    assert Pow2(32) == 2 * Pow2(31);
    if n < 31 {
      Pow2Mono(n, 30);
    }
  }

  /** `m | (1 << n)` adds `2^n` to the mask when bit n was clear and leaves
      it as it was otherwise. */
  lemma OrBitValue(m: seq<bool>, n: nat)
    requires |m| == 32 && n < 32
    ensures FromBits(OrBits(m, Bit(n))) == FromBits(m) + (if m[n] then 0 else Pow2(n))
  {
    FromBitsSet(m, OrBits(m, Bit(n)), n);
  }

  datatype Checkbox = Checkbox(key: string, checked: bool)

  /** What a box contributes to the widget's value: its bit when it is
      checked and its key names one, nothing otherwise. */
  function BoxBits(b: Checkbox): (r: seq<bool>)
    ensures |r| == 32
  {
    match BitOf(b.key)
    case BitAt(n) => if b.checked then Bit(n) else Zero()
    case NoBit => Zero()
  }

  /** The value the widget computes from its boxes on user input: the OR of
      the bits of the checked boxes, skipping boxes with a malformed key. */
  function MaskOf(boxes: seq<Checkbox>): (r: seq<bool>)
    ensures |r| == 32
  {
    if boxes == [] then Zero() else OrBits(BoxBits(boxes[0]), MaskOf(boxes[1..]))
  }

  /** Box `b` names bit `n`. */
  predicate Names(b: Checkbox, n: nat) {
    BitOf(b.key) == BitAt(n)
  }

  /** The checked state a box takes when the mask `m` is set: the bit it
      names, or its old state when its key is malformed. */
  function CheckedAfter(b: Checkbox, m: seq<bool>): bool
    requires |m| == 32
  {
    match BitOf(b.key)
    case BitAt(n) => m[n]
    case NoBit => b.checked
  }

  /** Setting a mask (`updateValue`): every box with a well-formed key is
      checked iff its bit is set; a box with a malformed key keeps its state. */
  function SetBoxes(boxes: seq<Checkbox>, m: seq<bool>): (r: seq<Checkbox>)
    requires |m| == 32
    ensures |r| == |boxes|
    ensures forall i :: 0 <= i < |boxes| ==> r[i].key == boxes[i].key
    ensures forall i :: 0 <= i < |boxes| ==> r[i].checked == CheckedAfter(boxes[i], m)
  {
    if boxes == [] then []
    else
      [Checkbox(boxes[0].key, CheckedAfter(boxes[0], m))] + SetBoxes(boxes[1..], m)
  }

  /** Bit `n` of the computed value is set exactly when some checked box
      names bit `n`. */
  lemma {:induction false} MaskBits(boxes: seq<Checkbox>, n: nat)
    requires n < 32
    ensures MaskOf(boxes)[n] <==> exists i :: 0 <= i < |boxes| && boxes[i].checked && Names(boxes[i], n)
  {
    if boxes != [] {
      var tail := boxes[1..];
      MaskBits(tail, n);
      assert MaskOf(boxes)[n] == (BoxBits(boxes[0])[n] || MaskOf(tail)[n]);
      BoxBit(boxes[0], n);
      if exists i :: 0 <= i < |tail| && tail[i].checked && Names(tail[i], n) {
        var i :| 0 <= i < |tail| && tail[i].checked && Names(tail[i], n);
        assert boxes[i + 1] == tail[i];
      }
      if exists i :: 0 <= i < |boxes| && boxes[i].checked && Names(boxes[i], n) {
        var i :| 0 <= i < |boxes| && boxes[i].checked && Names(boxes[i], n);
        if i > 0 {
          assert tail[i - 1] == boxes[i];
        }
      }
    }
  }

  lemma BoxBit(b: Checkbox, n: nat)
    requires n < 32
    ensures BoxBits(b)[n] <==> b.checked && Names(b, n)
  {
  }

  /** Setting a mask and reading the value back gives the mask restricted to
      the bits some box names: bits no key names are lost. */
  lemma MaskOfSetBoxes(boxes: seq<Checkbox>, m: seq<bool>, n: nat)
    requires |m| == 32 && n < 32
    ensures MaskOf(SetBoxes(boxes, m))[n] <==> m[n] && exists i :: 0 <= i < |boxes| && Names(boxes[i], n)
  {
    var r := SetBoxes(boxes, m);
    MaskBits(r, n);
    if m[n] && exists i :: 0 <= i < |boxes| && Names(boxes[i], n) {
      var i :| 0 <= i < |boxes| && Names(boxes[i], n);
      assert r[i].checked && Names(r[i], n);
    }
  }

  /** Boxes naming the same bit agree on whether they are checked. */
  predicate Consistent(boxes: seq<Checkbox>) {
    forall i, j ::
      (0 <= i < |boxes| && 0 <= j < |boxes| && BitOf(boxes[i].key).BitAt? && BitOf(boxes[i].key) == BitOf(boxes[j].key))
      ==> boxes[i].checked == boxes[j].checked
  }

  /** Feeding the computed value back leaves consistent boxes as they were:
      what the widget publishes, set again from outside, shows the same. */
  lemma SetBoxesMaskOf(boxes: seq<Checkbox>)
    requires Consistent(boxes)
    ensures SetBoxes(boxes, MaskOf(boxes)) == boxes
  {
    var r := SetBoxes(boxes, MaskOf(boxes));
    forall i | 0 <= i < |boxes|
      ensures r[i] == boxes[i]
    {
      match BitOf(boxes[i].key)
      case BitAt(n) =>
        MaskBits(boxes, n);
      case NoBit =>
    }
  }
}
