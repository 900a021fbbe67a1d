/**
 * The simulator's own data model (include/simulator.h) and its static data
 * segment (`simulator::memory`, include/simulator.h and src/simulator.cpp).
 */
module Simulator {
  import opened Wrappers
  import opened Ints

  /** `instrType`: the format family of a decoded instruction. */
  datatype InstrType = Unk | Nop | SNop | R3 | R2 | Mem | Bra2 | Bra1 | J

  /** `operation`. `Nul` marks an error or an unset operation, `NotRelevant` one that does not matter. */
  datatype Operation =
    | Nul | NotRelevant | Add | And | Nor | Or | Sub | Xor
    | L | S | Eq | Ne | Gez | Gtz | Lez | Ltz

  /** `varType`: a scalar (`VAR`) or a zero-filled array (`ARRAY`). */
  datatype VarKind = Var | Array

  /** `dataSize`. */
  datatype DataSize = Word | Byte | Half

  /** `opMod`. */
  datatype OpMod = ModNone | ModImmediate | ModUnsigned | ModImmediateUnsigned

  /** The `flags` union of an instruction: a memory access size or an ALU modifier. */
  datatype Flags = SizeFlag(size: DataSize) | ModFlag(mod: OpMod)

  /** `simulator::instruction`; the registers are C++ `char`s and `im` a `short`. */
  datatype Instruction = Instruction(
    labelName: string,
    displayName: string,
    kind: InstrType,
    op: Operation,
    rS: Int8,
    rT: Int8,
    rD: Int8,
    flags: Flags,
    im: Int16,
    labelOp: string)

  /** `simulator::varDef`. */
  datatype VarDef = VarDef(labelName: string, kind: VarKind, size: DataSize, value: Uint32)

  // ---------------------------------------------------------------------------
  // Layout of the data segment
  // ---------------------------------------------------------------------------

  /** The contents of a `memory` object: its byte buffer and its label table. */
  datatype DataImage = DataImage(bytes: seq<Uint8>, labels: map<string, Uint32>)

  /** The element size `add` uses for a data size: 2 for HALF, 1 for BYTE, 4 otherwise. */
  function ElementSize(size: DataSize): (n: nat)
    ensures n == 1 || n == 2 || n == 4
  {
    match size
    case Half => 2
    case Byte => 1
    case Word => 4
  }

  /** The number of zero bytes `add` appends so that the next entry is aligned to `es`. */
  function Padding(n: nat, es: nat): (p: nat)
    requires es == 1 || es == 2 || es == 4
    ensures p < es
    ensures (n + p) % es == 0
    ensures n % es == 0 ==> p == 0
  {
    PaddingAligns(n, es);
    var m := n % es;
    if m != 0 then es - m else 0
  }

  lemma PaddingAligns(n: nat, es: nat)
    requires es == 1 || es == 2 || es == 4
    ensures n % es != 0 ==> (n + es - n % es) % es == 0
  {
    if es == 1 {
    } else if es == 2 {
    } else {
    }
  }

  function Zeros(n: nat): seq<Uint8>
  {
    seq(n, _ => 0)
  }

  function Pow256(i: nat): (p: nat)
    ensures p > 0
  {
    if i == 0 then 1 else 256 * Pow256(i - 1)
  }

  /** Byte `i` of `v` counted from the least significant end: `(char)(v >> 8*i)`. */
  function ByteOf(v: nat, i: nat): Uint8
  {
    (v / Pow256(i)) % 256
  }

  /** The first `n` bytes of `v` in little-endian order, built as `add` pushes them. */
  function LittleEndian(v: nat, n: nat): (bs: seq<Uint8>)
    ensures |bs| == n
  {
    if n == 0 then [] else LittleEndian(v, n - 1) + [ByteOf(v, n - 1)]
  }

  /** Byte `i` of the stored scalar is byte `i` of its value, counted from the least significant end. */
  lemma {:induction false} LittleEndianBytes(v: nat, n: nat)
    ensures forall i :: 0 <= i < n ==> LittleEndian(v, n)[i] == ByteOf(v, i)
  {
    if n > 0 {
      LittleEndianBytes(v, n - 1);
      assert forall i :: 0 <= i < n - 1 ==> LittleEndian(v, n)[i] == LittleEndian(v, n - 1)[i];
    }
  }

  /** The number a little-endian byte string denotes. */
  function FromLittleEndian(bs: seq<Uint8>): nat
  {
    if bs == [] then 0
    else FromLittleEndian(bs[..|bs| - 1]) + Pow256(|bs| - 1) * bs[|bs| - 1]
  }

  /** Splitting off the top byte of a value below 256 * p, for the byte weights a scalar can have. */
  lemma ModSplit(v: nat, p: nat)
    requires p == 1 || p == 0x100 || p == 0x1_0000 || p == 0x100_0000
    ensures v % (256 * p) == v % p + p * ((v / p) % 256)
  {
    var q, r := v / p, v % p;
    var a, b := q / 256, q % 256;
    assert v == (256 * p) * a + (p * b + r);
    assert p * b <= p * 255 by {
      MulMonotone(p, b, 255);
    }
    DivModUnique(v, 256 * p, a, p * b + r);
  }

  lemma MulMonotone(p: nat, x: nat, y: nat)
    requires x <= y
    ensures p * x <= p * y
  {
    assert p * y == p * x + p * (y - x);
  }

  /** Division with remainder is unique: `x == d * a + b` with `0 <= b < d` fixes the remainder. */
  lemma DivModUnique(x: int, d: int, a: int, b: int)
    requires d > 0 && 0 <= b < d && x == d * a + b
    ensures x % d == b
  {
    var q, r := x / d, x % d;
    assert d * (q - a) == b - r;
    MulAwayFromZero(d, q - a);
  }

  /** A non-zero multiple of `d` is at least `d` away from zero. */
  lemma MulAwayFromZero(d: int, k: int)
    requires d > 0
    ensures k >= 1 ==> d * k >= d
    ensures k <= -1 ==> d * k <= -d
  {
    if k >= 1 {
      MulMonotone(d, 1, k);
    } else if k <= -1 {
      MulMonotone(d, 1, -k);
    }
  }

  /** Reading back the bytes a scalar was stored as gives its value modulo 256^n. */
  lemma {:induction false} LittleEndianRoundTrip(v: nat, n: nat)
    requires n <= 4
    ensures FromLittleEndian(LittleEndian(v, n)) == v % Pow256(n)
  {
    if n > 0 {
      var bs := LittleEndian(v, n);
      var p := Pow256(n - 1);
      assert bs[..n - 1] == LittleEndian(v, n - 1);
      LittleEndianRoundTrip(v, n - 1);
      assert FromLittleEndian(bs) == FromLittleEndian(bs[..n - 1]) + p * bs[n - 1];
      assert FromLittleEndian(bs) == v % p + p * ((v / p) % 256);
      assert p == 1 || p == 0x100 || p == 0x1_0000 || p == 0x100_0000 by {
        Pow256Values();
      }
      ModSplit(v, p);
      assert Pow256(n) == 256 * p;
    }
  }

  lemma Pow256Values()
    ensures Pow256(0) == 1 && Pow256(1) == 0x100 && Pow256(2) == 0x1_0000 && Pow256(3) == 0x100_0000
  {
  }

  /** The bytes `add` appends for a definition after the alignment padding. */
  function Payload(def: VarDef): seq<Uint8>
  {
    var es := ElementSize(def.size);
    if def.kind == Array then Zeros((es * def.value) % U32) else LittleEndian(def.value, es)
  }

  /**
   * An array is `elementSize * value` zero bytes (the product truncated to 32 bits); a
   * scalar is `elementSize` bytes that read back, little-endian, as its value modulo
   * 256^elementSize, byte `i` being `value >> 8*i`.
   */
  lemma PayloadShape(def: VarDef)
    ensures var p := Payload(def);
      def.kind == Array ==> |p| == (ElementSize(def.size) * def.value) % U32 && forall i :: 0 <= i < |p| ==> p[i] == 0
    ensures var p := Payload(def);
      def.kind == Var ==>
        && |p| == ElementSize(def.size)
        && (forall i :: 0 <= i < |p| ==> p[i] == ByteOf(def.value, i))
        && FromLittleEndian(p) == def.value % Pow256(ElementSize(def.size))
  {
    if def.kind == Var {
      LittleEndianBytes(def.value, ElementSize(def.size));
      LittleEndianRoundTrip(def.value, ElementSize(def.size));
    }
  }

  /** The data image after `add` accepted `def` (its label was not yet present). */
  function Added(img: DataImage, def: VarDef): DataImage
  {
    var pad := Zeros(Padding(|img.bytes|, ElementSize(def.size)));
    DataImage(img.bytes + pad + Payload(def), img.labels[def.labelName := Wrap32(|img.bytes| - 1)])
  }

  /**
   * `add` records the label at the old size minus one (before padding, so the first
   * variable's label is 0xFFFFFFFF), keeps the existing bytes, appends zero padding up to
   * the next multiple of the element size and then the payload.
   */
  lemma AddedLayout(img: DataImage, def: VarDef)
    ensures var r := Added(img, def);
      var es := ElementSize(def.size);
      var start := |img.bytes| + Padding(|img.bytes|, es);
      && r.labels == img.labels[def.labelName := Wrap32(|img.bytes| - 1)]
      && img.bytes <= r.bytes
      && |r.bytes| == start + |Payload(def)|
      && start % es == 0
      && start < |img.bytes| + es
      && (forall i :: |img.bytes| <= i < start ==> r.bytes[i] == 0)
      && r.bytes[start..] == Payload(def)
  {
    var r := Added(img, def);
    var n := |img.bytes|;
    var pad := Zeros(Padding(n, ElementSize(def.size)));
    assert r.bytes == img.bytes + pad + Payload(def);
    assert r.bytes[n + |pad|..] == Payload(def);
    assert forall i :: n <= i < n + |pad| ==> r.bytes[i] == pad[i - n];
  }

  /** `memory`: the static data segment, a byte buffer that is only ever appended to. */
  class Memory {
    var internalMem: seq<Uint8>
    var labelMap: map<string, Uint32>

    constructor ()
      ensures internalMem == [] && labelMap == map[]
    {
      internalMem := [];
      labelMap := map[];
    }

    function Image(): DataImage
      reads this
    {
      DataImage(internalMem, labelMap)
    }

    /** `add`: refuses a label already in use; otherwise records the label, pads and appends the data. */
    method Add(def: VarDef) returns (added: bool)
      modifies this
      ensures added <==> def.labelName !in old(labelMap)
      ensures added ==> Image() == Added(old(Image()), def)
      ensures !added ==> Image() == old(Image())
    {
      if def.labelName in labelMap {
        return false;
      }
      ghost var before := Image();
      labelMap := labelMap[def.labelName := Wrap32(|internalMem| - 1)];
      var es := ElementSize(def.size);
      var m := |internalMem| % es;
      if m != 0 {
        internalMem := internalMem + Zeros(es - m);
      }
      ghost var padded := internalMem;
      assert padded == before.bytes + Zeros(Padding(|before.bytes|, es));
      if def.kind == Array {
        var n := (es * def.value) % U32;
        internalMem := internalMem + Zeros(n);
        return true;
      }
      var i := 0;
      while i < es
        invariant 0 <= i <= es
        invariant internalMem == padded + LittleEndian(def.value, i)
        invariant labelMap == before.labels[def.labelName := Wrap32(|before.bytes| - 1)]
      {
        internalMem := internalMem + [ByteOf(def.value, i)];
        i := i + 1;
      }
      assert LittleEndian(def.value, es) == Payload(def);
      return true;
    }

    /** `shrink`: releases spare capacity; the contents do not change. */
    method Shrink()
      modifies this
      ensures internalMem == old(internalMem) && labelMap == old(labelMap)
    {
    }

    /**
     * `get(idx)`: the index of the referenced byte, or None for a null pointer. The end
     * of the access, `idx + sizeof(T)`, is computed in 32-bit unsigned arithmetic.
     */
    function Get(idx: Uint32, width: nat): (r: Option<nat>)
      reads this
      ensures r.Some? <==> Wrap32(idx + width) <= |internalMem|
      ensures r.Some? ==> r.value == idx
    {
      var end := Wrap32(idx + width);
      if |internalMem| < end then None else Some(idx)
    }

    /**
     * `get(label, offset)`: None when the label is unknown; otherwise the start is the
     * stored index plus the offset, and the end the start plus `sizeof(T)`, both in
     * 32-bit unsigned arithmetic, and None is returned when the end lies past the buffer.
     * The test `start < 0` is on an unsigned value and never holds: a negative offset wraps.
     */
    function GetLabel(name: string, offset: Int32, width: nat): (r: Option<nat>)
      reads this
      ensures name !in labelMap ==> r == None
      ensures name in labelMap ==>
        var start := Wrap32(labelMap[name] + offset);
        (r.Some? <==> Wrap32(start + width) <= |internalMem|) && (r.Some? ==> r.value == start)
    {
      if name !in labelMap then None
      else
        var start := Wrap32(labelMap[name] + offset);
        var end := Wrap32(start + width);
        if |internalMem| < end then None else Some(start)
    }

    /** `size()`: the number of stored bytes, converted to a C++ `int`. */
    function Size(): (n: Int32)
      reads this
      ensures |internalMem| < 0x8000_0000 ==> n == |internalMem|
    {
      ToInt32(|internalMem|)
    }
  }

  /** Away from the 32-bit boundary, `get(idx)` returns a pointer exactly when the access fits in the buffer. */
  lemma GetWithinBounds(m: Memory, idx: Uint32, width: nat)
    requires idx + width < U32
    ensures m.Get(idx, width).Some? <==> idx + width <= |m.internalMem|
  {
  }

  /**
   * Near the top of the 32-bit range the end `idx + sizeof(T)` wraps around, and `get`
   * hands out a pointer for an access that lies past the end of the buffer.
   */
  lemma GetWrapsPastEnd(m: Memory)
    requires 2 <= |m.internalMem| < U32 - 2
    ensures m.Get(U32 - 2, 4) == Some(U32 - 2)
    ensures U32 - 2 + 4 > |m.internalMem|
  {
    assert Wrap32(U32 - 2 + 4) == 2;
  }

  /** The first variable's label is recorded at the empty buffer's size minus one: 0xFFFFFFFF. */
  lemma FirstLabelWraps(def: VarDef)
    ensures Added(DataImage([], map[]), def).labels[def.labelName] == U32 - 1
  {
    assert Wrap32(0 - 1) == U32 - 1;
  }

  /**
   * Away from the 32-bit boundary, `get(label, offset)` returns a pointer exactly when the
   * access starting at the label's index plus the offset fits in the buffer.
   */
  lemma GetLabelWithinBounds(m: Memory, name: string, offset: Int32, width: nat)
    requires name in m.labelMap
    requires 0 <= m.labelMap[name] + offset && m.labelMap[name] + offset + width < U32
    ensures m.GetLabel(name, offset, width).Some? <==> m.labelMap[name] + offset + width <= |m.internalMem|
    ensures m.GetLabel(name, offset, width).Some? ==> m.GetLabel(name, offset, width).value == m.labelMap[name] + offset
  {
  }

  /**
   * The first variable of a segment is labelled 0xFFFFFFFF, so `get<int>` of its label
   * wraps the end of the access to 3 and hands out a pointer past the end of the 4-byte
   * buffer instead of the variable's own bytes.
   */
  lemma GetLabelFirstVariableWraps(m: Memory, def: VarDef)
    requires def.kind == Var && def.size == Word
    requires m.Image() == Added(DataImage([], map[]), def)
    ensures |m.internalMem| == 4
    ensures m.GetLabel(def.labelName, 0, 4) == Some(U32 - 1)
    ensures U32 - 1 >= |m.internalMem|
  {
    FirstLabelWraps(def);
    assert Padding(0, 4) == 0;
    assert |Payload(def)| == 4;
    assert Wrap32(U32 - 1 + 4) == 3;
  }
}
