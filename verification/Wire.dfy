/**
  The byte-order functions of the wire format. A right shift by 8k is a division by 256^k, a mask with
  0xff a remainder, and or-ing bytes into place a sum.
 */
module Wire {
  import opened Words

  /** The low `k` bytes of `v`, most significant first. */
  function BigEndian(v: nat, k: nat): (b: seq<U8>)
    ensures |b| == k
  {
    if k == 0 then [] else BigEndian(v / 256, k - 1) + [v % 256]
  }

  function Value(b: seq<U8>): nat {
    if b == [] then 0 else 256 * Value(b[..|b| - 1]) + b[|b| - 1]
  }

  function Power256(k: nat): (p: nat)
    ensures p > 0
  {
    if k == 0 then 1 else 256 * Power256(k - 1)
  }

  /** Decoding gives back the value reduced to the width, so the value itself when it fits. */
  lemma {:induction false} ValueOfBigEndian(v: nat, k: nat)
    ensures v < Power256(k) ==> Value(BigEndian(v, k)) == v
  {
    if k > 0 {
      assert BigEndian(v, k)[..k - 1] == BigEndian(v / 256, k - 1);
      if v < Power256(k) {
        assert v / 256 < Power256(k - 1);
        ValueOfBigEndian(v / 256, k - 1);
      }
    }
  }

  lemma {:induction false} BigEndianOfValue(b: seq<U8>)
    ensures BigEndian(Value(b), |b|) == b && Value(b) < Power256(|b|)
  {
    if b != [] {
      BigEndianOfValue(b[..|b| - 1]);
      assert b == b[..|b| - 1] + [b[|b| - 1]];
    }
  }

  /** Memory that is only read: the reader's pointer may point anywhere. */
  type Memory = nat -> U8

  /** The `n` bytes from address `at` on. */
  function Slice(mem: Memory, at: nat, n: nat): (b: seq<U8>)
    ensures |b| == n
  {
    if n == 0 then [] else Slice(mem, at, n - 1) + [mem(at + n - 1)]
  }

  lemma {:induction false} SliceAt(mem: Memory, at: nat, n: nat, i: nat)
    requires i < n
    ensures Slice(mem, at, n)[i] == mem(at + i)
  {
    if i < n - 1 { SliceAt(mem, at, n - 1, i); }
  }

  lemma TwoSlice(mem: Memory, at: nat)
    ensures var b := Slice(mem, at, 2); b[0] == mem(at) && b[1] == mem(at + 1)
  {
    SliceAt(mem, at, 2, 0);
    SliceAt(mem, at, 2, 1);
  }

  lemma FourSlice(mem: Memory, at: nat)
    ensures var b := Slice(mem, at, 4);
      b[0] == mem(at) && b[1] == mem(at + 1) && b[2] == mem(at + 2) && b[3] == mem(at + 3)
  {
    hide Slice;
    SliceAt(mem, at, 4, 0);
    SliceAt(mem, at, 4, 1);
    SliceAt(mem, at, 4, 2);
    SliceAt(mem, at, 4, 3);
  }

  lemma EightSlice(mem: Memory, at: nat)
    ensures var b := Slice(mem, at, 8);
      && b[0] == mem(at) && b[1] == mem(at + 1) && b[2] == mem(at + 2) && b[3] == mem(at + 3)
      && b[4] == mem(at + 4) && b[5] == mem(at + 5) && b[6] == mem(at + 6) && b[7] == mem(at + 7)
  {
    hide Slice;
    SliceAt(mem, at, 8, 0);
    SliceAt(mem, at, 8, 1);
    SliceAt(mem, at, 8, 2);
    SliceAt(mem, at, 8, 3);
    SliceAt(mem, at, 8, 4);
    SliceAt(mem, at, 8, 5);
    SliceAt(mem, at, 8, 6);
    SliceAt(mem, at, 8, 7);
  }

  /** `xio_write_uint16` */
  method WriteU16(v: U16, at: nat, buf: array<U8>)
    requires at + 2 <= buf.Length
    modifies buf
    ensures buf[..at + 2] == old(buf[..at]) + BigEndian(v, 2)
    ensures forall i :: at + 2 <= i < buf.Length ==> buf[i] == old(buf[i])
  {
    buf[at] := v / 0x100 % 0x100;
    buf[at + 1] := v % 0x100;
    assert BigEndian(v, 2) == BigEndian(v / 256, 1) + [v % 256];
    assert BigEndian(v / 256, 1) == BigEndian(v / 256 / 256, 0) + [v / 256 % 256];
  }

  /** `xio_read_uint16` */
  method ReadU16(at: nat, mem: Memory) returns (v: U16)
    ensures v == Value(Slice(mem, at, 2))
  {
    TwoSlice(mem, at);
    TwoValue(Slice(mem, at, 2));
    v := 0x100 * (mem(at) as int) + mem(at + 1);
  }

  /** `xio_write_uint32` */
  method WriteU32(v: U32, at: nat, buf: array<U8>)
    requires at + 4 <= buf.Length
    modifies buf
    ensures buf[..at + 4] == old(buf[..at]) + BigEndian(v, 4)
    ensures forall i :: at + 4 <= i < buf.Length ==> buf[i] == old(buf[i])
  {
    buf[at] := v / 0x100_0000 % 0x100;
    buf[at + 1] := v / 0x1_0000 % 0x100;
    buf[at + 2] := v / 0x100 % 0x100;
    buf[at + 3] := v % 0x100;
    FourBytes(v);
  }

  lemma FourBytes(v: nat)
    ensures BigEndian(v, 4) == [v / 0x100_0000 % 0x100, v / 0x1_0000 % 0x100, v / 0x100 % 0x100, v % 0x100]
  {
    var a, b, c := v / 256, v / 256 / 256, v / 256 / 256 / 256;
    assert b == v / 0x1_0000 && c == v / 0x100_0000;
    assert BigEndian(c, 1) == BigEndian(c / 256, 0) + [c % 256];
    assert BigEndian(b, 2) == [c % 256, b % 256];
    assert BigEndian(a, 3) == [c % 256, b % 256, a % 256];
  }

  lemma TwoValue(b: seq<U8>)
    requires |b| == 2
    ensures Value(b) == 0x100 * (b[0] as int) + b[1]
  {
    assert b[..1][..0] == [] && Value(b[..1]) == b[0];
  }

  lemma FourValue(b: seq<U8>)
    requires |b| == 4
    ensures Value(b) == 0x100_0000 * (b[0] as int) + 0x1_0000 * (b[1] as int) + 0x100 * (b[2] as int) + b[3]
  {
    assert b[..3][..2] == b[..2] && b[..2][..1] == b[..1] && b[..1][..0] == [];
    assert Value(b[..1]) == b[0];
    assert Value(b[..2]) == 256 * (b[0] as int) + b[1];
    assert Value(b[..3]) == 256 * Value(b[..2]) + b[2];
  }

  /** `xio_read_uint32` */
  method ReadU32(at: nat, mem: Memory) returns (v: U32)
    ensures v == Value(Slice(mem, at, 4))
  {
    FourSlice(mem, at);
    FourValue(Slice(mem, at, 4));
    v := 0x100_0000 * (mem(at) as int) + 0x1_0000 * (mem(at + 1) as int) + 0x100 * (mem(at + 2) as int) + mem(at + 3);
  }

  lemma BigEndianSplit(v: nat)
    ensures BigEndian(v, 8) == BigEndian(v / 0x1_0000_0000, 4) + BigEndian(v, 4)
  {
    var a, b, c, d := v / 256, v / 256 / 256, v / 256 / 256 / 256, v / 256 / 256 / 256 / 256;
    assert d == v / 0x1_0000_0000;
    var h := BigEndian(d, 4);
    assert BigEndian(c, 5) == h + [c % 256];
    assert BigEndian(b, 6) == h + [c % 256, b % 256];
    assert BigEndian(a, 7) == h + [c % 256, b % 256, a % 256];
    assert BigEndian(v, 8) == h + [c % 256, b % 256, a % 256, v % 256];
    FourBytes(v);
  }

  lemma ValueSplit(b: seq<U8>)
    requires |b| == 8
    ensures Value(b) == 0x1_0000_0000 * Value(b[..4]) + Value(b[4..])
  {
    assert b[..7][..6] == b[..6] && b[..6][..5] == b[..5] && b[..5][..4] == b[..4];
    assert Value(b[..5]) == 256 * Value(b[..4]) + b[4];
    assert Value(b[..6]) == 256 * Value(b[..5]) + b[5];
    assert Value(b[..7]) == 256 * Value(b[..6]) + b[6];
    FourValue(b[4..]);
  }

  lemma EightValue(b: seq<U8>)
    requires |b| == 8
    ensures Value(b) == 0x100_0000_0000_0000 * (b[0] as int) + 0x1_0000_0000_0000 * (b[1] as int)
                        + 0x100_0000_0000 * (b[2] as int) + 0x1_0000_0000 * (b[3] as int)
                        + 0x100_0000 * (b[4] as int) + 0x1_0000 * (b[5] as int) + 0x100 * (b[6] as int) + b[7]
  {
    ValueSplit(b);
    FourValue(b[..4]);
    FourValue(b[4..]);
  }

  /** `xio_write_uint64` */
  method WriteU64(v: U64, at: nat, buf: array<U8>)
    requires at + 8 <= buf.Length
    modifies buf
    ensures buf[..at + 8] == old(buf[..at]) + BigEndian(v, 8)
    ensures forall i :: at + 8 <= i < buf.Length ==> buf[i] == old(buf[i])
  {
    hide BigEndian;
    buf[at] := v / 0x100_0000_0000_0000 % 0x100;
    buf[at + 1] := v / 0x1_0000_0000_0000 % 0x100;
    buf[at + 2] := v / 0x100_0000_0000 % 0x100;
    buf[at + 3] := v / 0x1_0000_0000 % 0x100;
    buf[at + 4] := v / 0x100_0000 % 0x100;
    buf[at + 5] := v / 0x1_0000 % 0x100;
    buf[at + 6] := v / 0x100 % 0x100;
    buf[at + 7] := v % 0x100;
    EightBytes(v);
  }

  lemma EightBytes(v: nat)
    ensures BigEndian(v, 8) ==
            [v / 0x100_0000_0000_0000 % 0x100, v / 0x1_0000_0000_0000 % 0x100,
             v / 0x100_0000_0000 % 0x100, v / 0x1_0000_0000 % 0x100,
             v / 0x100_0000 % 0x100, v / 0x1_0000 % 0x100, v / 0x100 % 0x100, v % 0x100]
  {
    BigEndianSplit(v);
    FourBytes(v);
    var h := v / 0x1_0000_0000;
    FourBytes(h);
    assert h / 0x100 == v / 0x100_0000_0000;
    assert h / 0x1_0000 == v / 0x1_0000_0000_0000;
    assert h / 0x100_0000 == v / 0x100_0000_0000_0000;
  }

  /** `xio_read_uint64` */
  method ReadU64(at: nat, mem: Memory) returns (v: U64)
    ensures v == Value(Slice(mem, at, 8))
  {
    EightSlice(mem, at);
    EightValue(Slice(mem, at, 8));
    v := 0x100_0000_0000_0000 * (mem(at) as int) + 0x1_0000_0000_0000 * (mem(at + 1) as int)
         + 0x100_0000_0000 * (mem(at + 2) as int) + 0x1_0000_0000 * (mem(at + 3) as int)
         + 0x100_0000 * (mem(at + 4) as int) + 0x1_0000 * (mem(at + 5) as int) + 0x100 * (mem(at + 6) as int) + mem(at + 7);
  }

  /** `xio_write_array` */
  method WriteArray(b: seq<U8>, at: nat, buf: array<U8>)
    requires at + |b| <= buf.Length
    modifies buf
    ensures buf[..at + |b|] == old(buf[..at]) + b
    ensures forall i :: at + |b| <= i < buf.Length ==> buf[i] == old(buf[i])
  {
    for i := 0 to |b|
      invariant buf[..at + i] == old(buf[..at]) + b[..i]
      invariant forall j :: at + i <= j < buf.Length ==> buf[j] == old(buf[j])
    {
      buf[at + i] := b[i];
      assert buf[..at + i + 1] == buf[..at + i] + [b[i]];
    }
  }
}
