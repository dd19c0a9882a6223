// Byte strings and fixed-width integers in them.
module Bytes {
  type byte = x: int | 0 <= x < 256
  type u16 = x: int | 0 <= x < 0x1_0000
  type u32 = x: int | 0 <= x < 0x1_0000_0000

  type bytes = seq<byte>

  // The integer whose bytes are given, lowest first.
  function Join(b: seq<int>): int {
    if b == [] then 0 else b[0] + 0x100 * Join(b[1..])
  }

  function Join16(b0: int, b1: int): int {
    Join([b0, b1])
  }

  function Join32(b0: int, b1: int, b2: int, b3: int): int {
    Join([b0, b1, b2, b3])
  }

  lemma Join16Is(b0: int, b1: int)
    ensures Join16(b0, b1) == b0 + 0x100 * b1
  {
    assert [b0, b1][1..] == [b1];
    assert Join([b1]) == b1 + 0x100 * Join([]);
  }

  lemma Join32Is(b0: int, b1: int, b2: int, b3: int)
    ensures Join32(b0, b1, b2, b3) == b0 + 0x100 * b1 + 0x1_0000 * b2 + 0x100_0000 * b3
  {
    assert [b0, b1, b2, b3][1..] == [b1, b2, b3];
    assert [b1, b2, b3][1..] == [b2, b3];
    assert Join([b1, b2, b3]) == b1 + 0x100 * Join16(b2, b3);
    Join16Is(b2, b3);
  }

  // Little-endian reads, as `readUInt16LE` and `readUInt32LE`.
  function U16At(b: bytes, i: nat): (v: u16)
    requires i + 2 <= |b|
  {
    Join16Is(b[i], b[i + 1]);
    Join16(b[i], b[i + 1])
  }

  function U32At(b: bytes, i: nat): (v: u32)
    requires i + 4 <= |b|
  {
    Join32Is(b[i], b[i + 1], b[i + 2], b[i + 3]);
    Join32(b[i], b[i + 1], b[i + 2], b[i + 3])
  }

  // `writeUInt16LE` and `writeUInt32LE` into a buffer.
  method WriteUInt16LE(a: array<byte>, value: u16, offset: nat)
    requires offset + 2 <= a.Length
    modifies a
    ensures Join16(a[offset], a[offset + 1]) == value
    ensures forall j :: 0 <= j < a.Length && !(offset <= j < offset + 2) ==> a[j] == old(a[j])
  {
    a[offset] := value % 0x100;
    a[offset + 1] := value / 0x100;
    Join16Is(a[offset], a[offset + 1]);
  }

  method WriteUInt32LE(a: array<byte>, value: u32, offset: nat)
    requires offset + 4 <= a.Length
    modifies a
    ensures Join32(a[offset], a[offset + 1], a[offset + 2], a[offset + 3]) == value
    ensures forall j :: 0 <= j < a.Length && !(offset <= j < offset + 4) ==> a[j] == old(a[j])
  {
    // One byte at a time, as Buffer does.
    var v1 := value / 0x100;
    var v2 := v1 / 0x100;
    var v3 := v2 / 0x100;
    a[offset] := value % 0x100;
    a[offset + 1] := v1 % 0x100;
    a[offset + 2] := v2 % 0x100;
    a[offset + 3] := v3;
    Join32Is(a[offset], a[offset + 1], a[offset + 2], a[offset + 3]);
  }

  // Big-endian, as `readUInt32BE(0)` and `writeUInt32BE`.
  function U32BE(b: bytes): (v: u32)
    requires |b| >= 4
  {
    Join32Is(b[3], b[2], b[1], b[0]);
    Join32(b[3], b[2], b[1], b[0])
  }

  function Be32(v: u32): (b: bytes)
    ensures |b| == 4 && U32BE(b) == v
  {
    var v1 := v / 0x100;
    var v2 := v1 / 0x100;
    var v3 := v2 / 0x100;
    Join32Is(v % 0x100, v1 % 0x100, v2 % 0x100, v3);
    [v3, v2 % 0x100, v1 % 0x100, v % 0x100]
  }
}
