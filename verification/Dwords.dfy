/**
 Bytes and dwords. The property block is an array of dwords; keys, data and
 text are byte buffers that are moved in and out of it most significant byte
 first, so the numeric value of a block dword does not depend on the host.
 */
module Dwords {

  type Byte = x: int | 0 <= x < 0x100
  type Dword = x: int | 0 <= x < 0x1_0000_0000

  /** The dword whose big-endian bytes are `b`. */
  function Pack(b: seq<Byte>): (w: Dword)
    requires |b| == 4
  {
    (((b[0] as int) * 0x100 + b[1]) * 0x100 + b[2]) * 0x100 + b[3]
  }

  function Unpack(w: Dword): (b: seq<Byte>)
    ensures |b| == 4
    ensures Pack(b) == w
  {
    var q1 := w / 0x100;
    var q2 := q1 / 0x100;
    [q2 / 0x100, q2 % 0x100, q1 % 0x100, w % 0x100]
  }

  lemma UnpackOfPack(b: seq<Byte>)
    requires |b| == 4
    ensures Unpack(Pack(b)) == b
  {
    var w := Pack(b);
    var q2 := (b[0] as int) * 0x100 + b[1];
    var q1 := q2 * 0x100 + b[2];
    assert w / 0x100 == q1 && q1 / 0x100 == q2 && q2 / 0x100 == b[0];
  }

  /** Byte `k` of a dword, counted from its low end. */
  function ByteOf(w: Dword, k: nat): (b: Byte)
    requires k < 4
    ensures k == 0 ==> b == w % 0x100
    ensures k == 1 ==> b == w / 0x100 % 0x100
    ensures k == 2 ==> b == w / 0x1_0000 % 0x100
    ensures k == 3 ==> b == w / 0x100_0000
  {
    match k
    case 0 => w % 0x100
    case 1 => w / 0x100 % 0x100
    case 2 => w / 0x1_0000 % 0x100
    case 3 => w / 0x100_0000
  }

  /** On the wire the first byte is the most significant one. */
  lemma PackedBytes(b: seq<Byte>)
    requires |b| == 4
    ensures Pack(b) / 0x100_0000 == b[0]
    ensures Pack(b) / 0x1_0000 % 0x100 == b[1]
    ensures Pack(b) / 0x100 % 0x100 == b[2]
    ensures Pack(b) % 0x100 == b[3]
  {
    var w := Pack(b);
    var q2 := (b[0] as int) * 0x100 + b[1];
    var q1 := q2 * 0x100 + b[2];
    assert w == q1 * 0x100 + b[3];
    assert w / 0x100 == q1 && w / 0x1_0000 == q2;
  }

  /** Byte `j` of a buffer is byte `3 - j % 4`, from the low end, of word `j / 4`. */
  lemma PackedByte(bs: seq<Byte>, j: nat)
    requires |bs| % 4 == 0 && j < |bs|
    ensures ByteOf(PackAll(bs)[j / 4], 3 - j % 4) == bs[j]
  {
    var k := j / 4;
    var four := bs[4 * k..4 * k + 4];
    PackedBytes(four);
    assert PackAll(bs)[k] == Pack(four) && four[j % 4] == bs[j];
  }

  /** format_dwdata(): whole dwords only. */
  function PackAll(bs: seq<Byte>): (ws: seq<Dword>)
    ensures |ws| == |bs| / 4
  {
    seq(|bs| / 4, i requires 0 <= i < |bs| / 4 => Pack(bs[4 * i..4 * i + 4]))
  }

  /** parse_dwdata(). */
  function UnpackAll(ws: seq<Dword>): (bs: seq<Byte>)
    ensures |bs| == 4 * |ws|
  {
    seq(4 * |ws|, i requires 0 <= i < 4 * |ws| => Unpack(ws[i / 4])[i % 4])
  }

  lemma UnpackOfPackAll(bs: seq<Byte>)
    requires |bs| % 4 == 0
    ensures UnpackAll(PackAll(bs)) == bs
  {
    var back := UnpackAll(PackAll(bs));
    assert |back| == |bs|;
    forall i | 0 <= i < |bs|
      ensures back[i] == bs[i]
    {
      var k := i / 4;
      UnpackOfPack(bs[4 * k..4 * k + 4]);
      assert PackAll(bs)[k] == Pack(bs[4 * k..4 * k + 4]);
      assert bs[4 * k..4 * k + 4][i % 4] == bs[i];
    }
  }

  function Zeros(n: nat): (z: seq<Byte>)
    ensures |z| == n
  {
    seq(n, _ => 0)
  }

  /** The bytes before the first NUL: what strcpy() and strcmp() see. */
  function CString(b: seq<Byte>): (s: seq<Byte>)
    ensures |s| <= |b|
    ensures s == b[..|s|]
    ensures 0 !in s
    ensures |s| < |b| ==> b[|s|] == 0
  {
    if b == [] || b[0] == 0 then []
    else
      var rest := CString(b[1..]);
      assert [b[0]] + rest == b[..|rest| + 1];
      [b[0]] + rest
  }

  lemma {:induction false} CStringUnique(b: seq<Byte>, s: seq<Byte>)
    requires |s| <= |b| && s == b[..|s|] && 0 !in s
    requires |s| < |b| ==> b[|s|] == 0
    ensures CString(b) == s
  {
    if s != [] {
      assert s[0] == b[0];
      CStringUnique(b[1..], s[1..]);
    }
  }

  /** `was` with `part` written at `at`. */
  function Overlay<T>(was: seq<T>, at: nat, part: seq<T>): (now: seq<T>)
    requires at + |part| <= |was|
    ensures |now| == |was|
  {
    was[..at] + part + was[at + |part|..]
  }
}
