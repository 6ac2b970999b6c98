/** CRC-16/MODBUS as computed by `MODBUS_CRC16` (zstack-lib/mercury200.c):
    initial value 0xFFFF, reflected polynomial 0xA001, each byte XORed into the
    low byte of the register followed by eight one-bit shifts (Modbus over
    Serial Line Specification V1.02, sections 2.5.1.2 and 6.2.2). */
module ModbusCrc {
  import opened CTypes

  const CrcInit: bv16 := 0xFFFF

  /** One inner-loop iteration: shift right, XOR the polynomial in exactly
      when the bit shifted out was 1. */
  function Shift(crc: bv16): bv16 {
    if crc & 0x0001 == 1 then (crc >> 1) ^ 0xA001 else crc >> 1
  }

  /** `n` iterations of the inner loop. */
  function Shifts(crc: bv16, n: nat): bv16
    decreases n
  {
    if n == 0 then crc else Shifts(Shift(crc), n - 1)
  }

  /** One outer-loop iteration: XOR the byte into the low byte, then 8 shifts. */
  function ByteStep(crc: bv16, b: byte): bv16 {
    Shifts(crc ^ (b as bv16), 8)
  }

  /** The register after feeding `s` into a register holding `crc`: a left
      fold of ByteStep over the bytes, first byte first. */
  function CrcFrom(crc: bv16, s: seq<byte>): bv16
    decreases |s|
  {
    if s == [] then crc else ByteStep(CrcFrom(crc, s[..|s| - 1]), s[|s| - 1])
  }

  /** The CRC of a whole buffer. */
  function Crc16(s: seq<byte>): (r: bv16)
    ensures s == [] ==> r == 0xFFFF
  {
    CrcFrom(CrcInit, s)
  }

  /** The CRC's bytes as the frames carry them: low byte first. */
  function CrcLo(crc: bv16): byte { (crc & 0xFF) as bv8 }
  function CrcHi(crc: bv16): byte { ((crc >> 8) & 0xFF) as bv8 }

  /** The two wire bytes rebuild the register, low byte first. */
  function CrcBytes(crc: bv16): (b: seq<byte>)
    ensures |b| == 2 && b[0] == CrcLo(crc) && b[1] == CrcHi(crc)
    ensures ((b[1] as bv16) << 8) | (b[0] as bv16) == crc
  {
    [CrcLo(crc), CrcHi(crc)]
  }

  /** The check the readers apply to a received frame: its last two bytes are
      the low and the high byte of the CRC of everything before them. */
  predicate CrcMatches(frame: seq<byte>)
    requires |frame| >= 2
  {
    var n := |frame|;
    frame[n - 2] == CrcLo(Crc16(frame[..n - 2])) && frame[n - 1] == CrcHi(Crc16(frame[..n - 2]))
  }

  /** A buffer followed by its CRC, as a sender puts it on the wire. */
  function WithCrc(payload: seq<byte>): (frame: seq<byte>)
    ensures |frame| == |payload| + 2 && frame[..|payload|] == payload
  {
    payload + CrcBytes(Crc16(payload))
  }

  lemma CrcFromSnoc(crc: bv16, s: seq<byte>, b: byte)
    ensures CrcFrom(crc, s + [b]) == ByteStep(CrcFrom(crc, s), b)
  {
    assert (s + [b])[..|s|] == s;
  }

  /** The CRC is a left fold: the register after `a + b` is the register
      after `a`, continued over `b`. */
  lemma {:induction false} CrcFromAppend(crc: bv16, a: seq<byte>, b: seq<byte>)
    ensures CrcFrom(crc, a + b) == CrcFrom(CrcFrom(crc, a), b)
    decreases |b|
  {
    if b == [] {
      assert a + b == a;
    } else {
      var init, last := b[..|b| - 1], b[|b| - 1];
      assert a + b == (a + init) + [last];
      CrcFromAppend(crc, a, init);
      CrcFromSnoc(crc, a + init, last);
    }
  }

  lemma ShiftInjective(x: bv16, y: bv16)
    ensures Shift(x) == Shift(y) ==> x == y
  {
  }

  /** Eight shifts map only zero to zero. */
  lemma {:induction false} ShiftsZero(x: bv16, n: nat)
    ensures Shifts(x, n) == 0 <==> x == 0
    decreases n
  {
    if n > 0 {
      ShiftInjective(x, 0);
      ShiftsZero(Shift(x), n - 1);
    }
  }

  /** One step lands on a value below 0x100 exactly when the byte fed in is
      the low byte of the register, and then the value is its high byte. */
  lemma StepToHighByte(crc: bv16, x: byte, y: byte)
    ensures ByteStep(crc, x) == y as bv16 <==> x == CrcLo(crc) && y == CrcHi(crc)
  {
    var v := crc ^ (x as bv16);
    LowByteCancels(crc, x);
    EightShifts(v);
    HighByte(crc, y);
  }

  /** XORing a byte in clears the low byte exactly when it is that byte, and
      leaves the high byte alone. */
  lemma LowByteCancels(crc: bv16, x: byte)
    ensures (crc ^ (x as bv16)) & 0xFF == 0 <==> x == CrcLo(crc)
    ensures (crc ^ (x as bv16)) >> 8 == crc >> 8
  {
  }

  lemma HighByte(crc: bv16, y: byte)
    ensures crc >> 8 == y as bv16 <==> y == CrcHi(crc)
    ensures y as bv16 < 0x100
  {
  }

  /** With a clear low byte no polynomial is XORed in, so eight shifts move
      the high byte down; with a set bit in the low byte some XOR of 0xA001
      reaches the high byte. */
  lemma EightShifts(v: bv16)
    ensures v & 0xFF == 0 ==> Shifts(v, 8) == v >> 8
    ensures v & 0xFF != 0 ==> Shifts(v, 8) >= 0x100
  {
  }

  lemma StepToZero(crc: bv16, y: byte)
    ensures ByteStep(crc, y) == 0 <==> crc == y as bv16
  {
    ShiftsZero(crc ^ (y as bv16), 8);
  }

  /** Feeding two bytes into the register clears it exactly when they are the
      register's own low and high byte. */
  lemma ResidueIff(crc: bv16, x: byte, y: byte)
    ensures CrcFrom(crc, [x, y]) == 0 <==> x == CrcLo(crc) && y == CrcHi(crc)
  {
    assert [x, y] == [x] + [y] && [x] == [] + [x];
    CrcFromSnoc(crc, [], x);
    CrcFromSnoc(crc, [x], y);
    StepToZero(ByteStep(crc, x), y);
    StepToHighByte(crc, x, y);
  }

  /** The check on the trailing two bytes is the same as "the CRC of the whole
      frame is zero". */
  lemma {:induction false} CrcMatchesIffZero(frame: seq<byte>)
    requires |frame| >= 2
    ensures CrcMatches(frame) <==> Crc16(frame) == 0
  {
    var n := |frame|;
    var body := frame[..n - 2];
    assert frame == body + [frame[n - 2], frame[n - 1]];
    CrcFromAppend(CrcInit, body, [frame[n - 2], frame[n - 1]]);
    ResidueIff(Crc16(body), frame[n - 2], frame[n - 1]);
  }

  /** A frame built by appending the CRC passes the check, and its CRC is zero. */
  lemma WithCrcMatches(payload: seq<byte>)
    ensures CrcMatches(WithCrc(payload)) && Crc16(WithCrc(payload)) == 0
  {
    var frame := WithCrc(payload);
    assert frame[..|frame| - 2] == payload;
    CrcMatchesIffZero(frame);
  }

  /** A Read Holding Registers request (slave 1, ten registers from 0):
      01 03 00 00 00 0A goes on the wire as 01 03 00 00 00 0A C5 CD. */
  lemma {:induction false} ReadHoldingRegistersVector()
    ensures Crc16([0x01, 0x03, 0x00, 0x00, 0x00, 0x0A]) == 0xCDC5
    ensures WithCrc([0x01, 0x03, 0x00, 0x00, 0x00, 0x0A]) == [0x01, 0x03, 0x00, 0x00, 0x00, 0x0A, 0xC5, 0xCD]
  {
    var s: seq<byte> := [0x01, 0x03, 0x00, 0x00, 0x00, 0x0A];
    CrcFromSnoc(CrcInit, s[..0], s[0]); assert s[..1] == s[..0] + [s[0]];
    assert CrcFrom(CrcInit, s[..1]) == 0x807E;
    CrcFromSnoc(CrcInit, s[..1], s[1]); assert s[..2] == s[..1] + [s[1]];
    assert CrcFrom(CrcInit, s[..2]) == 0x2140;
    CrcFromSnoc(CrcInit, s[..2], s[2]); assert s[..3] == s[..2] + [s[2]];
    assert CrcFrom(CrcInit, s[..3]) == 0xF020;
    CrcFromSnoc(CrcInit, s[..3], s[3]); assert s[..4] == s[..3] + [s[3]];
    assert CrcFrom(CrcInit, s[..4]) == 0xD8F1;
    CrcFromSnoc(CrcInit, s[..4], s[4]); assert s[..5] == s[..4] + [s[4]];
    assert CrcFrom(CrcInit, s[..5]) == 0x8419;
    CrcFromSnoc(CrcInit, s[..5], s[5]); assert s[..6] == s;
    assert CrcFrom(CrcInit, s) == 0xCDC5;
  }

  /** The usual CRC catalogue check value: the CRC of the ASCII text "123456789". */
  lemma {:induction false} CheckValue()
    ensures Crc16([0x31, 0x32, 0x33, 0x34, 0x35, 0x36, 0x37, 0x38, 0x39]) == 0x4B37
  {
    var s: seq<byte> := [0x31, 0x32, 0x33, 0x34, 0x35, 0x36, 0x37, 0x38, 0x39];
    CrcFromSnoc(CrcInit, s[..0], s[0]); assert s[..1] == s[..0] + [s[0]];
    assert CrcFrom(CrcInit, s[..1]) == 0x947E;
    CrcFromSnoc(CrcInit, s[..1], s[1]); assert s[..2] == s[..1] + [s[1]];
    assert CrcFrom(CrcInit, s[..2]) == 0xF595;
    CrcFromSnoc(CrcInit, s[..2], s[2]); assert s[..3] == s[..2] + [s[2]];
    assert CrcFrom(CrcInit, s[..3]) == 0x7A75;
    CrcFromSnoc(CrcInit, s[..3], s[3]); assert s[..4] == s[..3] + [s[3]];
    assert CrcFrom(CrcInit, s[..4]) == 0x30BA;
    CrcFromSnoc(CrcInit, s[..4], s[4]); assert s[..5] == s[..4] + [s[4]];
    assert CrcFrom(CrcInit, s[..5]) == 0xA471;
    CrcFromSnoc(CrcInit, s[..5], s[5]); assert s[..6] == s[..5] + [s[5]];
    assert CrcFrom(CrcInit, s[..6]) == 0x32E4;
    CrcFromSnoc(CrcInit, s[..6], s[6]); assert s[..7] == s[..6] + [s[6]];
    assert CrcFrom(CrcInit, s[..7]) == 0x9D73;
    CrcFromSnoc(CrcInit, s[..7], s[7]); assert s[..8] == s[..7] + [s[7]];
    assert CrcFrom(CrcInit, s[..8]) == 0x37DD;
    CrcFromSnoc(CrcInit, s[..8], s[8]); assert s[..9] == s;
    assert CrcFrom(CrcInit, s) == 0x4B37;
  }

  /** `MODBUS_CRC16(buf, len)`: the two nested loops of the source over the
      first `len` bytes of `buf`. */
  method ModbusCrc16(buf: array<byte>, len: nat) returns (crc: bv16)
    requires len <= buf.Length
    ensures crc == Crc16(buf[..len])
  {
    crc := 0xFFFF;
    var i := 0;
    while i < len
      invariant 0 <= i <= len
      invariant crc == Crc16(buf[..i])
    {
      ghost var before := crc;
      crc := crc ^ (buf[i] as bv16);
      ghost var mixed := crc;
      var bit := 0;
      while bit < 8
        invariant 0 <= bit <= 8
        invariant Shifts(crc, 8 - bit) == Shifts(mixed, 8)
      {
        ghost var prev := crc;
        if crc & 0x0001 == 1 {
          crc := crc >> 1;
          crc := crc ^ 0xA001;
        } else {
          crc := crc >> 1;
        }
        assert crc == Shift(prev);
        bit := bit + 1;
      }
      assert buf[..i + 1] == buf[..i] + [buf[i]];
      CrcFromSnoc(CrcInit, buf[..i], buf[i]);
      i := i + 1;
    }
  }
}
