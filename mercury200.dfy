/** The Mercury 200 meter driver (zstack-lib/mercury200.c, zstack-lib/mercury.h):
    request frames, the two fixed-length responses, their CRC check and
    their BCD decoding. The serial port is a `Uart.SerialPort`. */
module Mercury200 {
  import opened CTypes
  import opened ModbusCrc
  import opened Bcd
  import opened Uart
  import opened AppTypes

  /** `MERCURY_INVALID_RESPONSE`: what a failed read puts in its fields. */
  const InvalidResponse := 0xFFFF

  const CvResponseLength := 14
  const EResponseLength := 23

  /** Largest tariff total four bytes of arbitrary nibbles can decode to. */
  const MaxTariff := 166_666_665

  // ---------------------------------------------------------------- requests

  /** The serial number, most significant byte first. */
  function SerialBytes(serialNum: bv32): (b: seq<byte>)
    ensures |b| == 4
  {
    [((serialNum >> 24) & 0xFF) as bv8, ((serialNum >> 16) & 0xFF) as bv8,
     ((serialNum >> 8) & 0xFF) as bv8, (serialNum & 0xFF) as bv8]
  }

  /** Four bytes read back as a big-endian serial number. */
  function SerialOf(b: seq<byte>): bv32
    requires |b| == 4
  {
    ((b[0] as bv32) << 24) | ((b[1] as bv32) << 16) | ((b[2] as bv32) << 8) | (b[3] as bv32)
  }

  lemma SerialRoundTrip(serialNum: bv32)
    ensures SerialOf(SerialBytes(serialNum)) == serialNum
  {
  }

  lemma SerialBytesRoundTrip(b: seq<byte>)
    requires |b| == 4
    ensures SerialBytes(SerialOf(b)) == b
  {
  }

  /** The seven bytes `Mercury200_RequestMeasure` sends. */
  function RequestFrame(serialNum: bv32, cmd: byte): (frame: seq<byte>)
    ensures |frame| == 7
  {
    WithCrc(SerialBytes(serialNum) + [cmd])
  }

  /** The request carries the serial number big-endian, then the command,
      then the CRC of those five bytes low byte first; its CRC residue is 0. */
  lemma RequestFrameLayout(serialNum: bv32, cmd: byte)
    ensures var frame := RequestFrame(serialNum, cmd);
      && frame[..4] == SerialBytes(serialNum) && SerialOf(frame[..4]) == serialNum
      && frame[4] == cmd
      && frame[5] == CrcLo(Crc16(frame[..5])) && frame[6] == CrcHi(Crc16(frame[..5]))
      && Crc16(frame) == 0
  {
    var head := SerialBytes(serialNum) + [cmd];
    var frame := RequestFrame(serialNum, cmd);
    WithCrcMatches(head);
    SerialRoundTrip(serialNum);
    assert frame[..5] == head;
    assert frame[..4] == head[..4];
  }

  /** What a meter reads out of a seven-byte request: the addressed serial
      number and the command, if the CRC is right. */
  function ParseRequest(frame: seq<byte>): Option<(bv32, byte)> {
    if |frame| == 7 && CrcMatches(frame) then Some((SerialOf(frame[..4]), frame[4])) else None
  }

  lemma RequestRoundTrip(serialNum: bv32, cmd: byte)
    ensures ParseRequest(RequestFrame(serialNum, cmd)) == Some((serialNum, cmd))
  {
    var frame := RequestFrame(serialNum, cmd);
    RequestFrameLayout(serialNum, cmd);
    CrcMatchesIffZero(frame);
  }

  /** Conversely, every frame a meter accepts is the request for what it parses to. */
  lemma ParsedRequestIsRequestFrame(frame: seq<byte>)
    requires ParseRequest(frame).Some?
    ensures frame == RequestFrame(ParseRequest(frame).value.0, ParseRequest(frame).value.1)
  {
    var (serialNum, cmd) := ParseRequest(frame).value;
    SerialBytesRoundTrip(frame[..4]);
    var expected := RequestFrame(serialNum, cmd);
    RequestFrameLayout(serialNum, cmd);
    assert frame[..5] == expected[..5];
    assert frame == frame[..5] + [frame[5], frame[6]];
  }

  /** Serial 0x0A987654 with command 0x63 gives the frame 0A 98 76 54 63 0C 52. */
  lemma RequestExample()
    ensures RequestFrame(0x0A987654, 0x63) == [0x0A, 0x98, 0x76, 0x54, 0x63, 0x0C, 0x52]
  {
    var s: seq<byte> := [0x0A, 0x98, 0x76, 0x54, 0x63];
    assert SerialBytes(0x0A987654) + [0x63] == s;
    CrcFromSnoc(CrcInit, s[..0], s[0]); assert s[..1] == s[..0] + [s[0]];
    assert CrcFrom(CrcInit, s[..1]) == 0x473F;
    CrcFromSnoc(CrcInit, s[..1], s[1]); assert s[..2] == s[..1] + [s[1]];
    assert CrcFrom(CrcInit, s[..2]) == 0xBA06;
    CrcFromSnoc(CrcInit, s[..2], s[2]); assert s[..3] == s[..2] + [s[2]];
    assert CrcFrom(CrcInit, s[..3]) == 0xE4BB;
    CrcFromSnoc(CrcInit, s[..3], s[3]); assert s[..4] == s[..3] + [s[3]];
    assert CrcFrom(CrcInit, s[..4]) == 0x8CA5;
    CrcFromSnoc(CrcInit, s[..4], s[4]); assert s[..5] == s;
    assert Crc16(s) == 0x520C;
  }

  /** `Mercury200_RequestMeasure`: fill the seven-byte buffer in place, CRC
      over its first five bytes, one write to the port. */
  method RequestMeasure(port: SerialPort, serialNum: bv32, cmd: byte)
    modifies port
    ensures port.tx == old(port.tx) + [RequestFrame(serialNum, cmd)]
    ensures port.rx == old(port.rx)
  {
    var readMercury := new byte[7](_ => 0);
    readMercury[4] := cmd;
    readMercury[3] := (serialNum & 0xFF) as bv8;
    readMercury[2] := ((serialNum >> 8) & 0xFF) as bv8;
    readMercury[1] := ((serialNum >> 16) & 0xFF) as bv8;
    readMercury[0] := ((serialNum >> 24) & 0xFF) as bv8;
    RequestHead(readMercury[..], serialNum, cmd);
    var crc := ModbusCrc16(readMercury, 5);
    readMercury[5] := (crc & 0xFF) as bv8;
    readMercury[6] := ((crc >> 8) & 0xFF) as bv8;
    RequestHead(readMercury[..], serialNum, cmd);
    RequestTail(readMercury[..], SerialBytes(serialNum) + [cmd], crc);
    port.Write(readMercury, 7);
  }

  /** The first five buffer bytes as `Mercury200_RequestMeasure` stores them. */
  lemma RequestHead(buf: seq<byte>, serialNum: bv32, cmd: byte)
    requires |buf| >= 5
    requires buf[0] == ((serialNum >> 24) & 0xFF) as bv8 && buf[1] == ((serialNum >> 16) & 0xFF) as bv8
    requires buf[2] == ((serialNum >> 8) & 0xFF) as bv8 && buf[3] == (serialNum & 0xFF) as bv8
    requires buf[4] == cmd
    ensures buf[..5] == SerialBytes(serialNum) + [cmd]
  {
  }

  /** The last two buffer bytes complete the frame. */
  lemma RequestTail(buf: seq<byte>, head: seq<byte>, crc: bv16)
    requires |buf| == 7 && |head| == 5 && buf[..5] == head && crc == Crc16(head)
    requires buf[5] == (crc & 0xFF) as bv8 && buf[6] == ((crc >> 8) & 0xFF) as bv8
    ensures buf[..7] == WithCrc(head)
  {
    assert buf == buf[..5] + [buf[5], buf[6]];
  }

  // ---------------------------------------------------------- current values

  /** What a rejected current-values response yields; the 0xFFFF stored into
      the `int16` power field reads back as -1. */
  const InvalidCurrentValues := CurrentValues(InvalidResponse, ToInt16(InvalidResponse), InvalidResponse)

  /** The fields a current-values response carries: voltage in bytes 5-6,
      current in bytes 7-8, power in bytes 9-11, each packed BCD; power is
      truncated into the signed 16-bit field. */
  function CurrentFields(frame: seq<byte>): (cv: CurrentValues)
    requires |frame| == CvResponseLength
    ensures cv.voltage <= 16665 && cv.current <= 16665
  {
    FieldBounds(frame[5..7]);
    FieldBounds(frame[7..9]);
    CurrentValues(current := BcdValue(frame[7..9]),
                  power := ToInt16(BcdValue(frame[9..12])),
                  voltage := BcdValue(frame[5..7]))
  }

  /** A 14-byte current-values response as `Mercury200_ReadCurrentValues`
      reads it: its fields when bytes 12-13 are the CRC of bytes 0-11, the
      invalid record otherwise. The voltage sentinel tells the two apart. */
  function DecodeCurrentValues(frame: seq<byte>): (cv: CurrentValues)
    requires |frame| == CvResponseLength
    ensures cv.voltage == InvalidResponse <==> !CrcMatches(frame)
    ensures !CrcMatches(frame) ==> cv == CurrentValues(current := 0xFFFF, power := -1, voltage := 0xFFFF)
  {
    if CrcMatches(frame) then CurrentFields(frame) else InvalidCurrentValues
  }

  /** With valid BCD digits voltage and current have four decimal digits and
      power is the field's value whenever that fits in 15 bits. */
  lemma CurrentFieldsValid(frame: seq<byte>)
    requires |frame| == CvResponseLength && IsBcd(frame[5..12])
    ensures CurrentFields(frame).voltage <= 9999 && CurrentFields(frame).current <= 9999
    ensures BcdValue(frame[9..12]) < 0x8000 ==> CurrentFields(frame).power == BcdValue(frame[9..12])
    ensures (CurrentFields(frame).power - BcdValue(frame[9..12])) % 0x1_0000 == 0
  {
    IsBcdSub(frame, 5, 12, 5, 7);
    IsBcdSub(frame, 5, 12, 7, 9);
    assert Pow100(2) == 10000;
    BcdValueValidBound(frame[5..7]);
    BcdValueValidBound(frame[7..9]);
  }

  /** A CRC-valid response whose fields carry voltage `v`, current `c` and
      power `p` in BCD, as a meter encodes them, decodes to `v` and `c`
      exactly and to `p` stored into the int16 field: `p` itself below
      0x8000, and `p` modulo 2^16 read as signed above it. */
  lemma CurrentValuesRoundTrip(frame: seq<byte>, v: nat, c: nat, p: nat)
    requires |frame| == CvResponseLength && CrcMatches(frame)
    requires v < 10000 && c < 10000 && p < 1000000
    requires frame[5..7] == EncodeBcd(v, 2) && frame[7..9] == EncodeBcd(c, 2)
    requires frame[9..12] == EncodeBcd(p, 3)
    ensures DecodeCurrentValues(frame) == CurrentValues(current := c, power := ToInt16(p), voltage := v)
    ensures p < 0x8000 ==> DecodeCurrentValues(frame).power == p
  {
    EncodeBcdRoundTrip(v, 2);
    EncodeBcdRoundTrip(c, 2);
    EncodeBcdRoundTrip(p, 3);
  }

  /** One call of `Mercury200_ReadCurrentValues` on pending input `rx`: the
      result and the input left over. A rejected frame is followed by a
      second, discarded read of the same length. */
  function CurrentValuesReply(rx: seq<byte>): (CurrentValues, seq<byte>) {
    var frame := Received(rx, CvResponseLength);
    if CrcMatches(frame) then (CurrentFields(frame), Consumed(rx, CvResponseLength))
    else (InvalidCurrentValues, Consumed(Consumed(rx, CvResponseLength), CvResponseLength))
  }

  /** The reply is the decoding of the first 14 bytes (zero-filled if fewer
      have arrived); an accepted reply consumes 14 bytes, a rejected one 28. */
  lemma CurrentValuesReplySpec(rx: seq<byte>)
    ensures var frame := Received(rx, CvResponseLength);
      && CurrentValuesReply(rx).0 == DecodeCurrentValues(frame)
      && CurrentValuesReply(rx).1
         == Consumed(rx, if CrcMatches(frame) then CvResponseLength else 2 * CvResponseLength)
  {
    ConsumedTwice(rx, CvResponseLength, CvResponseLength);
  }

  /** `Mercury200_ReadCurrentValues`. */
  method ReadCurrentValues(port: SerialPort) returns (result: CurrentValues)
    modifies port
    ensures (result, port.rx) == CurrentValuesReply(old(port.rx))
    ensures port.tx == old(port.tx)
  {
    result := InvalidCurrentValues;
    var response := new byte[CvResponseLength](_ => 0);
    ghost var rx := port.rx;
    var n := port.Read(response, CvResponseLength);
    ReadIntoZeros(rx, CvResponseLength, n, response[..]);
    ghost var frame := response[..];
    var crc := ModbusCrc16(response, CvResponseLength - 2);
    if response[CvResponseLength - 2] != (crc & 0xFF) as bv8
       || response[CvResponseLength - 1] != ((crc >> 8) & 0xFF) as bv8
    {
      assert !CrcMatches(frame);
      n := port.Read(response, CvResponseLength);
      return;
    }
    assert CrcMatches(frame);
    result := StoreCurrentFields(response, result);
  }

  /** The field arithmetic of `Mercury200_ReadCurrentValues` once the CRC has
      matched: each field written out nibble by nibble into `result`. */
  method StoreCurrentFields(response: array<byte>, init: CurrentValues) returns (result: CurrentValues)
    requires response.Length == CvResponseLength
    ensures result == CurrentFields(response[..])
  {
    ghost var frame := response[..];
    result := init;
    var voltage := HiNibble(response[5]) * 1000 + LoNibble(response[5]) * 100
                   + HiNibble(response[6]) * 10 + LoNibble(response[6]);
    var current := HiNibble(response[7]) * 1000 + LoNibble(response[7]) * 100
                   + HiNibble(response[8]) * 10 + LoNibble(response[8]);
    // The exact six-digit sum, stored into the signed 16-bit field modulo 2^16.
    // On a target with 16-bit int the intermediate products overflow too; the
    // stored value is the same only if signed overflow wraps.
    var power := HiNibble(response[9]) * 100000 + LoNibble(response[9]) * 10000
                 + HiNibble(response[10]) * 1000 + LoNibble(response[10]) * 100
                 + HiNibble(response[11]) * 10 + LoNibble(response[11]);
    FourDigits(frame, 5, voltage);
    FourDigits(frame, 7, current);
    SixDigits(frame, 9, power);
    result := result.(voltage := voltage);
    result := result.(current := current);
    result := result.(power := ToInt16(power));
  }

  /** The digit-by-digit sums `Mercury200_ReadCurrentValues` writes out for
      the two-byte field at `off` and the three-byte field at `off` are the
      BCD values of those fields. */
  lemma FourDigits(frame: seq<byte>, off: nat, v: int)
    requires off + 2 <= |frame|
    requires v == HiNibble(frame[off]) * 1000 + LoNibble(frame[off]) * 100
                  + HiNibble(frame[off + 1]) * 10 + LoNibble(frame[off + 1])
    ensures v == BcdValue(frame[off..off + 2]) && 0 <= v <= 16665
  {
    var s := frame[off..off + 2];
    BcdValue2(s);
    FromBcdToDecNibbles(s[0]);
    FromBcdToDecNibbles(s[1]);
  }

  lemma SixDigits(frame: seq<byte>, off: nat, v: int)
    requires off + 3 <= |frame|
    requires v == HiNibble(frame[off]) * 100000 + LoNibble(frame[off]) * 10000
                  + HiNibble(frame[off + 1]) * 1000 + LoNibble(frame[off + 1]) * 100
                  + HiNibble(frame[off + 2]) * 10 + LoNibble(frame[off + 2])
    ensures v == BcdValue(frame[off..off + 3])
  {
    var s := frame[off..off + 3];
    BcdValue3(s);
    FromBcdToDecNibbles(s[0]);
    FromBcdToDecNibbles(s[1]);
    FromBcdToDecNibbles(s[2]);
  }

  // ------------------------------------------------------------------ energy

  /** What a rejected energy response yields. The source's initialiser names
      `Energy_T3` twice and never `Energy_T4`, so T4 stays 0; T0 is never named. */
  const InvalidEnergy := Energy(t0 := 0, t1 := InvalidResponse, t2 := InvalidResponse, t3 := InvalidResponse, t4 := 0)

  /** The tariff totals an energy response carries: four-byte packed BCD
      fields at bytes 5-8, 9-12, 13-16 and 17-20. T0 is not carried and is 0. */
  function TariffsOf(frame: seq<byte>): (e: Energy)
    requires |frame| == EResponseLength
    ensures e.t0 == 0
    ensures e.t1 <= MaxTariff && e.t2 <= MaxTariff && e.t3 <= MaxTariff && e.t4 <= MaxTariff
  {
    FieldBounds(frame[5..9]);
    FieldBounds(frame[9..13]);
    FieldBounds(frame[13..17]);
    FieldBounds(frame[17..21]);
    Energy(t0 := 0, t1 := BcdValue(frame[5..9]), t2 := BcdValue(frame[9..13]),
           t3 := BcdValue(frame[13..17]), t4 := BcdValue(frame[17..21]))
  }

  /** A 23-byte energy response as `Mercury200_ReadEnergy` reads it: its
      tariffs when bytes 21-22 are the CRC of bytes 0-20, the invalid record
      otherwise. A rejected frame shows T1 = T2 = T3 = 0xFFFF and T4 = 0. */
  function DecodeEnergy(frame: seq<byte>): (e: Energy)
    requires |frame| == EResponseLength
    ensures e.t0 == 0
    ensures !CrcMatches(frame) ==> e == Energy(t0 := 0, t1 := 0xFFFF, t2 := 0xFFFF, t3 := 0xFFFF, t4 := 0)
  {
    if CrcMatches(frame) then TariffsOf(frame) else InvalidEnergy
  }

  /** With valid BCD digits a tariff has at most eight decimal digits. */
  lemma TariffsValid(frame: seq<byte>)
    requires |frame| == EResponseLength && IsBcd(frame[5..21])
    ensures var e := TariffsOf(frame);
      e.t1 < 100_000_000 && e.t2 < 100_000_000 && e.t3 < 100_000_000 && e.t4 < 100_000_000
  {
    IsBcdSub(frame, 5, 21, 5, 9);
    IsBcdSub(frame, 5, 21, 9, 13);
    IsBcdSub(frame, 5, 21, 13, 17);
    IsBcdSub(frame, 5, 21, 17, 21);
    assert Pow100(4) == 100_000_000;
    BcdValueValidBound(frame[5..9]);
    BcdValueValidBound(frame[9..13]);
    BcdValueValidBound(frame[13..17]);
    BcdValueValidBound(frame[17..21]);
  }

  /** A CRC-valid response whose four tariff fields carry `t1`..`t4` in BCD,
      as a meter encodes them, decodes to exactly those totals. */
  lemma EnergyRoundTrip(frame: seq<byte>, t1: nat, t2: nat, t3: nat, t4: nat)
    requires |frame| == EResponseLength && CrcMatches(frame)
    requires t1 < 100_000_000 && t2 < 100_000_000 && t3 < 100_000_000 && t4 < 100_000_000
    requires frame[5..9] == EncodeBcd(t1, 4) && frame[9..13] == EncodeBcd(t2, 4)
    requires frame[13..17] == EncodeBcd(t3, 4) && frame[17..21] == EncodeBcd(t4, 4)
    ensures DecodeEnergy(frame) == Energy(t0 := 0, t1 := t1, t2 := t2, t3 := t3, t4 := t4)
  {
    EncodeBcdRoundTrip(t1, 4);
    EncodeBcdRoundTrip(t2, 4);
    EncodeBcdRoundTrip(t3, 4);
    EncodeBcdRoundTrip(t4, 4);
  }

  /** One call of `Mercury200_ReadEnergy` on pending input `rx`. */
  function EnergyReply(rx: seq<byte>): (Energy, seq<byte>) {
    var frame := Received(rx, EResponseLength);
    if CrcMatches(frame) then (TariffsOf(frame), Consumed(rx, EResponseLength))
    else (InvalidEnergy, Consumed(Consumed(rx, EResponseLength), EResponseLength))
  }

  /** The reply is the decoding of the first 23 bytes (zero-filled if fewer
      have arrived); an accepted reply consumes 23 bytes, a rejected one 46. */
  lemma EnergyReplySpec(rx: seq<byte>)
    ensures var frame := Received(rx, EResponseLength);
      && EnergyReply(rx).0 == DecodeEnergy(frame)
      && EnergyReply(rx).1 == Consumed(rx, if CrcMatches(frame) then EResponseLength else 2 * EResponseLength)
  {
    ConsumedTwice(rx, EResponseLength, EResponseLength);
  }

  /** `Mercury200_ReadEnergy`. */
  method ReadEnergy(port: SerialPort) returns (result: Energy)
    modifies port
    ensures (result, port.rx) == EnergyReply(old(port.rx))
    ensures port.tx == old(port.tx)
  {
    result := InvalidEnergy;
    var response := new byte[EResponseLength](_ => 0);
    ghost var rx := port.rx;
    var n := port.Read(response, EResponseLength);
    ReadIntoZeros(rx, EResponseLength, n, response[..]);
    ghost var frame := response[..];
    var crc := ModbusCrc16(response, EResponseLength - 2);
    if response[EResponseLength - 2] != (crc & 0xFF) as bv8
       || response[EResponseLength - 1] != ((crc >> 8) & 0xFF) as bv8
    {
      assert !CrcMatches(frame);
      n := port.Read(response, EResponseLength);
      return;
    }
    assert CrcMatches(frame);
    result := StoreTariffs(response, result);
  }

  /** The tariff arithmetic of `Mercury200_ReadEnergy` once the CRC has
      matched: the four tariffs read from bytes 5, 9, 13 and 17. T0 is left
      as it was, and it is 0. */
  method StoreTariffs(response: array<byte>, init: Energy) returns (result: Energy)
    requires response.Length == EResponseLength && init.t0 == 0
    ensures result == TariffsOf(response[..])
  {
    var t1 := SumTariff(response, 5);
    var t2 := SumTariff(response, 9);
    var t3 := SumTariff(response, 13);
    var t4 := SumTariff(response, 17);
    result := init.(t1 := t1, t2 := t2, t3 := t3, t4 := t4);
  }

  /** One `Energy_Tn` block: the total cleared, then the four
      `from_bcd_to_dec` digit pairs at `off` added in with their weights. */
  method SumTariff(response: array<byte>, off: nat) returns (t: uint32)
    requires off + 4 <= response.Length
    ensures t == BcdValue(response[off..off + 4])
  {
    var sum := 0;
    sum := sum + FromBcdToDec(response[off]) * 1000000;
    sum := sum + FromBcdToDec(response[off + 1]) * 10000;
    sum := sum + FromBcdToDec(response[off + 2]) * 100;
    sum := sum + FromBcdToDec(response[off + 3]);
    EightDigits(response[..], off, sum);
    t := sum;
  }

  /** The weighted `from_bcd_to_dec` sum over the four bytes at `off` is the
      BCD value of that field. */
  lemma EightDigits(frame: seq<byte>, off: nat, v: int)
    requires off + 4 <= |frame|
    requires v == FromBcdToDec(frame[off]) * 1000000 + FromBcdToDec(frame[off + 1]) * 10000
                  + FromBcdToDec(frame[off + 2]) * 100 + FromBcdToDec(frame[off + 3])
    ensures v == BcdValue(frame[off..off + 4]) && 0 <= v <= MaxTariff
  {
    BcdValue4(frame[off..off + 4]);
    FieldBounds(frame[off..off + 4]);
  }
}
