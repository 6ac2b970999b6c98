/** Packed binary-coded-decimal decoding as the Mercury 200 driver does it
    (zstack-lib/mercury200.c): every nibble is read as one decimal digit,
    with no check that it is at most 9. */
module Bcd {
  import opened CTypes

  /** `b >> 4`, the high decimal digit of a BCD byte. */
  function HiNibble(b: byte): (n: nat)
    ensures n <= 15
  {
    (b >> 4) as int
  }

  /** `b & 0x0F`, the low decimal digit of a BCD byte. */
  function LoNibble(b: byte): (n: nat)
    ensures n <= 15
  {
    (b & 0x0F) as int
  }

  /** The source also writes the nibbles as `b / 16` and `b % 16`. */
  lemma NibblesDivMod(b: byte)
    ensures HiNibble(b) == b as int / 16 && LoNibble(b) == b as int % 16
    ensures b as int == 16 * HiNibble(b) + LoNibble(b)
  {
  }

  /** A byte whose two nibbles are both decimal digits. */
  predicate IsBcdByte(b: byte) {
    HiNibble(b) <= 9 && LoNibble(b) <= 9
  }

  predicate IsBcd(s: seq<byte>) {
    forall i :: 0 <= i < |s| ==> IsBcdByte(s[i])
  }

  /** `from_bcd_to_dec`: the byte's two nibbles read as a two-digit decimal
      number; nibbles above 9 are taken at face value. */
  function FromBcdToDec(bcd: byte): (dec: nat)
    ensures dec <= 165
  {
    ((bcd >> 4) & 0x0F) as int * 10 + (bcd & 0x0F) as int
  }

  /** A valid BCD byte decodes to a two-digit number. */
  lemma FromBcdToDecValid(bcd: byte)
    requires IsBcdByte(bcd)
    ensures FromBcdToDec(bcd) < 100
  {
    FromBcdToDecNibbles(bcd);
  }

  /** The shift-and-mask form of `from_bcd_to_dec` is the nibble-by-nibble
      form the current-values decoder writes out by hand. */
  lemma FromBcdToDecNibbles(bcd: byte)
    ensures FromBcdToDec(bcd) == 10 * HiNibble(bcd) + LoNibble(bcd)
  {
    assert (bcd >> 4) & 0x0F == bcd >> 4;
  }

  /** The BCD byte holding the two-digit number `d`: tens in the high
      nibble, units in the low one. */
  function ToBcd(d: nat): byte
    requires d < 100
  {
    ((d / 10) as bv8 << 4) | (d % 10) as bv8
  }

  /** Two decimal digits packed into one byte come back out as nibbles. */
  lemma PackNibbles(h: byte, l: byte)
    requires h < 10 && l < 10
    ensures ((h << 4) | l) >> 4 == h && ((h << 4) | l) & 0x0F == l
  {
  }

  lemma SmallByte(n: nat)
    requires n < 10
    ensures (n as bv8) as int == n && (n as bv8) < 10
  {
  }

  lemma ToBcdRoundTrip(d: nat)
    requires d < 100
    ensures IsBcdByte(ToBcd(d)) && FromBcdToDec(ToBcd(d)) == d
  {
    SmallByte(d / 10);
    SmallByte(d % 10);
    PackNibbles((d / 10) as bv8, (d % 10) as bv8);
    FromBcdToDecNibbles(ToBcd(d));
  }

  lemma FromBcdRoundTrip(b: byte)
    requires IsBcdByte(b)
    ensures ToBcd(FromBcdToDec(b)) == b
  {
    var d := FromBcdToDec(b);
    FromBcdToDecNibbles(b);
    assert d / 10 == HiNibble(b) && d % 10 == LoNibble(b);
    assert HiNibble(b) as bv8 == b >> 4;
    assert LoNibble(b) as bv8 == b & 0x0F;
  }

  /** A run of packed BCD bytes read as one decimal number, most significant
      byte first; each byte contributes two digits. */
  function BcdValue(s: seq<byte>): nat
    decreases |s|
  {
    if s == [] then 0 else BcdValue(s[..|s| - 1]) * 100 + FromBcdToDec(s[|s| - 1])
  }

  /** Two-, three- and four-byte fields, digit weights written out. */
  lemma BcdValue2(s: seq<byte>)
    requires |s| == 2
    ensures BcdValue(s) == FromBcdToDec(s[0]) * 100 + FromBcdToDec(s[1])
  {
    var first := s[..1];
    assert first[..0] == [] && first[0] == s[0];
    assert BcdValue(first) == FromBcdToDec(s[0]);
  }

  lemma BcdValue3(s: seq<byte>)
    requires |s| == 3
    ensures BcdValue(s) == FromBcdToDec(s[0]) * 10000 + FromBcdToDec(s[1]) * 100 + FromBcdToDec(s[2])
  {
    BcdValue2(s[..2]);
  }

  lemma BcdValue4(s: seq<byte>)
    requires |s| == 4
    ensures BcdValue(s) == FromBcdToDec(s[0]) * 1000000 + FromBcdToDec(s[1]) * 10000
                         + FromBcdToDec(s[2]) * 100 + FromBcdToDec(s[3])
  {
    BcdValue3(s[..3]);
  }

  function Pow100(n: nat): (p: nat)
    ensures p >= 1
  {
    if n == 0 then 1 else 100 * Pow100(n - 1)
  }

  /** 1, 101, 10101, ...: the weight of an all-ones digit pattern. */
  function Repunit100(n: nat): nat {
    if n == 0 then 0 else 100 * Repunit100(n - 1) + 1
  }

  /** With arbitrary nibbles every byte contributes at most 165, so the value
      is at most 165 * 10101...01. */
  lemma {:induction false} BcdValueBound(s: seq<byte>)
    ensures BcdValue(s) <= 165 * Repunit100(|s|)
    decreases |s|
  {
    if s != [] {
      BcdValueBound(s[..|s| - 1]);
    }
  }

  /** The bounds for the two-, three- and four-byte fields of a response. */
  lemma FieldBounds(s: seq<byte>)
    ensures |s| == 2 ==> BcdValue(s) <= 16665
    ensures |s| == 3 ==> BcdValue(s) <= 1666665
    ensures |s| == 4 ==> BcdValue(s) <= 166666665
  {
    BcdValueBound(s);
    assert Repunit100(2) == 101 && Repunit100(3) == 10101 && Repunit100(4) == 1010101;
  }

  /** With valid BCD digits the value has at most 2 * |s| decimal digits. */
  lemma {:induction false} BcdValueValidBound(s: seq<byte>)
    requires IsBcd(s)
    ensures BcdValue(s) < Pow100(|s|)
    decreases |s|
  {
    if s != [] {
      IsBcdInit(s);
      BcdValueValidBound(s[..|s| - 1]);
    }
  }

  /** The `k` BCD bytes that carry the number `n`, most significant first. */
  function EncodeBcd(n: nat, k: nat): (s: seq<byte>)
    requires n < Pow100(k)
    ensures |s| == k
    decreases k
  {
    if k == 0 then [] else EncodeBcd(n / 100, k - 1) + [ToBcd(n % 100)]
  }

  /** Decoding what a meter encodes gives the number back. */
  lemma {:induction false} EncodeBcdRoundTrip(n: nat, k: nat)
    requires n < Pow100(k)
    ensures IsBcd(EncodeBcd(n, k)) && BcdValue(EncodeBcd(n, k)) == n
    decreases k
  {
    if k > 0 {
      var s := EncodeBcd(n, k);
      EncodeBcdRoundTrip(n / 100, k - 1);
      ToBcdRoundTrip(n % 100);
      assert s[..k - 1] == EncodeBcd(n / 100, k - 1);
      assert IsBcd(s) by {
        forall i | 0 <= i < k ensures IsBcdByte(s[i]) {
          if i < k - 1 { assert s[i] == s[..k - 1][i]; }
        }
      }
    }
  }

  /** The last byte of a valid run holds the two lowest decimal digits. */
  lemma BcdValueDivMod(s: seq<byte>)
    requires s != [] && IsBcdByte(s[|s| - 1])
    ensures BcdValue(s) / 100 == BcdValue(s[..|s| - 1])
    ensures BcdValue(s) % 100 == FromBcdToDec(s[|s| - 1])
  {
    var high, low := BcdValue(s[..|s| - 1]), FromBcdToDec(s[|s| - 1]);
    assert BcdValue(s) == high * 100 + low;
  }

  /** A stretch of a valid run is valid. */
  lemma IsBcdSub(frame: seq<byte>, lo: nat, hi: nat, i: nat, j: nat)
    requires lo <= i <= j <= hi <= |frame| && IsBcd(frame[lo..hi])
    ensures IsBcd(frame[i..j])
  {
    forall k | 0 <= k < j - i ensures IsBcdByte(frame[i..j][k]) {
      assert frame[i..j][k] == frame[lo..hi][i - lo + k];
    }
  }

  lemma IsBcdInit(s: seq<byte>)
    requires IsBcd(s) && s != []
    ensures IsBcd(s[..|s| - 1])
  {
    var init := s[..|s| - 1];
    forall i | 0 <= i < |init| ensures IsBcdByte(init[i]) { assert init[i] == s[i]; }
  }

  /** Every valid BCD run is the encoding of its own value: valid runs of one
      length decode to distinct numbers. */
  lemma {:induction false} DecodeBcdRoundTrip(s: seq<byte>)
    requires IsBcd(s)
    ensures BcdValue(s) < Pow100(|s|) && EncodeBcd(BcdValue(s), |s|) == s
    decreases |s|
  {
    BcdValueValidBound(s);
    if s != [] {
      IsBcdInit(s);
      DecodeBcdRoundTrip(s[..|s| - 1]);
      EncodeLast(s);
    }
  }

  /** The inductive step: re-encoding the last byte's two digits gives it back. */
  lemma EncodeLast(s: seq<byte>)
    requires s != [] && IsBcd(s) && BcdValue(s) < Pow100(|s|)
    requires EncodeBcd(BcdValue(s[..|s| - 1]), |s| - 1) == s[..|s| - 1]
    ensures EncodeBcd(BcdValue(s), |s|) == s
  {
    var k, n := |s|, BcdValue(s);
    var init, last := s[..k - 1], s[k - 1];
    BcdValueDivMod(s);
    FromBcdRoundTrip(last);
    assert EncodeBcd(n, k) == EncodeBcd(n / 100, k - 1) + [ToBcd(n % 100)];
    assert s == init + [last];
  }

  /** Concrete decodes: the byte 0x12 reads as 12 and the field
      00 12 34 56 as 123456. */
  lemma {:induction false} BcdExamples()
    ensures FromBcdToDec(0x12) == 12 && FromBcdToDec(0x00) == 0
    ensures BcdValue([0x00, 0x12, 0x34, 0x56]) == 123456
  {
    var s: seq<byte> := [0x00, 0x12, 0x34, 0x56];
    assert s[..1][..0] == [] && s[..2][..1] == s[..1] && s[..3][..2] == s[..2] && s[..3] == s[..|s| - 1];
    assert BcdValue(s[..1]) == 0;
    assert BcdValue(s[..2]) == 12;
    assert BcdValue(s[..3]) == 1234;
  }
}
