/** The serial port the meter is attached to (`HalUARTRead` / `HalUARTWrite`
    on `MERCURY_PORT`). The HAL itself is not part of this model: the port is
    an input byte stream that reads consume from the front, and a log of the
    buffers written to it, oldest first. */
module Uart {
  import opened CTypes

  /** What a zero-initialised buffer of `len` bytes holds after one read from
      a port whose pending input is `rx`: the bytes that have arrived, then
      the zeros the read did not overwrite. */
  function Received(rx: seq<byte>, len: nat): (frame: seq<byte>)
    ensures |frame| == len
    ensures forall i :: 0 <= i < len ==> frame[i] == if i < |rx| then rx[i] else 0
  {
    if len <= |rx| then rx[..len] else rx + Zeros(len - |rx|)
  }

  /** The pending input left after one read of `len` bytes. */
  function Consumed(rx: seq<byte>, len: nat): (rest: seq<byte>)
    ensures |rest| == if len <= |rx| then |rx| - len else 0
    ensures rest == rx[|rx| - |rest|..]
  {
    rx[Min(len, |rx|)..]
  }

  lemma ConsumedTwice(rx: seq<byte>, a: nat, b: nat)
    ensures Consumed(Consumed(rx, a), b) == Consumed(rx, a + b)
  {
  }

  /** A read of `len` bytes into a zeroed buffer leaves exactly `Received` in it. */
  lemma ReadIntoZeros(rx: seq<byte>, len: nat, n: nat, buf: seq<byte>)
    requires |buf| == len && n == Min(len, |rx|)
    requires buf[..n] == rx[..n] && buf[n..] == Zeros(len - n)
    ensures buf == Received(rx, len)
  {
    forall i | 0 <= i < len ensures buf[i] == Received(rx, len)[i] {
      if i < n { assert buf[i] == buf[..n][i]; } else { assert buf[i] == buf[n..][i - n]; }
    }
  }

  class SerialPort {
    /** Bytes that have arrived and not yet been read. */
    var rx: seq<byte>
    /** Every buffer written, in order. */
    var tx: seq<seq<byte>>

    constructor (input: seq<byte>)
      ensures rx == input && tx == []
    {
      rx := input;
      tx := [];
    }

    /** `HalUARTRead(port, buf, len)`: copies at most `len` pending bytes to
        the front of `buf`, leaves the rest of `buf` alone, returns the count. */
    method Read(buf: array<byte>, len: nat) returns (n: nat)
      requires len <= buf.Length
      modifies this, buf
      ensures n == Min(len, |old(rx)|)
      ensures buf[..n] == old(rx)[..n] && buf[n..] == old(buf[n..])
      ensures rx == Consumed(old(rx), len) && tx == old(tx)
    {
      n := Min(len, |rx|);
      forall i | 0 <= i < n {
        buf[i] := rx[i];
      }
      rx := rx[n..];
    }

    /** `HalUARTWrite(port, buf, len)`: the first `len` bytes of `buf` go out
        as one write. */
    method Write(buf: array<byte>, len: nat)
      requires len <= buf.Length
      modifies this
      ensures tx == old(tx) + [buf[..len]] && rx == old(rx)
    {
      tx := tx + [buf[..len]];
    }
  }
}
