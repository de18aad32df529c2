/**
 The CRTP-over-UDP frame codec of the Crazyflie UDP driver.

 A frame carries one CRTP packet: its header byte, its payload bytes, and one
 trailing checksum byte that is the sum of all the preceding bytes modulo 256.
 */
module CrtpFrame {

  /** A byte as Python sees it when it iterates over `bytes`: an int in 0..255. */
  type byte = b: int | 0 <= b < 256

  /** A CRTP packet as this driver sees it: an opaque header byte and its data. */
  datatype Packet = Packet(header: byte, data: seq<byte>)

  /** What decoding one received datagram gives. */
  datatype Decoded =
    | Frame(packet: Packet)   // checksum matches and a header byte is present
    | Rejected                // empty datagram, or the checksum does not match
    | HeaderMissing           // checksum matches but nothing precedes it: `data[0]` fails

  /** The plain sum of the bytes, accumulated left to right. */
  function Sum(s: seq<byte>): nat
  {
    if |s| == 0 then 0 else Sum(s[..|s| - 1]) + s[|s| - 1]
  }

  /** The 8-bit additive checksum of a sequence of bytes. */
  function Checksum(s: seq<byte>): byte
  {
    Sum(s) % 256
  }

  /** A datagram whose last byte is the checksum of the bytes before it. */
  predicate ChecksumValid(d: seq<byte>)
  {
    |d| > 0 && d[|d| - 1] == Checksum(d[..|d| - 1])
  }

  /**
   The accumulator loop of `send_packet` and `receive_packet`: add every byte
   to an unbounded integer, then reduce modulo 256 once at the end.
   */
  method ComputeChecksum(data: seq<byte>) returns (cksum: int)
    ensures 0 <= cksum < 256
    ensures cksum == Checksum(data)
  {
    var acc: int := 0;
    for k := 0 to |data|
      invariant acc == Sum(data[..k])
    {
      assert data[..k + 1][..k] == data[..k];
      acc := acc + data[k];
    }
    assert data[..|data|] == data;
    cksum := acc % 256;
  }

  /** The datagram `send_packet` transmits for packet `p`. */
  function Encode(p: Packet): (frame: seq<byte>)
    ensures |frame| == |p.data| + 2
    ensures frame[0] == p.header && frame[1..|frame| - 1] == p.data
    ensures ChecksumValid(frame)
  {
    var raw := [p.header] + p.data;
    assert (raw + [Checksum(raw)])[..|raw|] == raw;
    raw + [Checksum(raw)]
  }

  /** What `receive_packet` makes of a datagram it has received. */
  function Decode(d: seq<byte>): (r: Decoded)
    ensures r == Rejected <==> !ChecksumValid(d)
    ensures r == HeaderMissing <==> d == [0]
    ensures r.Frame? <==> |d| >= 2 && ChecksumValid(d)
    ensures r.Frame? ==> r.packet == Packet(d[0], d[1..|d| - 1])
  {
    if |d| == 0 then Rejected
    else
      var received := d[|d| - 1];
      var body := d[..|d| - 1];
      if Checksum(body) != received then Rejected
      else if |body| == 0 then HeaderMissing
      else Frame(Packet(body[0], body[1..]))
  }

  /** Replacing one byte changes the sum by exactly the difference of the two bytes. */
  lemma {:induction false} SumUpdate(s: seq<byte>, i: nat, b: byte)
    requires i < |s|
    ensures Sum(s[i := b]) == Sum(s) - s[i] + b
  {
    var n := |s|;
    var t := s[i := b];
    if i == n - 1 {
      assert t[..n - 1] == s[..n - 1];
    } else {
      assert t[..n - 1] == s[..n - 1][i := b];
      SumUpdate(s[..n - 1], i, b);
    }
  }

  /** The additive checksum catches every change of a single byte. */
  lemma ChecksumDetectsSingleByteChange(s: seq<byte>, i: nat, b: byte)
    requires i < |s| && b != s[i]
    ensures Checksum(s[i := b]) != Checksum(s)
  {
    SumUpdate(s, i, b);
  }

  /** Round trip: the receiver gets back exactly the packet that was sent. */
  lemma DecodeEncode(p: Packet)
    ensures Decode(Encode(p)) == Frame(p)
  {
  }

  /** Every accepted datagram is the encoding of the packet it decodes to. */
  lemma EncodeDecode(d: seq<byte>)
    requires Decode(d).Frame?
    ensures Encode(Decode(d).packet) == d
  {
    var p := Decode(d).packet;
    var e := Encode(p);
    assert |e| == |d|;
    forall k | 0 <= k < |d| ensures e[k] == d[k] {
      if k == 0 {
      } else if k < |d| - 1 {
        assert e[k] == e[1..|e| - 1][k - 1];
      } else {
        assert e[..|e| - 1] == d[..|d| - 1] by {
          forall j | 0 <= j < |d| - 1 ensures e[j] == d[j] {
            if j > 0 { assert e[j] == e[1..|e| - 1][j - 1]; }
          }
        }
      }
    }
  }

  /** Corrupting any one byte of an encoded frame makes the receiver drop it. */
  lemma CorruptedFrameRejected(p: Packet, i: nat, b: byte)
    requires i < |Encode(p)| && b != Encode(p)[i]
    ensures Decode(Encode(p)[i := b]) == Rejected
  {
    var e := Encode(p);
    var n := |e|;
    var c := e[i := b];
    if i == n - 1 {
      assert c[..n - 1] == e[..n - 1];
    } else {
      assert c[..n - 1] == e[..n - 1][i := b];
      ChecksumDetectsSingleByteChange(e[..n - 1], i, b);
    }
  }
}
