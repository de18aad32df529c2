/**
 The UDP transport driver: connect, send, receive, close, name and scan.

 The operating system's socket is abstracted: what the driver transmits is
 appended to a log of datagrams, what `recvfrom` delivers (a datagram or an
 `OSError`) is a parameter, and so is whether the OS lets `bind` and
 `connect` succeed.
 */
module UdpTransport {
  import opened CrtpFrame

  /** The peer named by a URI: the text after `udp://` (how it splits into host and port is not modelled). */
  type Address = string

  /** The exceptions the driver lets escape to its caller. */
  datatype Exception =
    | WrongUriType   // `connect` on a URI that does not start with `udp://`
    | IndexError     // `receive_packet` on the one-byte datagram [0x00]
    | OSError        // the OS refused to bind the local port or to associate the peer
    | NoSocket       // an operation on `self.socket` while it is `None`

  datatype Option<T> = None | Some(value: T)

  /** A Python call either returns a value or raises. */
  datatype Outcome<T> = Return(value: T) | Raise(error: Exception)

  /** What one `recvfrom` call gives. */
  datatype Reception = Arrived(bytes: seq<byte>) | RecvFailed

  /**
   The socket object: the peer it was created for and whether binding it to
   local port 2399 and associating it with the peer succeeded.
   */
  datatype Socket = Socket(peer: Address, ready: bool)

  /** One datagram handed to `sendto`. */
  datatype Datagram = Datagram(to: Address, bytes: seq<byte>)

  const UdpScheme: string := "udp://"

  /**
   The session-open control datagram. The literal is a Python 3 `str` whose
   first character is U+00FF; `encode()` writes it in UTF-8 as C3 BF.
   */
  const Handshake: seq<byte> := [0xC3, 0xBF, 0x01, 0x01, 0x01]

  /** The session-close control datagram, encoded the same way. */
  const Disconnect: seq<byte> := [0xC3, 0xBF, 0x01, 0x02, 0x02]

  /** The candidate URI that `scan_interface` offers. */
  const ScanUri: string := "udp://192.168.43.42:2390"

  /** The regular expression `^udp://`: the URI starts with the scheme. */
  predicate HasUdpScheme(uri: string)
  {
    |uri| >= |UdpScheme| && uri[..|UdpScheme|] == UdpScheme
  }

  function PeerOf(uri: string): Address
    requires HasUdpScheme(uri)
  {
    uri[|UdpScheme|..]
  }

  /** How `receive_packet` reports a decoded datagram to its caller. */
  function Deliver(d: Decoded): Outcome<Option<Packet>>
  {
    match d
    case Frame(p) => Return(Some(p))
    case Rejected => Return(None)
    case HeaderMissing => Raise(IndexError)
  }

  /** The name upper layers use for this transport; it is also the URI scheme. */
  function GetName(): (name: string)
    ensures name == "udp"
    ensures HasUdpScheme(name + "://")
  {
    "udp"
  }

  /** The stub scan: one fixed candidate whatever address is asked about. */
  function ScanInterface(address: string): (found: seq<(string, string)>)
    ensures found == [(ScanUri, "")]
    ensures forall k :: 0 <= k < |found| ==> HasUdpScheme(found[k].0)
  {
    [(ScanUri, "")]
  }

  /** This driver's own `Decode` rejects both control datagrams: neither passes for a data frame. */
  lemma ControlDatagramsAreNotFrames()
    ensures Decode(Handshake) == Rejected
    ensures Decode(Disconnect) == Rejected
  {
    var one: seq<byte> := [0xC3];
    var two: seq<byte> := one + [0xBF];
    var three: seq<byte> := two + [0x01];
    assert one[..0] == [] && two[..1] == one && three[..2] == two;
    assert Sum(one) == 0xC3;
    assert Sum(two) == 0xC3 + 0xBF;
    assert Sum(three) == 0xC3 + 0xBF + 0x01;
    var opening, closing := three + [0x01], three + [0x02];
    assert opening[..3] == three && closing[..3] == three;
    assert Handshake[..4] == opening && Disconnect[..4] == closing;
    assert Checksum(opening) == 0x84;
    assert Checksum(closing) == 0x85;
  }

  class UdpDriver {
    /** `self.socket`: `None` before `connect` and after `close`. */
    var socket: Option<Socket>
    /** `self.addr`: set by `connect`, kept after `close`. */
    var addr: Option<Address>
    /** Every datagram the driver has handed to `sendto`, oldest first. */
    var sent: seq<Datagram>

    /** A socket, once created, was created for the stored peer address. */
    ghost predicate Valid()
      reads this
    {
      socket.Some? ==> addr == Some(socket.value.peer)
    }

    constructor ()
      ensures Valid()
      ensures socket == None && addr == None && sent == []
    {
      socket := None;
      addr := None;
      sent := [];
    }

    /**
     `connect`: refuse a URI without the `udp://` scheme before anything
     changes; otherwise store a new socket and the peer address, bind and
     connect (which the OS may refuse, `osOk`), and send the handshake.
     */
    method Connect(uri: string, osOk: bool) returns (r: Outcome<()>)
      requires Valid()
      modifies this
      ensures Valid()
      ensures !HasUdpScheme(uri) ==>
        r == Raise(WrongUriType) && socket == old(socket) && addr == old(addr) && sent == old(sent)
      ensures HasUdpScheme(uri) ==>
        addr == Some(PeerOf(uri)) && socket == Some(Socket(PeerOf(uri), osOk))
      ensures HasUdpScheme(uri) && !osOk ==> r == Raise(OSError) && sent == old(sent)
      ensures HasUdpScheme(uri) && osOk ==>
        r == Return(()) && sent == old(sent) + [Datagram(PeerOf(uri), Handshake)]
    {
      if !HasUdpScheme(uri) {
        return Raise(WrongUriType);
      }
      var peer := PeerOf(uri);
      socket := Some(Socket(peer, false));
      addr := Some(peer);
      if !osOk {
        return Raise(OSError);
      }
      socket := Some(Socket(peer, true));
      sent := sent + [Datagram(peer, Handshake)];
      r := Return(());
    }

    /**
     `receive_packet`: one `recvfrom`; an `OSError` or an empty datagram is
     "no packet", otherwise the datagram is checked and split.
     */
    method ReceivePacket(incoming: Reception) returns (r: Outcome<Option<Packet>>)
      ensures socket.None? ==> r == Raise(NoSocket)
      ensures socket.Some? && incoming.RecvFailed? ==> r == Return(None)
      ensures socket.Some? && incoming.Arrived? ==> r == Deliver(Decode(incoming.bytes))
    {
      if socket.None? {
        return Raise(NoSocket);
      }
      if incoming.RecvFailed? {
        return Return(None);
      }
      var data := incoming.bytes;
      if |data| == 0 {
        return Return(None);
      }
      var cksumRecv := data[|data| - 1];
      data := data[..|data| - 1];
      var cksum := ComputeChecksum(data);
      if cksum != cksumRecv {
        return Return(None);
      }
      if |data| == 0 {
        return Raise(IndexError);
      }
      r := Return(Some(Packet(data[0], data[1..])));
    }

    /** `send_packet`: append the checksum and hand the frame to the socket. */
    method SendPacket(pk: Packet) returns (r: Outcome<()>)
      requires Valid()
      modifies this`sent
      ensures Valid()
      ensures socket.None? ==> r == Raise(NoSocket) && sent == old(sent)
      ensures socket.Some? ==> r == Return(()) && sent == old(sent) + [Datagram(socket.value.peer, Encode(pk))]
    {
      if socket.None? {
        return Raise(NoSocket);
      }
      var raw := [pk.header] + pk.data;
      var cksum := ComputeChecksum(raw);
      raw := raw + [cksum];
      sent := sent + [Datagram(addr.value, raw)];
      r := Return(());
    }

    /** `close`: send the disconnect datagram, then drop the socket. */
    method Close() returns (r: Outcome<()>)
      requires Valid()
      modifies this
      ensures Valid()
      ensures old(socket).None? ==>
        r == Raise(NoSocket) && socket == None && addr == old(addr) && sent == old(sent)
      ensures old(socket).Some? ==>
        r == Return(()) && socket == None && addr == old(addr)
        && sent == old(sent) + [Datagram(old(socket).value.peer, Disconnect)]
    {
      if socket.None? {
        return Raise(NoSocket);
      }
      sent := sent + [Datagram(addr.value, Disconnect)];
      socket := None;
      r := Return(());
    }
  }

  /**
   A whole session: connecting, sending one packet and closing puts exactly
   the handshake, the frame and the disconnect datagram on the wire, in order.
   */
  method Session(uri: string, pk: Packet) returns (log: seq<Datagram>)
    requires HasUdpScheme(uri)
    ensures log == [Datagram(PeerOf(uri), Handshake), Datagram(PeerOf(uri), Encode(pk)),
                    Datagram(PeerOf(uri), Disconnect)]
  {
    var driver := new UdpDriver();
    var _ := driver.Connect(uri, true);
    var _ := driver.SendPacket(pk);
    var _ := driver.Close();
    log := driver.sent;
  }
}
