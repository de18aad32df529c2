# Crazyflie CRTP UDP driver — Dafny model

This project models the UDP transport driver of the Crazyflie Python library
(`cflib/crtp/udpdriver.py`). The driver carries CRTP packets between a client
and a UDP peer. It covers two parts:

- **The frame codec** (module `CrtpFrame`). A frame is the packet's header byte,
  then its payload bytes, then one checksum byte. The checksum is the sum of all
  preceding bytes modulo 256. `send_packet` builds frames and `receive_packet`
  checks and splits them. The accumulator loops of both are the method
  `ComputeChecksum`. `Encode` and `Decode` are the functions the driver methods are proved against.
  The lemmas prove these facts:
  - Decoding an encoded frame gives back the packet.
  - Every accepted datagram is the encoding of its packet.
  - Changing any single byte of a frame makes the receiver drop it.
- **The driver lifecycle** (module `UdpTransport`). The class `UdpDriver` has the
  source's `socket` and `addr` fields. The socket itself is abstract:
  - Every datagram passed to `sendto` is appended to the log `sent`.
  - What `recvfrom` delivers is a parameter: a datagram, or an `OSError`.
  - Whether the OS accepts `bind` and `connect` is also a parameter.
  - Python exceptions that escape to the caller become `Raise(...)` outcomes.

Behaviour of the code worth noting:

- **Control datagram size.** The handshake and disconnect datagrams are written
  as `'\xFF\x01\x01\x01'.encode()` and `'\xFF\x01\x02\x02'.encode()`
  (lines 62 and 115). The literals look like the 4 bytes `FF 01 01 01` and
  `FF 01 02 02`. But `str.encode()` uses UTF-8, which writes U+00FF as the two
  bytes C3 BF, so each datagram has 5 bytes:
  - handshake: `C3 BF 01 01 01`
  - disconnect: `C3 BF 01 02 02`

  The model uses the 5-byte values. Neither passes this driver's frame checksum
  (`ControlDatagramsAreNotFrames`). The 4-byte `FF 01 01 01` would pass it:
  0xFF + 0x01 + 0x01 = 0x101, which is 0x01 modulo 256.
- **The empty datagram and the one-byte datagram `[0x00]`.** `if data:` (line 76)
  guards the empty datagram, which gives `None`. The datagram `[0x00]` passes the
  checksum, because the empty prefix sums to 0. Line 90 then reads `data[0]` on an
  empty sequence, so Python raises `IndexError`. The model returns
  `Raise(IndexError)` and not a packet.
- **A failed bind keeps the new fields.** `self.socket` and `self.addr` are
  assigned at lines 56-57, before `bind` (line 59) and `connect` (line 60). So
  after a refused `bind` or `connect` the driver holds the new, unready socket and
  the new address, and no handshake is sent.

## Model

| member | source | states |
|---|---|---|
| CrtpFrame.ComputeChecksum | cflib/crtp/udpdriver.py:82-85 | the accumulator loop yields a value in 0..255 equal to the sum of all bytes modulo 256 |
| CrtpFrame.Encode | cflib/crtp/udpdriver.py:100-107 | the sent frame is 2 bytes longer than the payload, starts with the header, carries the payload unchanged and in order, and ends with a valid checksum |
| CrtpFrame.Decode | cflib/crtp/udpdriver.py:76-97 | a datagram is dropped exactly when it is empty or its last byte is not the checksum of the rest; `[0x00]` is exactly the datagram that passes the check without a header (IndexError); a packet is produced exactly for checksum-valid datagrams of length at least 2, with header = first byte and payload = the bytes strictly between the first byte and the checksum |
| CrtpFrame.SumUpdate | cflib/crtp/udpdriver.py:101-104 | replacing one byte changes the accumulated sum by exactly the difference of the new and old byte |
| CrtpFrame.ChecksumDetectsSingleByteChange | cflib/crtp/udpdriver.py:82-89 | changing a single byte of the checksummed bytes always changes the 8-bit checksum |
| CrtpFrame.DecodeEncode | cflib/crtp/udpdriver.py:76-107 | round trip: decoding the frame that `send_packet` builds yields the same header and the same payload |
| CrtpFrame.EncodeDecode | cflib/crtp/udpdriver.py:76-107 | every datagram the receiver accepts is exactly the encoding of the packet it decodes to |
| CrtpFrame.CorruptedFrameRejected | cflib/crtp/udpdriver.py:78-89 | an encoded frame with any one byte changed (checksum byte included) is dropped by the receiver |
| UdpTransport.GetName | cflib/crtp/udpdriver.py:123-124 | the name is always `udp`, which is also the URI scheme `connect` accepts |
| UdpTransport.ScanInterface | cflib/crtp/udpdriver.py:126-128 | whatever the address, the scan returns the single entry (`udp://192.168.43.42:2390`, empty description), and the URI it offers is one `connect` accepts |
| UdpTransport.ControlDatagramsAreNotFrames | cflib/crtp/udpdriver.py:62 | the UTF-8-encoded handshake and disconnect datagrams fail the frame checksum, so this driver's own `Decode` rejects them as data frames (the peer's code is not part of this model) |
| UdpTransport.UdpDriver.constructor | cflib/crtp/udpdriver.py:43-48 | a new driver has no socket, no address and has sent nothing |
| UdpTransport.UdpDriver.Connect | cflib/crtp/udpdriver.py:50-62 | a URI without the `udp://` prefix raises WrongUriType and changes nothing; otherwise (for URIs whose host and port parse, see Left out) the socket and the peer address are stored; if the OS refuses bind/connect, OSError is raised and nothing is sent; else exactly one handshake datagram is sent to the peer |
| UdpTransport.UdpDriver.ReceivePacket | cflib/crtp/udpdriver.py:68-97 | with no socket the call raises; a receive-side OSError gives `None`; a datagram gives what `Decode` says (packet, `None`, or IndexError for `[0x00]`) |
| UdpTransport.UdpDriver.SendPacket | cflib/crtp/udpdriver.py:99-108 | with a socket, exactly one datagram is sent to the peer and it is the encoded frame of the packet; with no socket, the call raises and nothing is sent |
| UdpTransport.UdpDriver.Close | cflib/crtp/udpdriver.py:113-121 | with a socket, the disconnect datagram is sent to the peer, then the socket is `None` and the address is kept; with no socket, the call raises and nothing changes |
| UdpTransport.Session | cflib/crtp/udpdriver.py:50-121 | when bind and connect succeed, connect on a `udp://` URI, one send and close put exactly the handshake, the frame and the disconnect datagram on the wire, in that order |

## Left out

- Real socket operations are not modelled: creating the socket, `bind(('', 2399))`, `connect`, `sendto`, `recvfrom(1024)` and `close`. They are replaced by the `sent` log, the `Reception` parameter and the `osOk` flag. Truncation of datagrams longer than 1024 bytes by `recvfrom` is not modelled. A failing `sendto` is not modelled either; in the source it would propagate to the caller.
- How `urlparse` splits the URI into hostname and port is not modelled. The peer address is the text after `udp://`. Only the `^udp://` prefix check is modelled.
- `time.sleep(1)` in `close` is timing only and is not modelled.
- The `debug` flag, its prints and the `binascii.hexlify` traces are observability only and are not modelled.
- The stored link-quality and link-error callbacks and the `needs_resending` flag are never used by this driver, so they are not modelled.
- How `CRTPPacket` builds `header` from port and channel is not modelled: `crtpstack` is not part of this model. The header is an opaque byte and the payload a byte sequence. Values outside 0..255, for which `bytearray` would raise, are excluded by the `byte` type.
- The unused `time` parameter of `receive_packet` is not modelled. Blocking, timeouts and a concurrent `close` during `receive` are not modelled either.
- The `NoSocket` outcome stands for the `AttributeError` raised on `self.socket` when it is `None`. Before the first `connect` the attribute may not exist at all, because `CRTPDriver.__init__` is not part of this model. The model treats that case the same way.
- `UdpTransport.UdpDriver.Connect`: bind failure and connect failure are merged into one `osOk` flag. A socket that bound but failed to connect is therefore recorded as not ready.
- `UdpTransport.UdpDriver.Connect`: URIs that have the `udp://` prefix but whose host or port do not parse are not modelled; the model treats them as usable peers. For example, `udp://h:abc` raises ValueError at line 57 (`parse.port`). Line 56 has already replaced `self.socket`, but `self.addr` keeps its old value, so a later `send_packet` would go to the old peer. The object invariant `Valid()` cannot represent that state. Another example is `udp://`, which raises TypeError at line 60 (`connect((None, None))`). The model instead succeeds and logs the handshake to the empty peer.
