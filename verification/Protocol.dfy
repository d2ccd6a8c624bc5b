/**
 * hw5/src/protocol.c: packets over a descriptor. An XACTO_PACKET is 16 bytes: type, status, null and one of padding,
 * then size, seconds and nanoseconds of four bytes each, least significant first in host order.
 */
module Protocol {
  import opened Options
  import opened Descriptors
  import opened Rio

  const HEADER: nat := 16
  const DATA_PKT: byte := 3

  /** The header with its three numbers in the other byte order. */
  function Swapped(h: seq<byte>): (r: seq<byte>)
    requires |h| == HEADER
    ensures |r| == HEADER
  {
    h[..4] + [h[7], h[6], h[5], h[4]] + [h[11], h[10], h[9], h[8]] + [h[15], h[14], h[13], h[12]]
  }

  lemma SwappedTwice(h: seq<byte>)
    requires |h| == HEADER
    ensures Swapped(Swapped(h)) == h
  {
  }

  /** The value of four bytes in network order, the most significant first. */
  function BigEndian(s: seq<byte>): nat
    requires |s| == 4
  {
    0x100_0000 * s[0] as nat + 0x1_0000 * s[1] as nat + 0x100 * s[2] as nat + s[3] as nat
  }

  /** And in host order, the least significant first. */
  function LittleEndian(s: seq<byte>): nat
    requires |s| == 4
  {
    s[0] as nat + 0x100 * s[1] as nat + 0x1_0000 * s[2] as nat + 0x100_0000 * s[3] as nat
  }

  /**
   * w is what goes over the wire for the header h: size, seconds and nanoseconds with the most significant byte first.
   */
  predicate NetworkForm(h: seq<byte>, w: seq<byte>)
  {
    && |h| == HEADER && |w| == HEADER && w[..4] == h[..4]
    && BigEndian(w[4..8]) == LittleEndian(h[4..8]) && BigEndian(w[8..12]) == LittleEndian(h[8..12])
    && BigEndian(w[12..16]) == LittleEndian(h[12..16])
  }

  lemma SameNumber(h: seq<byte>, w: seq<byte>)
    requires |h| == |w| == 4
    ensures BigEndian(w) == LittleEndian(h) <==> w == [h[3], h[2], h[1], h[0]]
  {
  }

  /** htonl on the three numbers yields that form, and nothing else does. */
  lemma SwappedIsNetworkForm(h: seq<byte>, w: seq<byte>)
    requires |h| == HEADER
    ensures NetworkForm(h, w) <==> w == Swapped(h)
    ensures SizeOf(h) == LittleEndian(h[4..8])
  {
    hide BigEndian;
    if |w| == HEADER {
      SameNumber(h[4..8], w[4..8]);
      SameNumber(h[8..12], w[8..12]);
      SameNumber(h[12..16], w[12..16]);
      assert w == w[..4] + w[4..8] + w[8..12] + w[12..16];
      var s := Swapped(h);
      assert s == s[..4] + s[4..8] + s[8..12] + s[12..16];
      assert s[4..8] == [h[7], h[6], h[5], h[4]] && s[8..12] == [h[11], h[10], h[9], h[8]];
      assert s[12..16] == [h[15], h[14], h[13], h[12]];
    }
  }

  /** The size field, in host order. */
  function SizeOf(h: seq<byte>): nat
    requires |h| == HEADER
  {
    h[4] as nat + 0x100 * h[5] as nat + 0x1_0000 * h[6] as nat + 0x100_0000 * h[7] as nat
  }

  /** How long the payload is that goes with a header in host order: only data packets have one. */
  function PayloadSize(h: seq<byte>): nat
    requires |h| == HEADER
  {
    if h[0] == DATA_PKT then SizeOf(h) else 0
  }

  /** htonl and ntohl on the four bytes at `at`. */
  method ByteSwap(pkt: array<byte>, at: nat)
    requires at + 4 <= pkt.Length
    modifies pkt
    ensures pkt[..] == Spliced(old(pkt[..]), at, old([pkt[at+3], pkt[at+2], pkt[at+1], pkt[at]]))
  {
    pkt[at], pkt[at+1], pkt[at+2], pkt[at+3] := pkt[at+3], pkt[at+2], pkt[at+1], pkt[at];
  }

  method SwapHeader(pkt: array<byte>)
    requires pkt.Length == HEADER
    modifies pkt
    ensures pkt[..] == Swapped(old(pkt[..])) && NetworkForm(old(pkt[..]), pkt[..])
  {
    SwappedIsNetworkForm(pkt[..], Swapped(pkt[..]));
    ByteSwap(pkt, 4);
    ByteSwap(pkt, 8);
    ByteSwap(pkt, 12);
  }

  lemma WireParts(before: seq<byte>, head: seq<byte>, payload: seq<byte>)
    ensures var w := (before + head + payload)[|before|..];
      |w| == |head| + |payload| && w[..|head|] == head && w[|head|..] == payload
  {
  }

  /** proto_send_packet; the packet is left in network byte order. */
  method SendPacket(fd: Descriptor, pkt: array<byte>, data: array<byte>) returns (ok: bool)
    requires pkt.Length == HEADER && PayloadSize(pkt[..]) <= data.Length && PayloadSize(pkt[..]) < 0x8000_0000
    requires data != pkt
    modifies fd`output, fd`events, pkt
    ensures ok ==> fd.output == old(fd.output) + Swapped(old(pkt[..])) + old(data[..PayloadSize(pkt[..])])
    ensures pkt[..] == Swapped(old(pkt[..]))
    ensures ok ==> var w := fd.output[|old(fd.output)|..];
      && |w| >= HEADER && NetworkForm(old(pkt[..]), w[..HEADER])
      && w[HEADER..] == old(data[..if pkt[0] == 3 then LittleEndian(pkt[4..8]) else 0])
    ensures Faultless(old(fd.events)) ==> ok && Faultless(fd.events)
  {
    hide NetworkForm, Swapped;
    SwappedIsNetworkForm(pkt[..], Swapped(pkt[..]));
    WireParts(fd.output, Swapped(pkt[..]), data[..PayloadSize(pkt[..])]);
    assert pkt[..][4..8] == pkt[4..8];
    var size := SizeOf(pkt[..]);
    SwapHeader(pkt);
    assert pkt[0] == old(pkt[0]);
    var n := WriteN(fd, pkt, HEADER);
    assert pkt[..HEADER] == pkt[..];
    if n.None? { return false; }
    if pkt[0] == DATA_PKT && size != 0 {
      n := WriteN(fd, data, size);
      if n.None? { return false; }
    }
    return true;
  }

  /** What proto_recv_packet makes of a stream: the header, in host order, the payload, and what is left. */
  datatype Received = EndOfStream | Oversize | Received(header: seq<byte>, payload: seq<byte>, rest: seq<byte>)

  /** The header at the start of a stream; one cut off by the end leaves the end of the caller's packet as it was. */
  function HeaderOf(s: seq<byte>, pkt: seq<byte>): (h: seq<byte>)
    requires |pkt| == HEADER
    ensures |h| == HEADER
  {
    Swapped(Spliced(pkt, 0, s[..Least(HEADER, |s|)]))
  }

  /** The count of payload bytes is kept in an int, which turns negative at half of the range of the size. */
  function Receive(s: seq<byte>, pkt: seq<byte>): Received
    requires |pkt| == HEADER
  {
    if s == [] then EndOfStream
    else
      var h, k := HeaderOf(s, pkt), Least(HEADER, |s|);
      var n := Least(PayloadSize(h), |s| - k);
      if n >= 0x8000_0000 then Oversize else Received(h, s[k..][..n], s[k..][n..])
  }

  /** The first part of proto_recv_packet: 1 for a header, 0 at the end of the stream, -1 on a failure. */
  method ReceiveHeader(fd: Descriptor, pkt: array<byte>) returns (r: int)
    requires pkt.Length == HEADER
    modifies fd`input, fd`events, pkt
    ensures r == 0 ==> old(fd.input) == []
    ensures r == 1 ==>
      && old(fd.input) != [] && pkt[..] == HeaderOf(old(fd.input), old(pkt[..]))
      && fd.input == old(fd.input)[Least(HEADER, |old(fd.input)|)..]
    ensures r == 1 ==>
      var k := Least(HEADER, |old(fd.input)|);
      NetworkForm(pkt[..], old(fd.input)[..k] + old(pkt[..])[k..])
    ensures -1 <= r <= 1
    ensures (Faultless(old(fd.events)) ==> Faultless(fd.events) && r == if old(fd.input) == [] then 0 else 1)
  {
    var n := ReadN(fd, pkt, HEADER);
    if n.None? { return -1; }
    if n.value == 0 { return 0; }
    hide NetworkForm;
    ghost var w := pkt[..];
    SwapHeader(pkt);
    SwappedTwice(w);
    SwappedIsNetworkForm(pkt[..], w);
    return 1;
  }

  /** The payload, into a new buffer; None if fewer bytes than an int can count cannot be read. */
  method ReceivePayload(fd: Descriptor, size: nat) returns (r: Option<nat>, buf: array<byte>)
    modifies fd`input, fd`events
    ensures fresh(buf) && buf.Length == size
    ensures var n := Least(size, |old(fd.input)|);
      && (r.Some? ==> n < 0x8000_0000 && buf[..n] == old(fd.input)[..n] && fd.input == old(fd.input)[n..])
      && (Faultless(old(fd.events)) ==> Faultless(fd.events) && (r.Some? <==> n < 0x8000_0000))
  {
    buf := new byte[size];
    r := ReadN(fd, buf, size);
    if r.Some? && r.value >= 0x8000_0000 { r := None; }
  }

  /**
   * The stream s starts with the header h in network form, the bytes it lacks being those of pkt, and goes on with the
   * payload that is in data, or what there is of it; rest is left.
   */
  predicate WireForm(s: seq<byte>, pkt: seq<byte>, h: seq<byte>, data: seq<byte>, rest: seq<byte>)
    requires |pkt| == HEADER
  {
    var k := Least(HEADER, |s|);
    && NetworkForm(h, s[..k] + pkt[k..])
    && |data| == (if h[0] == 3 then LittleEndian(h[4..8]) else 0)
    && var n := Least(|data|, |s| - k);
      data[..n] == s[k..][..n] && rest == s[k..][n..]
  }

  /**
   * proto_recv_packet: -1 with errno 5 at the end of the stream; a payload buffer only for a data packet of size not
   * 0.
   */
  method ReceivePacket(fd: Descriptor, pkt: array<byte>) returns (ok: bool, eio: bool, datap: array?<byte>)
    requires pkt.Length == HEADER
    modifies fd`input, fd`events, pkt
    ensures eio ==> !ok && old(fd.input) == []
    ensures ok ==> var r := Receive(old(fd.input), old(pkt[..]));
      && r.Received? && pkt[..] == r.header && fd.input == r.rest
      && (datap == null <==> PayloadSize(r.header) == 0)
      && (datap != null ==> fresh(datap) && datap.Length == PayloadSize(r.header) && datap[..|r.payload|] == r.payload)
    ensures ok ==>
      WireForm(old(fd.input), old(pkt[..]), pkt[..], if datap == null then [] else datap[..], fd.input)
    ensures Faultless(old(fd.events)) ==>
      && Faultless(fd.events)
      && ok == Receive(old(fd.input), old(pkt[..])).Received?
      && eio == Receive(old(fd.input), old(pkt[..])).EndOfStream?
  {
    hide HeaderOf, SizeOf, Faultless, NetworkForm, LittleEndian;
    datap := null;
    var n := ReceiveHeader(fd, pkt);
    if n < 0 { return false, false, null; }
    if n == 0 { return false, true, null; }
    SwappedIsNetworkForm(pkt[..], pkt[..]);
    assert pkt[..][4..8] == pkt[4..8];
    if pkt[0] == DATA_PKT && SizeOf(pkt[..]) != 0 {
      var m, buf := ReceivePayload(fd, SizeOf(pkt[..]));
      if m.None? { return false, false, buf; }
      return true, false, buf;
    }
    return true, false, null;
  }
}
