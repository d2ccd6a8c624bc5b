/** Whole conversations: a sequence of packets sent over one descriptor and received from another. */
module PacketStream {
  import opened Options
  import opened Descriptors
  import opened Rio
  import opened Protocol

  /** A packet as the caller has it, with its header in host order. */
  datatype Packet = Packet(header: seq<byte>, payload: seq<byte>)

  /** The payload is as long as the header says, and that is less than 2^31. */
  predicate Sendable(p: Packet)
  {
    |p.header| == HEADER && |p.payload| == PayloadSize(p.header) < 0x8000_0000
  }

  function Wire(p: Packet): seq<byte>
    requires Sendable(p)
  {
    Swapped(p.header) + p.payload
  }

  function WireAll(ps: seq<Packet>): seq<byte>
    requires forall p | p in ps :: Sendable(p)
  {
    if ps == [] then [] else Wire(ps[0]) + WireAll(ps[1..])
  }

  /** Receiving undoes sending, whatever the receiver's packet held before. */
  lemma ReceiveWire(p: Packet, rest: seq<byte>, pkt: seq<byte>)
    requires Sendable(p) && |pkt| == HEADER
    ensures Receive(Wire(p) + rest, pkt) == Received(p.header, p.payload, rest)
  {
    hide PayloadSize, HeaderOf, Swapped;
    HeaderBack(p, rest, pkt);
    Rest(Swapped(p.header), p.payload, rest);
  }

  lemma Rest(h: seq<byte>, payload: seq<byte>, rest: seq<byte>)
    ensures (h + payload + rest)[|h|..] == payload + rest
    ensures (payload + rest)[..|payload|] == payload && (payload + rest)[|payload|..] == rest
  {
  }

  lemma HeaderBack(p: Packet, rest: seq<byte>, pkt: seq<byte>)
    requires Sendable(p) && |pkt| == HEADER
    ensures HeaderOf(Wire(p) + rest, pkt) == p.header
  {
    hide Swapped, PayloadSize;
    var s := Wire(p) + rest;
    assert s[..HEADER] == Swapped(p.header);
    assert Spliced(pkt, 0, s[..HEADER]) == Swapped(p.header);
    SwappedTwice(p.header);
  }

  method Bytes(s: seq<byte>) returns (a: array<byte>)
    ensures fresh(a) && a[..] == s
  {
    a := new byte[|s|];
    Copy(s, a, 0);
  }

  method Send(fd: Descriptor, p: Packet) returns (ok: bool)
    requires Sendable(p)
    modifies fd`output, fd`events
    ensures ok ==> fd.output == old(fd.output) + Wire(p)
    ensures Faultless(old(fd.events)) ==> ok && Faultless(fd.events)
  {
    hide PayloadSize, Swapped, Faultless;
    var pkt := Bytes(p.header);
    var data := Bytes(p.payload);
    assert data[..|p.payload|] == p.payload;
    ok := SendPacket(fd, pkt, data);
    assert old(fd.output) + Swapped(p.header) + p.payload == old(fd.output) + Wire(p);
  }

  method SendAll(fd: Descriptor, ps: seq<Packet>) returns (ok: bool)
    requires forall p | p in ps :: Sendable(p)
    modifies fd`output, fd`events
    ensures ok ==> fd.output == old(fd.output) + WireAll(ps)
    ensures Faultless(old(fd.events)) ==> ok && Faultless(fd.events)
  {
    hide Sendable, Wire, Faultless;
    var i := 0;
    while i < |ps|
      invariant i <= |ps| && fd.output + WireAll(ps[i..]) == old(fd.output) + WireAll(ps)
      invariant Faultless(old(fd.events)) ==> Faultless(fd.events)
    {
      ghost var before := fd.output;
      assert ps[i..][0] == ps[i] && ps[i..][1..] == ps[i+1..];
      ok := Send(fd, ps[i]);
      if !ok { return; }
      assert before + (Wire(ps[i]) + WireAll(ps[i+1..])) == fd.output + WireAll(ps[i+1..]);
      i := i + 1;
    }
    assert ps[i..] == [] && fd.output + [] == fd.output;
    ok := true;
  }

  method ReceiveOne(fd: Descriptor, pkt: array<byte>, ghost p: Packet, ghost rest: seq<byte>) returns (ok: bool,
                    eio: bool, got: Packet)
    requires pkt.Length == HEADER && Faultless(fd.events)
    requires (fd.input == [] || (Sendable(p) && fd.input == Wire(p) + rest))
    modifies fd`input, fd`events, pkt
    ensures Faultless(fd.events) && eio == !ok && ok == (old(fd.input) != [])
    ensures ok ==> got == p && fd.input == rest
  {
    hide PayloadSize, Faultless, Wire;
    if fd.input != [] { ReceiveWire(p, rest, pkt[..]); }
    var datap;
    ok, eio, datap := ReceivePacket(fd, pkt);
    got := Packet(pkt[..], if datap == null then [] else datap[..]);
    if ok { assert |p.payload| == PayloadSize(p.header); assert datap != null ==> datap[..|p.payload|] == datap[..]; }
  }

  /** Receives until the end of the stream; eio tells that the last call reported it. */
  method ReceiveAll(fd: Descriptor, ghost ps: seq<Packet>) returns (got: seq<Packet>, eio: bool)
    requires forall p | p in ps :: Sendable(p)
    requires Faultless(fd.events) && fd.input == WireAll(ps)
    modifies fd`input, fd`events
    ensures got == ps && eio
  {
    hide Sendable, Wire, Faultless;
    var pkt := new byte[HEADER];
    got := [];
    ghost var i := 0;
    while true
      invariant i <= |ps| && got == ps[..i] && fd.input == WireAll(ps[i..]) && Faultless(fd.events)
      decreases |ps| - i
    {
      ghost var p, rest := Packet([], []), [];
      if i < |ps| {
        assert ps[i..][0] == ps[i] && ps[i..][1..] == ps[i+1..];
        p, rest := ps[i], WireAll(ps[i+1..]);
        WireLong(p);
      } else {
        assert ps[i..] == [];
      }
      var ok, e, next := ReceiveOne(fd, pkt, p, rest);
      if !ok { return got, e; }
      got := got + [next];
      i := i + 1;
    }
  }

  lemma WireLong(p: Packet)
    requires Sendable(p)
    ensures |Wire(p)| >= HEADER
  {
  }

  /**
   * Whatever the schedules of short transfers and interruptions on either side, what is received is what was sent, in
   * order, and then the end of the stream is reported.
   */
  method Transmit(ps: seq<Packet>, sending: seq<Event>, receiving: seq<Event>) returns (got: seq<Packet>, eio: bool)
    requires (forall p | p in ps :: Sendable(p)) && Faultless(sending) && Faultless(receiving)
    ensures got == ps && eio
  {
    hide Sendable, Wire;
    var out := new Descriptor([], sending);
    var _ := SendAll(out, ps);
    assert [] + WireAll(ps) == WireAll(ps);
    var back := new Descriptor(out.output, receiving);
    got, eio := ReceiveAll(back, ps);
  }
}
