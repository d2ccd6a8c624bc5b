/**
 * read(2) and write(2) as hw5/src/csapp.c sees them. What a call does is decided by a schedule: it may be cut short, be
 * interrupted, or fail; when the schedule is used up calls transfer all they can.
 */
module Descriptors {
  newtype byte = x: int | 0 <= x < 256

  /** Short(k) transfers at most k + 1 bytes. */
  datatype Event = Short(more: nat) | Interrupted | Failure

  datatype Outcome = Moved(count: nat) | Again | Error

  predicate Faultless(events: seq<Event>)
  {
    Failure !in events
  }

  function Least(a: nat, b: nat): nat
  {
    if a < b then a else b
  }

  /** b with s in place of what is there from `at` on. */
  function Spliced(b: seq<byte>, at: nat, s: seq<byte>): (r: seq<byte>)
    requires at + |s| <= |b|
    ensures |r| == |b| && r[at..at + |s|] == s
  {
    b[..at] + s + b[at + |s|..]
  }

  lemma SplicedTwice(b: seq<byte>, at: nat, s: seq<byte>, t: seq<byte>)
    requires at + |s| + |t| <= |b|
    ensures Spliced(Spliced(b, at, s), at + |s|, t) == Spliced(b, at, s + t)
  {
  }

  class Descriptor {
    /** What is still to be read. */
    var input: seq<byte>
    /** What has been written. */
    var output: seq<byte>
    var events: seq<Event>

    constructor (input: seq<byte>, events: seq<Event>)
      ensures this.input == input && this.output == [] && this.events == events
    {
      this.input, this.output, this.events := input, [], events;
    }

    /** The first event of the schedule, off the schedule; how many of n bytes a call may transfer. */
    method Next(n: nat) returns (r: Outcome)
      requires n > 0
      modifies this`events
      ensures old(events) == [] ==> r == Moved(n) && events == []
      ensures old(events) != [] ==> events == old(events)[1..]
      ensures r.Error? ==> !Faultless(old(events))
      ensures r.Again? ==> old(events) != []
      ensures r.Moved? ==> 0 < r.count <= n
      ensures Faultless(old(events)) ==> Faultless(events)
    {
      if events == [] { return Moved(n); }
      r := match events[0] case Short(k) => Moved(Least(k + 1, n)) case Interrupted => Again case Failure => Error;
      events := events[1..];
    }

    /** read, of up to n bytes to buf from `at` on; nothing is moved only at the end of the input. */
    method Read(buf: array<byte>, at: nat, n: nat) returns (r: Outcome)
      requires 0 < n && at + n <= buf.Length
      modifies this`input, this`events, buf
      ensures r.Moved? ==>
        && r.count <= n && (r.count == 0 <==> old(input) == []) && r.count <= |old(input)|
        && input == old(input)[r.count..]
        && buf[..] == Spliced(old(buf[..]), at, old(input)[..r.count])
      ensures !r.Moved? ==> input == old(input) && buf[..] == old(buf[..])
      ensures r.Error? ==> !Faultless(old(events))
      ensures r.Again? ==> |events| < |old(events)|
      ensures |events| <= |old(events)| && (Faultless(old(events)) ==> Faultless(events))
    {
      r := Next(n);
      if !r.Moved? { return; }
      var k := Least(r.count, |input|);
      Copy(input[..k], buf, at);
      input := input[k..];
      r := Moved(k);
    }

    /** write, of up to n bytes from `at` on. */
    method Write(buf: array<byte>, at: nat, n: nat) returns (r: Outcome)
      requires 0 < n && at + n <= buf.Length
      modifies this`output, this`events
      ensures r.Moved? ==> 0 < r.count <= n && output == old(output) + buf[at..at + r.count]
      ensures !r.Moved? ==> output == old(output)
      ensures r.Error? ==> !Faultless(old(events))
      ensures r.Again? ==> |events| < |old(events)|
      ensures |events| <= |old(events)| && (Faultless(old(events)) ==> Faultless(events))
    {
      r := Next(n);
      if r.Moved? { output := output + buf[at..at + r.count]; }
    }
  }

  /** memcpy of s to buf from `at` on. */
  method Copy(s: seq<byte>, buf: array<byte>, at: nat)
    requires at + |s| <= buf.Length
    modifies buf
    ensures buf[..] == Spliced(old(buf[..]), at, s)
  {
    var i := 0;
    while i < |s|
      invariant i <= |s| && buf[..] == Spliced(old(buf[..]), at, s[..i])
    {
      buf[at + i] := s[i];
      i := i + 1;
    }
  }
}
