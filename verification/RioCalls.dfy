/** Any interleaving of buffered reads by count and by line on one rio_t. */
module RioCalls {
  import opened Options
  import opened Sequences
  import opened Descriptors
  import opened Rio

  /** rio_readnb of n bytes, or rio_readlineb with that maxlen. */
  datatype Call = Bytes(n: nat) | Line(maxlen: nat)

  /** How much of s a call returns. */
  function Taken(s: seq<byte>, call: Call): (n: nat)
    ensures n <= |s|
  {
    match call
    case Bytes(n) => Least(n, |s|)
    case Line(maxlen) => LineLength(s, Limit(maxlen))
  }

  function Pieces(s: seq<byte>, calls: seq<Call>): (ps: seq<seq<byte>>)
    ensures |ps| == |calls|
  {
    if calls == [] then [] else [s[..Taken(s, calls[0])]] + Pieces(s[Taken(s, calls[0])..], calls[1..])
  }

  function Remainder(s: seq<byte>, calls: seq<Call>): seq<byte>
  {
    if calls == [] then s else Remainder(s[Taken(s, calls[0])..], calls[1..])
  }

  /** Nothing of the stream is lost, repeated or out of order. */
  lemma {:induction false} PiecesConsecutive(s: seq<byte>, calls: seq<Call>)
    ensures Flatten(Pieces(s, calls)) + Remainder(s, calls) == s
  {
    if calls != [] {
      var n := Taken(s, calls[0]);
      PiecesConsecutive(s[n..], calls[1..]);
      FlattenCons(s[..n], Pieces(s[n..], calls[1..]));
      assert s == s[..n] + s[n..];
    } else {
      assert Flatten(Pieces(s, calls)) == [];
    }
  }

  /** A line ends at the first newline, at the limit, or at the end of the stream, whichever comes first. */
  lemma {:induction false} LineEnds(s: seq<byte>, limit: nat)
    ensures var n := LineLength(s, limit);
      && NEWLINE !in s[..if n == 0 then 0 else n - 1]
      && (n == limit || n == |s| || (n > 0 && s[n-1] == NEWLINE))
    ensures forall i | 0 <= i < |s| && i < limit && s[i] == NEWLINE && NEWLINE !in s[..i] ::
      LineLength(s, limit) == i + 1
  {
    if limit > 0 && s != [] && s[0] != NEWLINE {
      LineEnds(s[1..], limit - 1);
      var n := LineLength(s, limit);
      assert n > 1 ==> s[..n-1] == [s[0]] + s[1..][..n-2];
      forall i | 0 <= i < |s| && i < limit && s[i] == NEWLINE && NEWLINE !in s[..i]
        ensures LineLength(s, limit) == i + 1
      {
        assert s[1..][i-1] == NEWLINE && s[..i] == [s[0]] + s[1..][..i-1];
      }
    }
  }

  predicate Fits(call: Call, length: nat)
  {
    match call case Bytes(n) => n <= length case Line(maxlen) => maxlen <= length && 1 <= length
  }

  method PerformCall(rio: RioBuffer, usrbuf: array<byte>, call: Call) returns (piece: seq<byte>)
    requires rio.Valid() && usrbuf != rio.buf && Fits(call, usrbuf.Length) && Faultless(rio.fd.events)
    modifies rio`cnt, rio`ptr, rio.buf, rio.fd`input, rio.fd`events, usrbuf
    ensures rio.Valid() && Faultless(rio.fd.events)
    ensures piece == old(rio.Stream())[..Taken(old(rio.Stream()), call)]
    ensures rio.Stream() == old(rio.Stream())[Taken(old(rio.Stream()), call)..]
  {
    ghost var s := rio.Stream();
    var r: Option<nat>;
    match call {
      case Bytes(n) => r := rio.ReadNB(usrbuf, n);
      case Line(maxlen) => r := rio.ReadLineB(usrbuf, maxlen);
    }
    piece := usrbuf[..r.value];
  }

  /** Whatever the schedule of short reads and interruptions, the calls return consecutive pieces of the stream. */
  method Perform(rio: RioBuffer, usrbuf: array<byte>, calls: seq<Call>) returns (pieces: seq<seq<byte>>)
    requires rio.Valid() && usrbuf != rio.buf && Faultless(rio.fd.events)
    requires forall call | call in calls :: Fits(call, usrbuf.Length)
    modifies rio`cnt, rio`ptr, rio.buf, rio.fd`input, rio.fd`events, usrbuf
    ensures pieces == Pieces(old(rio.Stream()), calls)
    ensures rio.Valid() && rio.Stream() == Remainder(old(rio.Stream()), calls)
  {
    hide Taken, Fits, Faultless;
    pieces := [];
    var i := 0;
    ghost var s := rio.Stream();
    while i < |calls|
      invariant i <= |calls| && rio.Valid() && Faultless(rio.fd.events)
      invariant pieces + Pieces(rio.Stream(), calls[i..]) == Pieces(s, calls)
      invariant Remainder(rio.Stream(), calls[i..]) == Remainder(s, calls)
    {
      assert calls[i..][0] == calls[i] && calls[i..][1..] == calls[i+1..];
      ghost var before := pieces;
      var piece := PerformCall(rio, usrbuf, calls[i]);
      pieces := pieces + [piece];
      assert before + ([piece] + Pieces(rio.Stream(), calls[i+1..])) == pieces + Pieces(rio.Stream(), calls[i+1..]);
      i := i + 1;
    }
    assert calls[i..] == [];
  }
}
