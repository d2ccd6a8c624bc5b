/** hw5/src/csapp.c: robust input and output, unbuffered and through the buffer of a rio_t. */
module Rio {
  import opened Options
  import opened Descriptors

  /** k more bytes of s in b, after the first `got`. */
  lemma ReadStep(b: seq<byte>, s: seq<byte>, got: nat, k: nat)
    requires got + k <= |b| && got + k <= |s|
    ensures Spliced(Spliced(b, 0, s[..got]), got, s[got..][..k]) == Spliced(b, 0, s[..got + k])
    ensures s[got..][k..] == s[got + k..]
  {
    hide Spliced;
    Rejoined(s, got, k);
    SplicedTwice(b, 0, s[..got], s[got..][..k]);
  }

  lemma Rejoined(s: seq<byte>, got: nat, k: nat)
    requires got + k <= |s|
    ensures s[..got] + s[got..][..k] == s[..got + k] && s[got..][k..] == s[got + k..]
  {
  }

  /** rio_readn: n bytes, or fewer at the end of the input; None on a failure. */
  method ReadN(fd: Descriptor, usrbuf: array<byte>, n: nat) returns (r: Option<nat>)
    requires n <= usrbuf.Length
    modifies fd`input, fd`events, usrbuf
    ensures r.Some? ==>
      && r.value == Least(n, |old(fd.input)|) && fd.input == old(fd.input)[r.value..]
      && usrbuf[..] == Spliced(old(usrbuf[..]), 0, old(fd.input)[..r.value])
    ensures Faultless(old(fd.events)) ==> r.Some? && Faultless(fd.events)
  {
    hide Spliced, Faultless;
    var left, bufp := n, 0;
    ghost var s, b := fd.input, usrbuf[..];
    SplicedNone(b, 0, s);
    while left > 0
      invariant left == n - bufp && bufp <= n && bufp <= |s| && fd.input == s[bufp..]
      invariant usrbuf[..] == Spliced(b, 0, s[..bufp])
      invariant Faultless(old(fd.events)) ==> Faultless(fd.events)
      decreases left, |fd.events|
    {
      var nread := fd.Read(usrbuf, bufp, left);
      if nread.Error? { return None; }
      if nread.Moved? {
        ReadStep(b, s, bufp, nread.count);
        if nread.count == 0 { break; }
        left := left - nread.count;
        bufp := bufp + nread.count;
      }
    }
    return Some(n - left);
  }

  lemma SplicedNone(b: seq<byte>, at: nat, s: seq<byte>)
    requires at <= |b|
    ensures Spliced(b, at, s[..0]) == b && s[0..] == s
  {
  }

  /** rio_writen: all of the first n bytes, or None on a failure. */
  method WriteN(fd: Descriptor, usrbuf: array<byte>, n: nat) returns (r: Option<nat>)
    requires n <= usrbuf.Length
    modifies fd`output, fd`events
    ensures r.Some? ==> r.value == n && fd.output == old(fd.output) + usrbuf[..n]
    ensures Faultless(old(fd.events)) ==> r.Some? && Faultless(fd.events)
  {
    var left, bufp := n, 0;
    assert old(fd.output) + usrbuf[..0] == old(fd.output);
    while left > 0
      invariant left == n - bufp && bufp <= n && fd.output == old(fd.output) + usrbuf[..bufp]
      invariant Faultless(old(fd.events)) ==> Faultless(fd.events)
      decreases left, |fd.events|
    {
      var nwritten := fd.Write(usrbuf, bufp, left);
      if nwritten.Error? { return None; }
      if nwritten.Moved? {
        assert usrbuf[..bufp] + usrbuf[bufp..bufp + nwritten.count] == usrbuf[..bufp + nwritten.count];
        left := left - nwritten.count;
        bufp := bufp + nwritten.count;
      }
    }
    return Some(n);
  }

  const RIO_BUFSIZE: nat := 8192
  const NEWLINE: byte := 10

  /** How long a line s starts with: up to the first newline, but at most limit bytes. */
  function LineLength(s: seq<byte>, limit: nat): (n: nat)
    ensures n <= limit && n <= |s|
  {
    if limit == 0 || s == [] then 0 else if s[0] == NEWLINE then 1 else LineLength(s[1..], limit - 1) + 1
  }

  /** How many bytes of a line fit a buffer of maxlen bytes, which also gets a NUL. */
  function Limit(maxlen: nat): nat
  {
    if maxlen == 0 then 0 else maxlen - 1
  }

  class RioBuffer {
    const fd: Descriptor
    const buf: array<byte>
    /** rio_cnt: how many bytes of buf are unread; not positive when there are none. */
    var cnt: int
    /** rio_bufptr, as an index. */
    var ptr: nat

    ghost predicate Valid()
      reads this
    {
      buf.Length == RIO_BUFSIZE && (cnt > 0 ==> ptr + cnt <= RIO_BUFSIZE)
    }

    /** Everything that is still to be returned. */
    ghost function Stream(): seq<byte>
      requires Valid()
      reads this, buf, fd`input
    {
      (if cnt > 0 then buf[ptr..ptr + cnt] else []) + fd.input
    }

    /** rio_readinitb */
    constructor (fd: Descriptor)
      ensures Valid() && this.fd == fd && Stream() == fd.input && fresh(buf)
    {
      this.fd := fd;
      cnt, ptr := 0, 0;
      buf := new byte[RIO_BUFSIZE];
    }

    /** The loop of rio_read: refills an empty buffer. */
    method Refill() returns (ok: bool)
      requires Valid()
      modifies this`cnt, this`ptr, buf, fd`input, fd`events
      ensures Valid() && Stream() == old(Stream())
      ensures ok ==> (cnt > 0 || (cnt == 0 && fd.input == []))
      ensures Faultless(old(fd.events)) ==> ok && Faultless(fd.events)
    {
      while cnt <= 0
        invariant Valid() && Stream() == old(Stream())
        invariant Faultless(old(fd.events)) ==> Faultless(fd.events)
        decreases cnt <= 0, |fd.events|
      {
        var n := fd.Read(buf, 0, RIO_BUFSIZE);
        cnt := if n.Moved? then n.count else -1;
        if n.Error? { return false; }
        if cnt == 0 { return true; }
        if n.Moved? { ptr := 0; }
      }
      return true;
    }

    /** rio_read: some of what is unread, but nothing only at the end; None on a failure. */
    method Read(usrbuf: array<byte>, at: nat, n: nat) returns (r: Option<nat>)
      requires Valid() && 0 < n && at + n <= usrbuf.Length && usrbuf != buf
      modifies this`cnt, this`ptr, buf, fd`input, fd`events, usrbuf
      ensures Valid()
      ensures r.None? ==> Stream() == old(Stream())
      ensures r.Some? ==>
        && r.value <= n && r.value <= |old(Stream())| && (r.value == 0 <==> old(Stream()) == [])
        && Stream() == old(Stream())[r.value..]
        && usrbuf[..] == Spliced(old(usrbuf[..]), at, old(Stream())[..r.value])
      ensures Faultless(old(fd.events)) ==> r.Some? && Faultless(fd.events)
    {
      var ok := Refill();
      if !ok { return None; }
      if cnt == 0 { assert usrbuf[..] == Spliced(usrbuf[..], at, []); return Some(0); }
      var k := if cnt < n then cnt else n;
      ghost var s := Stream();
      assert s[..k] == buf[ptr..ptr + k] && s[k..] == buf[ptr + k..ptr + cnt] + fd.input;
      Copy(buf[ptr..ptr + k], usrbuf, at);
      ptr := ptr + k;
      cnt := cnt - k;
      return Some(k);
    }

    /** rio_readnb: the next n bytes, or all there are; None on a failure. */
    method ReadNB(usrbuf: array<byte>, n: nat) returns (r: Option<nat>)
      requires Valid() && n <= usrbuf.Length && usrbuf != buf
      modifies this`cnt, this`ptr, buf, fd`input, fd`events, usrbuf
      ensures Valid()
      ensures r.Some? ==>
        && r.value == Least(n, |old(Stream())|) && Stream() == old(Stream())[r.value..]
        && usrbuf[..] == Spliced(old(usrbuf[..]), 0, old(Stream())[..r.value])
      ensures Faultless(old(fd.events)) ==> r.Some? && Faultless(fd.events)
    {
      hide Spliced, Faultless;
      var left, bufp := n, 0;
      ghost var s, b := Stream(), usrbuf[..];
      SplicedNone(b, 0, s);
      while left > 0
        invariant Valid() && left == n - bufp && bufp <= n && bufp <= |s|
        invariant Stream() == s[bufp..] && usrbuf[..] == Spliced(b, 0, s[..bufp])
        invariant Faultless(old(fd.events)) ==> Faultless(fd.events)
        decreases left
      {
        var nread := Read(usrbuf, bufp, left);
        if nread.None? { return None; }
        ReadStep(b, s, bufp, nread.value);
        if nread.value == 0 { break; }
        left := left - nread.value;
        bufp := bufp + nread.value;
      }
      return Some(n - left);
    }

    /** One byte. */
    method ReadByte(c: array<byte>) returns (r: Option<nat>)
      requires Valid() && c.Length == 1 && c != buf
      modifies this`cnt, this`ptr, buf, fd`input, fd`events, c
      ensures Valid()
      ensures r == Some(0) ==> old(Stream()) == [] && Stream() == []
      ensures r.Some? && r != Some(0) ==> r == Some(1) && old(Stream()) == [c[0]] + Stream()
      ensures Faultless(old(fd.events)) ==> r.Some? && Faultless(fd.events)
    {
      ghost var s := Stream();
      r := Read(c, 0, 1);
      if r == Some(1) {
        assert c[..][0..1] == s[..1];
        assert c[..][0] == s[..1][0] == s[0];
      }
    }

    /**
     * rio_readlineb: the rest of the line, but at most maxlen - 1 bytes, and a NUL after it; at the end of the input
     * nothing, not even the NUL. A maxlen of 0 is taken for 1: the NUL is stored all the same. None on a failure.
     */
    method ReadLineB(usrbuf: array<byte>, maxlen: nat) returns (r: Option<nat>)
      requires Valid() && maxlen <= usrbuf.Length && 1 <= usrbuf.Length && usrbuf != buf
      modifies this`cnt, this`ptr, buf, fd`input, fd`events, usrbuf
      ensures Valid()
      ensures r.Some? ==>
        && r.value == LineLength(old(Stream()), Limit(maxlen)) && Stream() == old(Stream())[r.value..]
        && usrbuf[..] == if old(Stream()) == [] && maxlen > 1 then old(usrbuf[..])
           else Spliced(old(usrbuf[..]), 0, old(Stream())[..r.value] + [0])
      ensures Faultless(old(fd.events)) ==> r.Some? && Faultless(fd.events)
    {
      hide Faultless, LineSoFar, LineLength, Stream;
      var n := 1;
      var c := new byte[1];
      ghost var s, b := Stream(), usrbuf[..];
      LineBegins(b, s, Limit(maxlen));
      var ended := false;
      while n < maxlen && !ended
        invariant Valid() && 1 <= n <= Limit(maxlen) + 1 && (ended ==> n > 1)
        invariant LineSoFar(b, s, usrbuf[..], Stream(), n - 1, Limit(maxlen), ended)
        invariant Faultless(old(fd.events)) ==> Faultless(fd.events)
        decreases maxlen - n, !ended
      {
        var rc := ReadByte(c);
        if rc.None? { return None; }
        if rc == Some(0) {
          LineCut(b, s, usrbuf[..], n - 1, Limit(maxlen));
          if n == 1 { return Some(0); }
          ended := true;
        } else {
          LineStep(b, s, usrbuf[..], c[0], Stream(), n - 1, Limit(maxlen));
          usrbuf[n - 1] := c[0];
          n := n + 1;
          if c[0] == NEWLINE { ended := true; }
        }
      }
      LineDone(b, s, usrbuf[..], Stream(), n - 1, Limit(maxlen), ended);
      usrbuf[n - 1] := 0;
      return Some(n - 1);
    }
  }

  /**
   * k bytes of the line at the start of s are in u, and rest is what is left of s; `ended` if that is the whole line.
   */
  predicate LineSoFar(b: seq<byte>, s: seq<byte>, u: seq<byte>, rest: seq<byte>, k: nat, limit: nat, ended: bool)
  {
    && k <= limit && k <= |b| && k <= |s| && u == Spliced(b, 0, s[..k]) && rest == s[k..]
    && LineLength(s, limit) == k + if ended then 0 else LineLength(s[k..], limit - k)
  }

  lemma LineBegins(b: seq<byte>, s: seq<byte>, limit: nat)
    ensures LineSoFar(b, s, b, s, 0, limit, false)
  {
    SplicedNone(b, 0, s);
  }

  /** At the end of the input. */
  lemma LineCut(b: seq<byte>, s: seq<byte>, u: seq<byte>, k: nat, limit: nat)
    requires LineSoFar(b, s, u, [], k, limit, false)
    ensures LineSoFar(b, s, u, [], k, limit, true)
    ensures k == 0 ==> s == [] && u == b && LineLength(s, limit) == 0
  {
    if k == 0 { SplicedNone(b, 0, s); }
  }

  /** One more byte of the line. */
  lemma LineStep(b: seq<byte>, s: seq<byte>, u: seq<byte>, c: byte, rest: seq<byte>, k: nat, limit: nat)
    requires LineSoFar(b, s, u, [c] + rest, k, limit, false) && k < limit && k < |b|
    ensures LineSoFar(b, s, u[k := c], rest, k + 1, limit, c == NEWLINE)
  {
    hide Spliced;
    NextOf(s, k, c, rest);
    SplicedNext(b, s, k);
  }

  lemma NextOf(s: seq<byte>, k: nat, c: byte, rest: seq<byte>)
    requires k <= |s| && s[k..] == [c] + rest
    ensures k < |s| && s[k] == c && s[k..][1..] == s[k+1..] == rest
  {
    assert s[k..][0] == c && s[k..][1..] == rest;
  }

  lemma SplicedNext(b: seq<byte>, s: seq<byte>, k: nat)
    requires k < |b| && k < |s|
    ensures Spliced(b, 0, s[..k])[k := s[k]] == Spliced(b, 0, s[..k+1])
  {
  }

  /** The NUL put behind the line. */
  lemma LineDone(b: seq<byte>, s: seq<byte>, u: seq<byte>, rest: seq<byte>, k: nat, limit: nat, ended: bool)
    requires LineSoFar(b, s, u, rest, k, limit, ended) && (ended || k == limit) && k < |b|
    ensures k == LineLength(s, limit) && rest == s[k..] && u[k := 0] == Spliced(b, 0, s[..k] + [0])
    ensures k <= |s|
  {
    Terminate(b, s[..k]);
  }

  lemma Terminate(b: seq<byte>, line: seq<byte>)
    requires |line| < |b|
    ensures Spliced(b, 0, line)[|line| := 0] == Spliced(b, 0, line + [0])
  {
  }
}
