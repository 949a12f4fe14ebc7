/** What lies below the library: C memory blocks and the master side of the pseudo-terminal. */
module Terminal {
  import opened Bytes
  import opened StreamSpec

  // ------------------------------------------------------------------------ C memory

  /** realloc(): a block of `size` bytes that begins with the first `used` bytes of `a`. */
  method Realloc(a: array?<char>, used: nat, size: nat) returns (b: array<char>)
    requires used <= size && (a == null ==> used == 0) && (a != null ==> used <= a.Length)
    ensures fresh(b) && b.Length == size
    ensures a != null ==> b[..used] == a[..used]
  {
    b := new char[size];
    var i := 0;
    while i < used
      invariant i <= used
      invariant a != null ==> b[..i] == a[..i]
    {
      b[i] := a[i];
      i := i + 1;
    }
  }

  /** memcpy(dst + at, src, n) */
  method MemCopy(dst: array<char>, at: nat, src: array<char>, n: nat)
    requires dst != src && at + n <= dst.Length && n <= src.Length
    modifies dst
    ensures dst[..at] == old(dst[..at]) && dst[at..at + n] == src[..n]
  {
    var i := 0;
    while i < n
      invariant i <= n
      invariant dst[..at] == old(dst[..at]) && dst[at..at + i] == src[..i]
    {
      dst[at + i] := src[i];
      i := i + 1;
    }
  }

  /** strdup(a + from): copy up to the first NUL, which is at `end`. */
  method StrDup(a: array<char>, from: nat, ghost end: nat) returns (b: array<char>)
    requires from <= end < a.Length && a[end] == NUL && NoNul(a[from..end])
    ensures fresh(b) && b.Length == end - from + 1
    ensures b[..end - from] == a[from..end] && b[end - from] == NUL
  {
    assert forall i :: from <= i < end ==> a[i] == a[from..end][i - from] != NUL;
    var n := from;
    while a[n] != NUL
      invariant from <= n <= end
      decreases end - n
    {
      assert n < end;
      n := n + 1;
    }
    assert n == end;
    b := new char[n - from + 1];
    var i := 0;
    while i <= n - from
      invariant i <= n - from + 1
      invariant b[..i] == a[from..from + i]
    {
      b[i] := a[from + i];
      i := i + 1;
    }
    assert b[..end - from] == b[..end - from + 1][..end - from];
    assert b[end - from] == b[..end - from + 1][end - from] == a[from..end + 1][end - from];
  }

  /** The C string in a buffer that has a NUL at `n` at the latest. */
  method Terminated(a: array<char>, ghost n: nat) returns (s: string)
    requires n < a.Length && a[n] == NUL
    ensures s == CString(a[..n])
  {
    var i := 0;
    while a[i] != NUL
      invariant i <= n && NoNul(a[..i])
      decreases n - i
    {
      i := i + 1;
    }
    s := a[..i];
    assert a[..n][..i] == a[..i];
    CStringIs(a[..n], i);
  }

  /** snprintf(a + at, a.Length - at, "%s", s): what fits is written, then a NUL; the whole length is returned. */
  method Snprintf(a: array<char>, at: nat, s: string) returns (n: nat)
    requires at < a.Length && NoNul(s)
    modifies a
    ensures n == |s| && a[..at] == old(a[..at])
    ensures n < a.Length - at ==> a[at..at + n] == s && a[at + n] == NUL
  {
    var i := 0;
    while i < |s| && at + i < a.Length - 1
      invariant i <= |s| && at + i <= a.Length - 1 && a[..at] == old(a[..at]) && a[at..at + i] == s[..i]
    {
      a[at + i] := s[i];
      i := i + 1;
    }
    a[at + i] := NUL;
    n := |s|;
    assert n < a.Length - at ==> a[at..at + n] == s[..i] == s;
  }

  // ------------------------------------------------------------------------ pseudo-terminal

  /** Size of a script of reads; each read makes it smaller. */
  function Budget(evs: seq<ReadEvent>): nat {
    if evs == [] then 0 else 1 + |EventBytes(evs[0])| + Budget(evs[1..])
  }

  lemma SplitChunk(evs: seq<ReadEvent>, n: nat)
    requires evs != [] && evs[0].Chunk? && 0 < n < |evs[0].data| && ValidEvents(evs)
    ensures ValidEvent(Chunk(evs[0].data[..n], evs[0].elapsed)) && ValidEvents(AfterSplit(evs, n))
    ensures evs[0].data[..n] + BytesOf(AfterSplit(evs, n)) == BytesOf(evs)
    ensures Budget(AfterSplit(evs, n)) < Budget(evs)
  {
  }

  /** A read of `n` bytes leaves the end of a longer chunk for the next one. */
  function AfterSplit(evs: seq<ReadEvent>, n: nat): seq<ReadEvent>
    requires evs != [] && evs[0].Chunk? && n <= |evs[0].data|
  {
    [Chunk(evs[0].data[n..], evs[0].elapsed)] + evs[1..]
  }

  /** The master side of the pseudo-terminal: an arbitrary script of what reads will meet. */
  class Pty {
    ghost var log: seq<ReadEvent>   // outcomes of the reads done so far
    var script: seq<ReadEvent>      // what comes next

    ghost predicate Valid()
      reads this
    {
      ValidEvents(log) && ValidEvents(script)
    }

    /** All the bytes of the pseudo-terminal, read or not. */
    ghost function Stream(): string
      reads this
    {
      BytesOf(log) + BytesOf(script)
    }

    constructor (script: seq<ReadEvent>)
      requires ValidEvents(script)
      ensures Valid() && log == [] && this.script == script && Stream() == BytesOf(script)
    {
      this.script := script;
      log := [];
    }

    /** The outcome of the next read of at most `len` bytes; None when it would block for ever. */
    method Next(len: nat, timed: bool) returns (ev: Option<ReadEvent>)
      requires Valid() && 1 <= len
      modifies this
      ensures Valid() && Stream() == old(Stream())
      ensures ev.None? ==> log == old(log)
      ensures ev.Some? ==>
                && log == old(log) + [ev.value] && ValidEvent(ev.value)
                && (ev.value.Silence? ==> timed) && |EventBytes(ev.value)| <= len
                && Budget(script) < old(Budget(script))
    {
      while !timed && script != [] && script[0].Silence?
        invariant ValidEvents(script) && log == old(log)
        invariant BytesOf(script) == old(BytesOf(script)) && Budget(script) <= old(Budget(script))
        decreases |script|
      {
        script := script[1..];
      }
      if script == [] {
        return None;
      }
      var head := script[0];
      if head.Chunk? && |head.data| > len {
        SplitChunk(script, len);
        script := AfterSplit(script, len);
        head := Chunk(head.data[..len], head.elapsed);
      } else {
        script := script[1..];
      }
      StreamGrows(log, head, script);
      log := log + [head];
      return Some(head);
    }

    /** select()/read() of at most `len` bytes into buf[at..]; None when it would block for ever. */
    method Read(buf: array<char>, at: nat, len: nat, timed: bool) returns (ev: Option<ReadEvent>)
      requires Valid() && 1 <= len && at + len <= buf.Length
      modifies this, buf
      ensures Valid() && Stream() == old(Stream())
      ensures ev.None? ==> log == old(log)
      ensures ev.Some? ==>
                && log == old(log) + [ev.value] && ValidEvent(ev.value)
                && (ev.value.Silence? ==> timed)
                && Budget(script) < old(Budget(script))
      ensures ev.Some? && ev.value.Chunk? ==>
                |ev.value.data| <= len && buf[at..at + |ev.value.data|] == ev.value.data
      ensures buf[..at] == old(buf[..at])
    {
      ev := Next(len, timed);
      if ev.Some? && ev.value.Chunk? {
        Store(buf, at, ev.value.data);
      }
    }

    /** pdip_read(), with the select() before it when `timed`: reads again as long as it is interrupted.
        `noise` are the interruptions met. */
    method ReadRetry(buf: array<char>, len: nat, timed: bool)
      returns (ev: Option<ReadEvent>, ghost noise: seq<ReadEvent>)
      requires Valid() && 1 <= len <= buf.Length
      modifies this, buf
      ensures Valid() && Stream() == old(Stream())
      ensures OnlyInterrupted(noise) && log == old(log) + noise + (if ev.Some? then [ev.value] else [])
      ensures ev.Some? ==>
                && ev.value != Interrupted && ValidEvent(ev.value) && (ev.value.Silence? ==> timed)
                && Budget(script) < old(Budget(script))
      ensures ev.Some? && ev.value.Chunk? ==> |ev.value.data| <= len && buf[0..|ev.value.data|] == ev.value.data
    {
      noise := [];
      ev := Read(buf, 0, len, timed);
      while ev == Some(Interrupted)
        invariant Valid() && Stream() == old(Stream())
        invariant OnlyInterrupted(noise) && log == old(log) + noise + (if ev.Some? then [ev.value] else [])
        invariant ev.Some? ==>
                    && ValidEvent(ev.value) && (ev.value.Silence? ==> timed)
                    && Budget(script) < old(Budget(script))
        invariant ev.Some? && ev.value.Chunk? ==> |ev.value.data| <= len && buf[0..|ev.value.data|] == ev.value.data
        decreases ev == Some(Interrupted), Budget(script)
      {
        Assoc(old(log), noise, [Interrupted]);
        noise := noise + [Interrupted];
        ev := Read(buf, 0, len, timed);
      }
    }
  }

  ghost predicate OnlyInterrupted(evs: seq<ReadEvent>) {
    forall i :: 0 <= i < |evs| ==> evs[i] == Interrupted
  }

  method Store(buf: array<char>, at: nat, data: string)
    requires at + |data| <= buf.Length
    modifies buf
    ensures buf[..at] == old(buf[..at]) && buf[at..at + |data|] == data
  {
    var i := 0;
    while i < |data|
      invariant i <= |data|
      invariant buf[..at] == old(buf[..at]) && buf[at..at + i] == data[..i]
    {
      buf[at + i] := data[i];
      i := i + 1;
    }
  }

  lemma StreamGrows(log: seq<ReadEvent>, ev: ReadEvent, script: seq<ReadEvent>)
    ensures BytesOf(log + [ev]) + BytesOf(script) == BytesOf(log) + (EventBytes(ev) + BytesOf(script))
  {
    BytesOfSnoc(log, ev);
    Assoc(BytesOf(log), EventBytes(ev), BytesOf(script));
  }
}
