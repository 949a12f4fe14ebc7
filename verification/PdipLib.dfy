/**
 The receive side of the PDIP library over its real buffers: the user's buffer and the outstanding
 buffer are NUL-terminated heap arrays that grow, change hands and are split. Every method is proved
 against the functions of StreamSpec.
 */
module PdipLib {
  import opened Bytes
  import opened Reception
  import opened StreamSpec
  import opened Terminal

  /** The three reception parameters of the user: display, display_sz and data_sz. */
  class UserBuffer {
    var display: array?<char>
    var displaySz: nat
    var dataSz: nat

    constructor ()
      ensures display == null && displaySz == 0 && dataSz == 0
    {
      display := null;
      displaySz, dataSz := 0, 0;
    }

    /** What the caller must ensure: a buffer announced as big as displaySz is. */
    ghost predicate Honest()
      reads this
    {
      display != null ==> displaySz <= display.Length
    }

    /** The coherency check of pdip_recv(). */
    predicate Coherent()
      reads this
    {
      displaySz != 0 <==> display != null
    }

    /** After a call: a coherent buffer with room for the NUL behind the data. */
    ghost predicate Valid()
      reads this, display
    {
      && Honest() && Coherent()
      && (dataSz > 0 ==> display != null && dataSz < displaySz && display[dataSz] == NUL && NoNul(display[..dataSz]))
    }

    ghost function Text(): string
      requires Valid()
      reads this, display
    {
      if dataSz == 0 then "" else display[..dataSz]
    }
  }

  /** A pdip_ctx_t, reduced to what reception uses. */
  class PdipCtx {
    var pty: Pty?          // null stands for pty_master == -1
    const onFlow: bool     // PDIP_FLAG_RECV_ON_THE_FLOW
    const increment: nat   // buf_resize_increment

    var outstanding: array?<char>
    var outstandingSz: nat
    var offset: nat        // outstanding_data_offset

    constructor (pty: Pty?, onFlow: bool, increment: nat)
      requires increment > 1
      ensures Valid() && Outstanding() == "" && outstanding == null
      ensures this.pty == pty && this.onFlow == onFlow && this.increment == increment
    {
      this.pty, this.onFlow, this.increment := pty, onFlow, increment;
      outstanding := null;
      outstandingSz, offset := 0, 0;
    }

    /** The representation of the outstanding data: no buffer exactly when there is no data, otherwise
        a NUL right behind the data, inside the block. */
    ghost predicate Valid()
      reads this, outstanding
    {
      && increment > 1
      && (outstanding == null <==> offset == 0)
      && (outstanding == null ==> outstandingSz == 0)
      && (outstanding != null ==>
            offset < outstandingSz <= outstanding.Length && outstanding[offset] == NUL && NoNul(outstanding[..offset]))
    }

    ghost function Outstanding(): string
      requires Valid()
      reads this, outstanding
    {
      if outstanding == null then "" else outstanding[..offset]
    }

    /** Both sides are well-formed and share no memory. */
    ghost predicate Ready(ub: UserBuffer)
      reads this, ub, outstanding, ub.display
    {
      && Valid() && ub.Valid()
      && (outstanding != null ==> outstanding != ub.display)
    }

    /** Whose block it was before, or a block just allocated. */
    twostate predicate Owned(ub: UserBuffer)
      reads this, ub
    {
      && (outstanding == null || fresh(outstanding) || outstanding == old(outstanding) || outstanding == old(ub.display))
      && (ub.display == null || fresh(ub.display) || ub.display == old(outstanding) || ub.display == old(ub.display))
    }

    /** pdip_flush_internal(): the whole outstanding buffer becomes the user's one. */
    method FlushInternal(ub: UserBuffer)
      requires Ready(ub)
      modifies this, ub
      ensures Ready(ub) && Owned(ub) && pty == old(pty)
      ensures ub.Text() == old(Outstanding()) && Outstanding() == ""
    {
      if outstanding != null {
        ub.display, ub.dataSz, ub.displaySz := outstanding, offset, outstandingSz;
        outstanding, offset, outstandingSz := null, 0, 0;
      } else {
        ub.dataSz := 0;
      }
    }

    /** Room for `n` more bytes; the NUL is already counted in outstandingSz. */
    method Enlarge(n: nat)
      requires Valid() && outstanding != null
      modifies this
      ensures Valid() && outstanding != null && pty == old(pty) && offset == old(offset)
      ensures outstanding == old(outstanding) || fresh(outstanding)
      ensures Outstanding() == old(Outstanding())
      ensures offset + n + 1 <= outstandingSz
    {
      if n > outstandingSz - (offset + 1) {
        ghost var block := outstanding;
        outstanding := Realloc(outstanding, outstandingSz, outstandingSz + n);
        assert outstanding[..offset] == outstanding[..outstandingSz][..offset] == block[..offset];
        assert outstanding[offset] == outstanding[..outstandingSz][offset] == block[offset];
        outstandingSz := outstandingSz + n;
      }
    }

    /** memcpy() of the user's data and its NUL behind the outstanding data. */
    method CopyBehind(ub: UserBuffer)
      requires Ready(ub) && outstanding != null && ub.dataSz > 0 && offset + ub.dataSz + 1 <= outstandingSz
      modifies this`offset, outstanding
      ensures Valid() && Outstanding() == old(Outstanding()) + old(ub.Text())
    {
      ghost var text, before := ub.Text(), Outstanding();
      MemCopy(outstanding, offset, ub.display, ub.dataSz + 1);
      Joined(outstanding, offset, ub.display, ub.dataSz);
      offset := offset + ub.dataSz;
      assert outstanding[..offset] == before + text;
    }

    /** pdip_append_to_outstanding(): the user's data moves behind the outstanding one. */
    method AppendToOutstanding(ub: UserBuffer)
      requires Ready(ub)
      modifies this, ub, outstanding
      ensures Ready(ub) && Owned(ub) && pty == old(pty)
      ensures ub.dataSz == 0
      ensures Outstanding() == old(Outstanding()) + old(ub.Text())
      ensures old(ub.dataSz) > 0 ==> ub.display == null
    {
      if ub.dataSz == 0 {
        assert Outstanding() + "" == Outstanding();
        return;
      }
      if outstanding != null {
        Enlarge(ub.dataSz);
        CopyBehind(ub);
      } else {
        outstanding, outstandingSz, offset := ub.display, ub.displaySz, ub.dataSz;
        assert "" + old(ub.Text()) == old(ub.Text());
      }
      ub.display, ub.displaySz, ub.dataSz := null, 0, 0;
    }

    /** One past the last newline of the outstanding data, looked for backwards; 0 when there is none. */
    method LastLineEnd() returns (p: nat)
      requires Valid() && outstanding != null
      ensures p == LinesLength(Outstanding())
    {
      ghost var text := Outstanding();
      p := offset - 1;
      while p != 0 && outstanding[p] != '\n'
        invariant 0 <= p < offset
        invariant '\n' !in text[p + 1..]
        decreases p
      {
        assert text[p..] == [text[p]] + text[p + 1..];
        p := p - 1;
      }
      if outstanding[p] != '\n' {
        assert text[p..] == [text[p]] + text[p + 1..];
        p := 0;
      } else {
        p := p + 1;
      }
      LinesLengthUnique(text, p);
    }

    /** The user gets the outstanding block cut at `p`, the object keeps a copy of what follows. */
    method SplitAt(ub: UserBuffer, p: nat)
      requires Ready(ub) && outstanding != null && p <= offset
      modifies this, ub, outstanding
      ensures Ready(ub) && Owned(ub) && pty == old(pty)
      ensures ub.Text() == old(Outstanding())[..p] && Outstanding() == old(Outstanding())[p..]
    {
      ghost var text := Outstanding();
      var tail: array?<char> := null;
      if p != offset {
        assert outstanding[p..offset] == text[p..];
        tail := StrDup(outstanding, p, offset);
      }
      ub.display, ub.displaySz, ub.dataSz := outstanding, outstandingSz, p;
      outstanding, outstandingSz, offset := tail, if p != offset then offset - p + 1 else 0, offset - p;
      ub.display[p] := NUL;
      assert ub.display[..p] == text[..p];
    }

    /** pdip_flush_outstanding(): hand over the complete lines, keep a copy of the incomplete last one.
        Returns false when there is no complete line. */
    method FlushOutstanding(ub: UserBuffer) returns (flushed: bool)
      requires Ready(ub) && outstanding != null && ub.dataSz == 0
      modifies this, ub, outstanding
      ensures Ready(ub) && Owned(ub) && pty == old(pty)
      ensures var k := LinesLength(old(Outstanding()));
              && flushed == (k > 0)
              && ub.Text() == old(Outstanding())[..k]
              && Outstanding() == old(Outstanding())[k..]
    {
      var p := LastLineEnd();
      flushed := p > 0;
      if flushed {
        SplitAt(ub, p);
      }
    }

    /** pdip_look_for_regex(): append the new data, look for a match, cut behind it. */
    method LookForRegex(ub: UserBuffer, re: Regex) returns (found: bool)
      requires Ready(ub)
      modifies this, ub, outstanding, ub.display
      ensures Ready(ub) && Owned(ub) && pty == old(pty)
      ensures Searched(re, old(Outstanding()) + old(ub.Text()), found, ub.Text(), Outstanding())
    {
      hide Searched, Matches;
      AppendToOutstanding(ub);
      ghost var text := Outstanding();
      NothingSearched(re, text);
      if offset == 0 {
        return false;
      }
      match re(outstanding[..offset]) {
        case None =>
          return false;
        case Some(e) =>
          var eo := if e == 0 && outstanding[0] == '\n' then 1 else e;
          SplitAt(ub, eo);
          CutSearched(re, text, e, ub.Text(), Outstanding());
          return true;
      }
    }

    /** The enlargement of the user's buffer before a read: room for one byte and a NUL at least. */
    method EnsureRoom(ub: UserBuffer)
      requires Ready(ub) && ub.dataSz == 0
      modifies ub
      ensures Ready(ub) && Owned(ub) && ub.dataSz == 0 && ub.display != null
      ensures ub.displaySz >= increment && Outstanding() == old(Outstanding())
    {
      if ub.displaySz < increment {
        ub.display := Realloc(ub.display, ub.displaySz, ub.displaySz + increment);
        ub.displaySz := ub.displaySz + increment;
      }
    }

    /** pdip_read_until_timeout() (timed) or the blocking pdip_read(): read into the user's buffer,
        retry on EINTR, keep one slot for the NUL. `noise` are the interruptions met. */
    method ReadInto(ub: UserBuffer, timed: bool) returns (ev: Option<ReadEvent>, ghost noise: seq<ReadEvent>)
      requires Ready(ub) && ub.dataSz == 0 && pty != null && pty.Valid()
      modifies ub, pty, ub.display
      ensures Ready(ub) && Owned(ub) && outstanding == old(outstanding) && Outstanding() == old(Outstanding())
      ensures pty.Valid() && pty.Stream() == old(pty.Stream())
      ensures OnlyInterrupted(noise)
      ensures pty.log == old(pty.log) + noise + (if ev.Some? then [ev.value] else [])
      ensures ev.Some? ==>
                ev.value != Interrupted && (ev.value == Silence ==> timed)
                && ValidEvent(ev.value) && Budget(pty.script) < old(Budget(pty.script))
      ensures ub.Text() == if ev.Some? then EventBytes(ev.value) else ""
    {
      EnsureRoom(ub);
      ev, noise := pty.ReadRetry(ub.display, ub.displaySz - 1, timed);
      if ev.Some? && ev.value.Chunk? {
        ub.dataSz := |ev.value.data|;
        ub.display[ub.dataSz] := NUL;
        assert ub.display[..ub.dataSz] == ub.display[0..ub.dataSz] == ev.value.data;
      }
    }

    /** What a call promises: the result, the user's text and the outstanding data are those that the
        specification computes from the reads made meanwhile. */
    ghost predicate Agrees(res: Step, ub: UserBuffer, o: Outcome)
      requires Ready(ub)
      reads this, ub, outstanding, ub.display
    {
      Tells(res, ub.Text(), Outstanding(), o) && (res.Return? || ub.dataSz == 0)
    }

    /** After a read: return the match, the complete lines, everything, or go on. */
    method Digest(ub: UserBuffer, re: Regex, timed: bool, elapsed: bool) returns (res: Step)
      requires Ready(ub) && ub.dataSz > 0
      modifies this, ub, outstanding, ub.display
      ensures Ready(ub) && Owned(ub) && pty == old(pty)
      ensures match Examine(re, timed, onFlow, elapsed, old(Outstanding()) + old(ub.Text()))
              case Deliver(rc, data, kept) => res == Return(rc) && ub.Text() == data && Outstanding() == kept
              case KeepReading =>
                res == Again && ub.dataSz == 0 && Outstanding() == old(Outstanding()) + old(ub.Text())
    {
      hide StreamSpec.LookForRegex, Searched;
      ghost var text := Outstanding() + ub.Text();
      var found := LookForRegex(ub, re);
      SearchedIs(re, text, found, ub.Text(), Outstanding());
      if found {
        return Return(Found);
      }
      if timed && elapsed {
        if onFlow && offset > 0 {
          FlushInternal(ub);
          return Return(Data);
        }
        return Return(Timeout);
      }
      if onFlow {
        var flushed := FlushOutstanding(ub);
        if flushed {
          return Return(Data);
        }
      }
      return Again;
    }

    /** What pdip_recv() with a regular expression does of the outcome of a read. */
    method AfterRead(ub: UserBuffer, re: Regex, timed: bool, ev: ReadEvent) returns (res: Step)
      requires Ready(ub) && ub.Text() == EventBytes(ev) && ValidEvent(ev) && ev != Interrupted && (ev.Silence? ==> timed)
      modifies this, ub, outstanding, ub.display
      ensures Ready(ub) && Owned(ub) && pty == old(pty)
      ensures Agrees(res, ub, RecvRegexReads(re, timed, onFlow, old(Outstanding()), [ev]))
    {
      hide RecvRegexReads, Examine;
      ghost var out := Outstanding();
      OneEvent(re, timed, onFlow, out, ev);
      match ev {
        case Failed => res := Return(Error);
        case Silence => res := Return(Timeout);
        case Eof(elapsed) => res := Return(if timed && elapsed then Timeout else Abort);
        case Chunk(data, elapsed) =>
          res := Digest(ub, re, timed, elapsed);
      }
    }

    /** One read of pdip_recv() with a regular expression, and what is done of its outcome. */
    method RegexStep(ub: UserBuffer, re: Regex, timed: bool) returns (res: Step, ghost evs: seq<ReadEvent>)
      requires Ready(ub) && ub.dataSz == 0 && pty != null && pty.Valid()
      modifies this, ub, pty, outstanding, ub.display
      ensures Ready(ub) && Owned(ub) && pty == old(pty)
      ensures pty.Valid() && pty.Stream() == old(pty.Stream()) && pty.log == old(pty.log) + evs
      ensures res == Again ==> Budget(pty.script) < old(Budget(pty.script))
      ensures Agrees(res, ub, RecvRegexReads(re, timed, onFlow, old(Outstanding()), evs))
    {
      hide BytesOf, Budget;
      ghost var out := Outstanding();
      var ev, noise := ReadInto(ub, timed);
      ghost var now := if ev.Some? then [ev.value] else [];
      evs := noise + now;
      Assoc(old(pty.log), noise, now);
      SkipInterrupted(re, timed, onFlow, out, noise, now);
      if ev.Some? {
        hide RecvRegexReads;
        res := AfterRead(ub, re, timed, ev.value);
      } else {
        res := Blocked;
      }
    }

    /** The reading loop of pdip_recv() with a regular expression. */
    method RegexLoop(ub: UserBuffer, re: Regex, timed: bool) returns (res: Step, ghost evs: seq<ReadEvent>)
      requires Ready(ub) && ub.dataSz == 0 && pty != null && pty.Valid()
      modifies this, ub, pty, outstanding, ub.display
      ensures Ready(ub) && Owned(ub) && pty == old(pty) && res != Again
      ensures pty.Valid() && pty.Stream() == old(pty.Stream()) && pty.log == old(pty.log) + evs
      ensures Agrees(res, ub, RecvRegexReads(re, timed, onFlow, old(Outstanding()), evs))
    {
      hide RecvRegexReads, Examine, BytesOf, Budget;
      ghost var out := Outstanding();
      res, evs := Again, [];
      NoRead(re, timed, onFlow, out, pty.log);
      while res == Again
        invariant Ready(ub) && Owned(ub) && pty == old(pty)
        invariant pty.Valid() && pty.Stream() == old(pty.Stream()) && pty.log == old(pty.log) + evs
        invariant Agrees(res, ub, RecvRegexReads(re, timed, onFlow, out, evs))
        decreases res == Again, Budget(pty.script)
      {
        ghost var now;
        res, now := RegexStep(ub, re, timed);
        Chain(re, timed, onFlow, out, evs, now, res, ub.Text(), Outstanding());
        Assoc(old(pty.log), evs, now);
        evs := evs + now;
      }
    }

    /** The part of pdip_recv() with a regular expression. */
    method RecvWithRegex(ub: UserBuffer, re: Regex, timed: bool) returns (res: Step, ghost evs: seq<ReadEvent>)
      requires Ready(ub) && ub.dataSz == 0 && pty != null && pty.Valid()
      modifies this, ub, pty, outstanding, ub.display
      ensures Ready(ub) && Owned(ub) && pty == old(pty) && res != Again
      ensures pty.Valid() && pty.Stream() == old(pty.Stream()) && pty.log == old(pty.log) + evs
      ensures Agrees(res, ub, RecvRegex(re, timed, onFlow, old(Outstanding()), evs))
    {
      hide StreamSpec.LookForRegex, Searched;
      ghost var text := Outstanding();
      assert Outstanding() + ub.Text() == Outstanding();
      var found := LookForRegex(ub, re);
      SearchedIs(re, text, found, ub.Text(), Outstanding());
      if found {
        res, evs := Return(Found), [];
      } else {
        res, evs := RegexLoop(ub, re, timed);
      }
    }

    /** The part of pdip_recv() without regular expression. */
    method RecvWithoutRegex(ub: UserBuffer, timed: bool) returns (res: Step, ghost evs: seq<ReadEvent>)
      requires Ready(ub) && ub.dataSz == 0 && pty != null && pty.Valid()
      modifies this, ub, pty, ub.display
      ensures Ready(ub) && Owned(ub) && pty == old(pty) && res != Again
      ensures pty.Valid() && pty.Stream() == old(pty.Stream()) && pty.log == old(pty.log) + evs
      ensures Agrees(res, ub, RecvPlain(timed, old(Outstanding()), evs))
    {
      FlushInternal(ub);
      if ub.dataSz > 0 {
        return Return(Data), [];
      }
      var ev, noise := ReadInto(ub, timed);
      evs := noise + if ev.Some? then [ev.value] else [];
      Assoc(old(pty.log), noise, if ev.Some? then [ev.value] else []);
      SkipInterruptedPlain(timed, noise, if ev.Some? then [ev.value] else []);
      match ev {
        case None => res := Blocked;
        case Some(Failed) => res := Return(Error);
        case Some(Silence) => res := Return(Timeout);
        case Some(Eof(_)) => res := Return(if timed then Timeout else Abort);
        case Some(Chunk(_, _)) => res := Return(Data);
      }
    }

    /**
     pdip_recv(). EINVAL on an incoherent user buffer, EPERM when no pseudo-terminal is attached;
     otherwise the outcomes `evs` of the reads made are appended to the log of the pseudo-terminal
     and the result is the one that the specification gives for them.
     */
    method Recv(ub: UserBuffer, re: Option<Regex>, timed: bool) returns (res: Step, ghost evs: seq<ReadEvent>)
      requires Valid() && ub.Honest() && (ub.display != null ==> ub.display != outstanding)
      requires pty != null ==> pty.Valid()
      modifies this, ub, pty, outstanding, ub.display
      ensures Valid() && Owned(ub) && pty == old(pty) && res != Again
      ensures pty != null ==>
                pty.Valid() && pty.Stream() == old(pty.Stream()) && pty.log == old(pty.log) + evs
      ensures !old(ub.Coherent()) || pty == null ==>
                res == Return(Error) && evs == [] && ub.dataSz == 0 && Outstanding() == old(Outstanding())
      ensures old(ub.Coherent()) ==> Ready(ub)
      ensures old(ub.Coherent()) && pty != null ==>
                Agrees(res, ub, StreamSpec.Recv(re, timed, onFlow, old(Outstanding()), evs))
      ensures res == Return(Found) ==>
                re.Some? && var text := ub.Text() + Outstanding();
                            Matches(re.value, text) && |ub.Text()| == MatchLength(re.value, text)
    {
      ub.dataSz := 0;
      if !ub.Coherent() || pty == null {
        return Return(Error), [];
      }
      ghost var out := Outstanding();
      hide StreamSpec.RecvRegex, StreamSpec.RecvPlain, MatchLength, Matches;
      match re {
        case None => res, evs := RecvWithoutRegex(ub, timed);
          PlainNotFound(timed, out, evs);
        case Some(r) => res, evs := RecvWithRegex(ub, r, timed);
          FoundCut(r, timed, onFlow, out, evs);
      }
    }
  }

  // ------------------------------------------------------------------ a user of the library

  /** The user makes any calls on one object, with the same buffer, and takes what each one gives. */
  class User {
    const pdip: PdipCtx
    const buffer: UserBuffer
    var taken: seq<string>

    constructor (pdip: PdipCtx, buffer: UserBuffer)
      ensures this.pdip == pdip && this.buffer == buffer && taken == []
    {
      this.pdip, this.buffer, taken := pdip, buffer, [];
    }

    ghost predicate Valid()
      reads this, pdip, buffer, pdip.outstanding, buffer.display, pdip.pty
    {
      pdip.Ready(buffer) && pdip.pty != null && pdip.pty.Valid()
    }

    /** The user reads its buffer. */
    method Take()
      requires Valid()
      modifies this
      ensures Valid() && taken == old(taken) + [buffer.Text()]
    {
      taken := taken + [if buffer.dataSz == 0 then "" else buffer.display[..buffer.dataSz]];
    }

    /** pdip_recv(); `evs` are the reads that it makes. */
    method Receive(re: Option<Regex>, timed: bool) returns (goesOn: bool, ghost evs: seq<ReadEvent>)
      requires Valid()
      modifies pdip, buffer, pdip.pty, pdip.outstanding, buffer.display
      ensures Valid() && pdip.Owned(buffer) && pdip.pty == old(pdip.pty) && pdip.pty.Stream() == old(pdip.pty.Stream())
      ensures pdip.pty.log == old(pdip.pty.log) + evs
      ensures buffer.Text() + pdip.Outstanding() == old(pdip.Outstanding()) + BytesOf(evs)
    {
      hide StreamSpec.Recv, Total, BytesOf;
      ghost var out := pdip.Outstanding();
      var res;
      res, evs := pdip.Recv(buffer, re, timed);
      goesOn := res.Return? && res.rc != Abort;
      RecvConserves(re, timed, pdip.onFlow, out, evs);
      TellsConserves(res, buffer.Text(), pdip.Outstanding(), StreamSpec.Recv(re, timed, pdip.onFlow, out, evs));
    }

    /** One call. */
    method Do(call: Call) returns (goesOn: bool, ghost evs: seq<ReadEvent>)
      requires Valid()
      modifies this, pdip, buffer, pdip.pty, pdip.outstanding, buffer.display
      ensures Valid() && pdip.Owned(buffer) && pdip.pty == old(pdip.pty) && pdip.pty.Stream() == old(pdip.pty.Stream())
      ensures pdip.pty.log == old(pdip.pty.log) + evs
      ensures exists text :: taken == old(taken) + [text] && text + pdip.Outstanding() == old(pdip.Outstanding()) + BytesOf(evs)
    {
      hide BytesOf;
      match call {
        case FlushCall =>
          pdip.FlushInternal(buffer);
          goesOn, evs := true, [];
          NothingRead(old(pdip.Outstanding()), old(pdip.pty.log));
        case RecvCall(re, timed) =>
          goesOn, evs := Receive(re, timed);
      }
      Take();
    }

    /**
     Any calls, one after the other, up to one that never returns or aborts: over the real buffers, which
     grow, are cut and change hands, what the user has taken, then what is outstanding, then what is still to
     be read, is what was outstanding at first and all the bytes to come, in order.
     */
    method DoAll(calls: seq<Call>)
      requires Valid() && taken == []
      modifies this, pdip, buffer, pdip.pty, pdip.outstanding, buffer.display
      ensures Valid() && pdip.Owned(buffer) && pdip.pty == old(pdip.pty)
      ensures Concat(taken) + (pdip.Outstanding() + BytesOf(pdip.pty.script))
              == old(pdip.Outstanding()) + old(BytesOf(pdip.pty.script))
    {
      ghost var out, log, script, read := pdip.Outstanding(), pdip.pty.log, pdip.pty.script, [];
      var i, goesOn := 0, true;
      Empty(out);
      Empty(log);
      while i < |calls| && goesOn
        invariant 0 <= i <= |calls| && Valid() && pdip.Owned(buffer) && pdip.pty == old(pdip.pty)
        invariant pdip.pty.Stream() == BytesOf(log) + BytesOf(script) && pdip.pty.log == log + read
        invariant Concat(taken) + pdip.Outstanding() == out + BytesOf(read)
      {
        hide Concat, BytesOf;
        ghost var before, kept, now := taken, pdip.Outstanding(), [];
        goesOn, now := Do(calls[i]);
        ghost var text :| taken == before + [text] && text + pdip.Outstanding() == kept + BytesOf(now);
        OneMoreCall(before, text, kept, pdip.Outstanding(), out, read, now);
        Assoc(log, read, now);
        read := read + now;
        i := i + 1;
      }
      ReadThenUnread(log, read, pdip.pty.script, script);
      Assoc(Concat(taken), pdip.Outstanding(), BytesOf(pdip.pty.script));
      Assoc(out, BytesOf(read), BytesOf(pdip.pty.script));
    }
  }

  lemma TellsConserves(res: Step, text: string, kept: string, o: Outcome)
    requires Tells(res, text, kept, o) && (res.Return? || text == "")
    ensures text + kept == Total(o)
  {
    Empty(kept);
  }

  lemma NothingRead(out: string, log: seq<ReadEvent>)
    ensures out + "" == out + BytesOf([]) && log == log + []
  {
  }

  lemma OneMoreCall(before: seq<string>, text: string, kept: string, kept': string, out: string,
                    read: seq<ReadEvent>, now: seq<ReadEvent>)
    requires Concat(before) + kept == out + BytesOf(read) && text + kept' == kept + BytesOf(now)
    ensures Concat(before + [text]) + kept' == out + BytesOf(read + now)
  {
    ConcatAppend(before, [text]);
    assert Concat([text]) == text + Concat([]) == text;
    BytesOfAppend(read, now);
    Assoc(Concat(before), text, kept');
    Assoc(Concat(before), kept, BytesOf(now));
    Assoc(out, BytesOf(read), BytesOf(now));
  }

  /** What has been read and what is still to be read make up what was to be read. */
  lemma ReadThenUnread(log: seq<ReadEvent>, read: seq<ReadEvent>, after: seq<ReadEvent>, before: seq<ReadEvent>)
    requires BytesOf(log + read) + BytesOf(after) == BytesOf(log) + BytesOf(before)
    ensures BytesOf(read) + BytesOf(after) == BytesOf(before)
  {
    BytesOfAppend(log, read);
    Assoc(BytesOf(log), BytesOf(read), BytesOf(after));
    Cancel(BytesOf(log), BytesOf(read) + BytesOf(after), BytesOf(before));
  }

  lemma Cancel(a: string, b: string, c: string)
    requires a + b == a + c
    ensures b == c
  {
    CutAt(a, b);
    CutAt(a, c);
  }

  /** How a step of a reception ends: it returns, goes on reading, or blocks for ever. */
  datatype Step = Return(rc: RecvCode) | Again | Blocked

  ghost predicate Tells(res: Step, text: string, kept: string, o: Outcome) {
    o == if res.Return? then Done(res.rc, text, kept, []) else Waiting(kept)
  }

  lemma Chain(re: Regex, timed: bool, onFlow: bool, out: string, evs: seq<ReadEvent>, now: seq<ReadEvent>,
              res: Step, text: string, kept: string)
    requires RecvRegexReads(re, timed, onFlow, out, evs).Waiting?
    requires Tells(res, text, kept,
                   RecvRegexReads(re, timed, onFlow, RecvRegexReads(re, timed, onFlow, out, evs).kept, now))
    ensures Tells(res, text, kept, RecvRegexReads(re, timed, onFlow, out, evs + now))
  {
    RecvRegexReadsExtend(re, timed, onFlow, out, evs, now);
  }

  lemma NoRead(re: Regex, timed: bool, onFlow: bool, out: string, log: seq<ReadEvent>)
    ensures RecvRegexReads(re, timed, onFlow, out, []) == Waiting(out) && log + [] == log
  {
  }

  lemma {:induction false} SkipInterrupted(
    re: Regex, timed: bool, onFlow: bool, out: string, noise: seq<ReadEvent>, evs: seq<ReadEvent>)
    requires OnlyInterrupted(noise)
    ensures RecvRegexReads(re, timed, onFlow, out, noise + evs) == RecvRegexReads(re, timed, onFlow, out, evs)
  {
    if noise == [] {
      assert noise + evs == evs;
    } else {
      assert (noise + evs)[1..] == noise[1..] + evs;
      SkipInterrupted(re, timed, onFlow, out, noise[1..], evs);
    }
  }

  lemma OneEvent(re: Regex, timed: bool, onFlow: bool, out: string, ev: ReadEvent)
    ensures RecvRegexReads(re, timed, onFlow, out, [ev])
         == match ev
            case Interrupted => Waiting(out)
            case Silence => if timed then Done(Timeout, "", out, []) else Waiting(out)
            case Failed => Done(Error, "", out, [])
            case Eof(elapsed) => Done(if timed && elapsed then Timeout else Abort, "", out, [])
            case Chunk(_, _) =>
              var v := Examine(re, timed, onFlow, ev.elapsed, out + ev.data);
              if v.Deliver? then Done(v.rc, v.data, v.kept, []) else Waiting(out + ev.data)
  {
    hide Examine;
    assert [ev][1..] == [];
  }

  lemma {:induction false} SkipInterruptedPlain(timed: bool, noise: seq<ReadEvent>, evs: seq<ReadEvent>)
    requires OnlyInterrupted(noise)
    ensures RecvPlainReads(timed, noise + evs) == RecvPlainReads(timed, evs)
  {
    if noise == [] {
      assert noise + evs == evs;
    } else {
      assert (noise + evs)[1..] == noise[1..] + evs;
      SkipInterruptedPlain(timed, noise[1..], evs);
    }
  }

  lemma Joined(a: array<char>, at: nat, b: array<char>, n: nat)
    requires a != b && at + n + 1 <= a.Length && n + 1 <= b.Length
    requires a[at..at + (n + 1)] == b[..n + 1] && b[n] == NUL
    ensures a[..at + n] == a[..at] + b[..n] && a[at + n] == NUL
  {
  }

  /** The bytes that a reception can deliver at most. */
  ghost function Volume(pdip: PdipCtx): nat
    requires pdip.Valid() && pdip.pty != null
    reads pdip, pdip.outstanding, pdip.pty
  {
    |pdip.Outstanding()| + |BytesOf(pdip.pty.script)|
  }

  /** What is delivered was outstanding or has been read. */
  lemma Enough(re: Regex, timed: bool, out: string, evs: seq<ReadEvent>, log: seq<ReadEvent>,
               before: seq<ReadEvent>, after: seq<ReadEvent>)
    requires BytesOf(log + evs) + BytesOf(after) == BytesOf(log) + BytesOf(before)
    ensures var o := RecvRegex(re, timed, true, out, evs);
            o.Done? ==> |o.data| + |o.kept| + |BytesOf(o.rest)| + |BytesOf(after)| == |out| + |BytesOf(before)|
  {
    hide BytesOf, RecvRegex;
    BytesOfAppend(log, evs);
    RecvConserves(Some(re), timed, true, out, evs);
  }
}
