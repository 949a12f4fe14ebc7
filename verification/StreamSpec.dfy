/**
 The receive side of the library as a function of byte sequences: what pdip_recv() and
 pdip_flush() return and keep, given the outcomes of the successive reads of the
 pseudo-terminal. No buffer, no pointer: module PdipLib proves that the code over its
 growing buffers computes exactly these functions.
 */
module StreamSpec {
  import opened Bytes

  /** regexec() as an oracle: no match, or the end offset of the match. */
  type Regex = f: string -> Option<nat> | forall s: string :: f(s).Some? ==> f(s).value <= |s|
    witness (s: string) => None

  /**
   Outcome of one select()/read() of the pseudo-terminal.
   - Chunk: `data` has been read; `elapsed` tells that the remaining timeout dropped to 0
   - Silence: nothing came until the timeout (a blocking read just goes on waiting)
   - Eof: read() returned 0
   - Failed: select() or read() failed for another reason than EINTR
   - Interrupted: EINTR
   */
  datatype ReadEvent =
    | Chunk(data: string, elapsed: bool)
    | Silence
    | Eof(elapsed: bool)
    | Failed
    | Interrupted

  predicate ValidEvent(ev: ReadEvent) {
    ev.Chunk? ==> ev.data != "" && NoNul(ev.data)
  }

  predicate ValidEvents(evs: seq<ReadEvent>) {
    forall i :: 0 <= i < |evs| ==> ValidEvent(evs[i])
  }

  function EventBytes(ev: ReadEvent): string {
    if ev.Chunk? then ev.data else ""
  }

  /** All the bytes read. */
  function BytesOf(evs: seq<ReadEvent>): string {
    if evs == [] then "" else EventBytes(evs[0]) + BytesOf(evs[1..])
  }

  /** PDIP_RECV_FOUND, _DATA, _TIMEOUT, _ERROR; Abort stands for a failed assert(). */
  datatype RecvCode = Found | Data | Timeout | Error | Abort

  /**
   Done: the call returned `rc` with `data` for the user, `kept` is the new outstanding data and
   `rest` the events not consumed. Waiting: all the events are consumed and the call still blocks.
   */
  datatype Outcome =
    | Done(rc: RecvCode, data: string, kept: string, rest: seq<ReadEvent>)
    | Waiting(kept: string)

  datatype Look = Match(data: string, kept: string) | NoMatch

  /** Cut of the outstanding data after the match. An empty match on a newline consumes it. */
  function LookForRegex(re: Regex, out: string): Look {
    if out == "" then NoMatch
    else
      match re(out)
      case None => NoMatch
      case Some(e) =>
        var eo := if e == 0 && out[0] == '\n' then 1 else e;
        Match(out[..eo], out[eo..])
  }

  datatype Verdict = Deliver(rc: RecvCode, data: string, kept: string) | KeepReading

  /** What is done of the outstanding data `out` when a read has just completed it. */
  function Examine(re: Regex, timed: bool, onFlow: bool, elapsed: bool, out: string): Verdict {
    match LookForRegex(re, out)
    case Match(data, kept) => Deliver(Found, data, kept)
    case NoMatch =>
      if timed && elapsed then
        if onFlow && out != "" then Deliver(Data, out, "") else Deliver(Timeout, "", out)
      else
        var k := LinesLength(out);
        if onFlow && k > 0 then Deliver(Data, out[..k], out[k..]) else KeepReading
  }

  /** pdip_recv() with a regular expression. */
  function RecvRegex(re: Regex, timed: bool, onFlow: bool, out: string, evs: seq<ReadEvent>): Outcome {
    match LookForRegex(re, out)
    case Match(data, kept) => Done(Found, data, kept, evs)
    case NoMatch => RecvRegexReads(re, timed, onFlow, out, evs)
  }

  function RecvRegexReads(re: Regex, timed: bool, onFlow: bool, out: string, evs: seq<ReadEvent>): Outcome
    decreases |evs|
  {
    if evs == [] then Waiting(out)
    else
      var rest := evs[1..];
      match evs[0]
      case Interrupted => RecvRegexReads(re, timed, onFlow, out, rest)
      case Silence =>
        if timed then Done(Timeout, "", out, rest) else RecvRegexReads(re, timed, onFlow, out, rest)
      case Failed => Done(Error, "", out, rest)
      case Eof(elapsed) => Done(if timed && elapsed then Timeout else Abort, "", out, rest)
      case Chunk(data, elapsed) =>
        match Examine(re, timed, onFlow, elapsed, out + data)
        case Deliver(rc, data', kept) => Done(rc, data', kept, rest)
        case KeepReading => RecvRegexReads(re, timed, onFlow, out + data, rest)
  }

  /** pdip_recv() without regular expression. */
  function RecvPlain(timed: bool, out: string, evs: seq<ReadEvent>): Outcome {
    if out != "" then Done(Data, out, "", evs) else RecvPlainReads(timed, evs)
  }

  function RecvPlainReads(timed: bool, evs: seq<ReadEvent>): Outcome {
    if evs == [] then Waiting("")
    else
      var rest := evs[1..];
      match evs[0]
      case Interrupted => RecvPlainReads(timed, rest)
      case Silence => if timed then Done(Timeout, "", "", rest) else RecvPlainReads(timed, rest)
      case Failed => Done(Error, "", "", rest)
      case Eof(_) => Done(if timed then Timeout else Abort, "", "", rest)
      case Chunk(data, _) => Done(if data == "" then Timeout else Data, data, "", rest)
  }

  function Recv(re: Option<Regex>, timed: bool, onFlow: bool, out: string, evs: seq<ReadEvent>): Outcome {
    match re
    case None => RecvPlain(timed, out, evs)
    case Some(r) => RecvRegex(r, timed, onFlow, out, evs)
  }

  // ---------------------------------------------------------------- properties of one call

  lemma {:induction false} BytesOfAppend(a: seq<ReadEvent>, b: seq<ReadEvent>)
    ensures BytesOf(a + b) == BytesOf(a) + BytesOf(b)
  {
    if a == [] {
      assert a + b == b;
    } else {
      assert (a + b)[1..] == a[1..] + b;
      BytesOfAppend(a[1..], b);
    }
  }

  lemma BytesOfSnoc(evs: seq<ReadEvent>, ev: ReadEvent)
    ensures BytesOf(evs + [ev]) == BytesOf(evs) + EventBytes(ev)
  {
    BytesOfAppend(evs, [ev]);
    assert [ev][1..] == [];
    Empty(EventBytes(ev));
  }

  /** Delivered, then outstanding, then unread bytes. */
  function Total(o: Outcome): string {
    match o
    case Done(_, data, kept, rest) => data + (kept + BytesOf(rest))
    case Waiting(kept) => kept
  }

  lemma LookConserves(re: Regex, out: string)
    ensures var l := LookForRegex(re, out); l.Match? ==> l.data + l.kept == out
  {
  }

  lemma ExamineConserves(re: Regex, timed: bool, onFlow: bool, elapsed: bool, out: string)
    ensures var v := Examine(re, timed, onFlow, elapsed, out); v.Deliver? ==> v.data + v.kept == out
  {
  }

  lemma {:induction false} RecvRegexReadsConserves(
    re: Regex, timed: bool, onFlow: bool, out: string, evs: seq<ReadEvent>)
    ensures Total(RecvRegexReads(re, timed, onFlow, out, evs)) == out + BytesOf(evs)
    decreases |evs|
  {
    Empty(out);
    if evs != [] {
      var ev, rest := evs[0], evs[1..];
      Assoc(out, EventBytes(ev), BytesOf(rest));
      RecvRegexReadsConserves(re, timed, onFlow, out + EventBytes(ev), rest);
      if ev.Chunk? {
        ExamineConserves(re, timed, onFlow, ev.elapsed, out + ev.data);
        var v := Examine(re, timed, onFlow, ev.elapsed, out + ev.data);
        if v.Deliver? {
          Assoc(v.data, v.kept, BytesOf(rest));
        }
      } else {
        Assoc("", out, BytesOf(rest));
      }
    }
  }

  lemma {:induction false} RecvPlainReadsConserves(timed: bool, evs: seq<ReadEvent>)
    ensures Total(RecvPlainReads(timed, evs)) == BytesOf(evs)
  {
    if evs != [] {
      var b, rest := EventBytes(evs[0]), BytesOf(evs[1..]);
      RecvPlainReadsConserves(timed, evs[1..]);
      Empty(rest);
      Empty(b);
    }
  }

  /** One pdip_recv(), whatever its arguments and the reads: nothing lost, duplicated or reordered. */
  lemma RecvConserves(re: Option<Regex>, timed: bool, onFlow: bool, out: string, evs: seq<ReadEvent>)
    ensures Total(Recv(re, timed, onFlow, out, evs)) == out + BytesOf(evs)
  {
    match re {
      case None =>
        Empty(BytesOf(evs));
        if out == "" {
          RecvPlainReadsConserves(timed, evs);
        }
      case Some(r) =>
        var l := LookForRegex(r, out);
        if l.Match? {
          LookConserves(r, out);
          Assoc(l.data, l.kept, BytesOf(evs));
        } else {
          RecvRegexReadsConserves(r, timed, onFlow, out, evs);
        }
    }
  }

  /** One event: the call returns, or goes on with `out'` outstanding. */
  datatype Reaction = Returns(rc: RecvCode, data: string, kept: string) | GoesOn(out: string)

  function ReactionTo(re: Regex, timed: bool, onFlow: bool, out: string, ev: ReadEvent): Reaction {
    match ev
    case Interrupted => GoesOn(out)
    case Silence => if timed then Returns(Timeout, "", out) else GoesOn(out)
    case Failed => Returns(Error, "", out)
    case Eof(elapsed) => Returns(if timed && elapsed then Timeout else Abort, "", out)
    case Chunk(data, elapsed) =>
      match Examine(re, timed, onFlow, elapsed, out + data)
      case Deliver(rc, data', kept) => Returns(rc, data', kept)
      case KeepReading => GoesOn(out + data)
  }

  lemma ReadsStep(re: Regex, timed: bool, onFlow: bool, out: string, evs: seq<ReadEvent>)
    requires evs != []
    ensures RecvRegexReads(re, timed, onFlow, out, evs) ==
            match ReactionTo(re, timed, onFlow, out, evs[0])
            case Returns(rc, data, kept) => Done(rc, data, kept, evs[1..])
            case GoesOn(out') => RecvRegexReads(re, timed, onFlow, out', evs[1..])
  {
    hide Examine;
  }

  /** A call consumes only what it needs: later events change nothing but the remainder. */
  lemma {:induction false} RecvRegexReadsExtend(
    re: Regex, timed: bool, onFlow: bool, out: string, evs: seq<ReadEvent>, more: seq<ReadEvent>)
    ensures match RecvRegexReads(re, timed, onFlow, out, evs)
            case Done(rc, data, kept, rest) =>
              RecvRegexReads(re, timed, onFlow, out, evs + more) == Done(rc, data, kept, rest + more)
            case Waiting(kept) =>
              RecvRegexReads(re, timed, onFlow, out, evs + more) == RecvRegexReads(re, timed, onFlow, kept, more)
    decreases |evs|
  {
    if evs == [] {
      Empty(more);
    } else {
      hide RecvRegexReads, ReactionTo;
      ReadsStep(re, timed, onFlow, out, evs);
      ReadsStep(re, timed, onFlow, out, evs + more);
      assert (evs + more)[0] == evs[0] && (evs + more)[1..] == evs[1..] + more;
      var t := ReactionTo(re, timed, onFlow, out, evs[0]);
      if t.GoesOn? {
        RecvRegexReadsExtend(re, timed, onFlow, t.out, evs[1..], more);
      }
    }
  }

  ghost predicate IsSuffix(rest: seq<ReadEvent>, evs: seq<ReadEvent>) {
    rest == evs || (evs != [] && IsSuffix(rest, evs[1..]))
  }

  /** A reception that returns after a read leaves the last events, one less at least. */
  lemma {:induction false} RestIsSuffix(re: Regex, timed: bool, onFlow: bool, out: string, evs: seq<ReadEvent>)
    ensures var o := RecvRegexReads(re, timed, onFlow, out, evs);
            o.Done? ==> IsSuffix(o.rest, evs) && |o.rest| < |evs|
    decreases |evs|
  {
    if evs != [] {
      RestIsSuffix(re, timed, onFlow, out, evs[1..]);
      RestIsSuffix(re, timed, onFlow, out + EventBytes(evs[0]), evs[1..]);
      assert IsSuffix(evs[1..], evs[1..]);
    }
  }

  // ------------------------------------------------------- line discipline of RECV_ON_THE_FLOW

  /**
   With a regular expression, no timeout and RECV_ON_THE_FLOW, whatever is outstanding at first: a DATA
   result is a non-empty block of complete lines that does not contain a match, and what is kept is its
   newline-free tail, so that an incomplete last line is never delivered in halves. A reception that still
   waits keeps such a tail too, unless it has read nothing.
   */
  ghost predicate LineDisciplined(re: Regex, out: string, o: Outcome) {
    match o
    case Done(rc, data, kept, _) =>
      && rc != Timeout
      && (rc == Data ==>
            EndsWithNewline(data) && '\n' !in kept && LookForRegex(re, data + kept) == NoMatch)
    case Waiting(kept) => kept == out || '\n' !in kept
  }

  /** What is done of the outstanding data after a read. */
  lemma ExamineDiscipline(re: Regex, elapsed: bool, out: string)
    ensures match Examine(re, false, true, elapsed, out)
            case Deliver(rc, data, kept) =>
              && (rc == Found || rc == Data)
              && (rc == Data ==> EndsWithNewline(data) && '\n' !in kept && LookForRegex(re, data + kept) == NoMatch)
            case KeepReading => '\n' !in out
  {
    var k := LinesLength(out);
    assert out[..k] + out[k..] == out;
    assert k == 0 ==> out[k..] == out;
  }

  lemma {:induction false} ReadsDiscipline(re: Regex, out: string, evs: seq<ReadEvent>)
    ensures LineDisciplined(re, out, RecvRegexReads(re, false, true, out, evs))
    decreases |evs|
  {
    hide Examine, LookForRegex, LinesLength;
    if evs != [] {
      var out', rest := out + EventBytes(evs[0]), evs[1..];
      Empty(out);
      ReadsDiscipline(re, out', rest);
      if evs[0].Chunk? {
        ExamineDiscipline(re, evs[0].elapsed, out');
      }
    }
  }

  lemma LineDiscipline(re: Regex, out: string, evs: seq<ReadEvent>)
    ensures LineDisciplined(re, out, RecvRegex(re, false, true, out, evs))
  {
    ReadsDiscipline(re, out, evs);
  }

  // ------------------------------------------------------------------- whole runs

  /** The calls that can be made on an object between two pdip_exec(). */
  datatype Call = RecvCall(re: Option<Regex>, timed: bool) | FlushCall

  function CallSpec(call: Call, onFlow: bool, out: string, evs: seq<ReadEvent>): Outcome {
    match call
    case RecvCall(re, timed) => Recv(re, timed, onFlow, out, evs)
    case FlushCall => Done(Data, out, "", evs)
  }

  /** A run: the data handed to the user by each call, the outstanding data and the events left. */
  datatype Run = Run(delivered: seq<string>, kept: string, rest: seq<ReadEvent>)

  /** The session stops at a call that never returns or that aborts. */
  function Session(calls: seq<Call>, onFlow: bool, out: string, evs: seq<ReadEvent>): Run {
    if calls == [] then Run([], out, evs)
    else
      match CallSpec(calls[0], onFlow, out, evs)
      case Waiting(kept) => Run([], kept, [])
      case Done(rc, data, kept, rest) =>
        if rc == Abort then Run([data], kept, rest)
        else
          var r := Session(calls[1..], onFlow, kept, rest);
          r.(delivered := [data] + r.delivered)
  }

  /**
   Stream conservation over every run: the data delivered by all the calls in order, then the
   outstanding data, then the bytes still to read, is exactly what was outstanding at first
   followed by all the bytes of the pseudo-terminal.
   */
  lemma {:induction false} SessionConserves(calls: seq<Call>, onFlow: bool, out: string, evs: seq<ReadEvent>)
    ensures var r := Session(calls, onFlow, out, evs);
            Concat(r.delivered) + (r.kept + BytesOf(r.rest)) == out + BytesOf(evs)
  {
    if calls != [] {
      hide CallSpec, BytesOf, Concat;
      var o := CallSpec(calls[0], onFlow, out, evs);
      CallConserves(calls[0], onFlow, out, evs);
      match o {
        case Waiting(kept) => NothingMore(kept);
        case Done(rc, data, kept, rest) =>
          if rc == Abort {
            OneBlock(data, [], kept + BytesOf(rest));
          } else {
            SessionConserves(calls[1..], onFlow, kept, rest);
            var later := Session(calls[1..], onFlow, kept, rest);
            OneBlock(data, later.delivered, later.kept + BytesOf(later.rest));
          }
      }
    }
  }

  lemma CallConserves(call: Call, onFlow: bool, out: string, evs: seq<ReadEvent>)
    ensures Total(CallSpec(call, onFlow, out, evs)) == out + BytesOf(evs)
  {
    hide Recv, BytesOf;
    if call.RecvCall? {
      RecvConserves(call.re, call.timed, onFlow, out, evs);
    }
  }

  lemma OneBlock(data: string, blocks: seq<string>, tail: string)
    ensures Concat([data] + blocks) + tail == data + (Concat(blocks) + tail)
    ensures [data] + [] == [data] && Concat([]) + tail == tail
  {
    assert ([data] + blocks)[1..] == blocks;
    Assoc(data, Concat(blocks), tail);
  }

  lemma NothingMore(kept: string)
    ensures Concat([]) + (kept + BytesOf([])) == kept
  {
    Empty(kept);
  }
}
