/**
 A shell in conversation: each line submitted is answered by `out + PROMPT`. Whatever the chopping
 of these bytes by read(), the receptions on the flow deliver `out` by blocks of complete lines and
 the prompt once, at the end.
 */
module Framing {
  import opened Bytes
  import opened StreamSpec
  import opened Prompt

  /** The reads go on without failure nor end of file. */
  predicate Healthy(evs: seq<ReadEvent>) {
    ValidEvents(evs) && forall i :: 0 <= i < |evs| ==> !evs[i].Failed? && !evs[i].Eof?
  }

  /** One reception of the daemon: pdip_recv() with the prompt pattern, on the flow, no timeout. */
  function Receive(p: string, kept: string, evs: seq<ReadEvent>): Outcome {
    RecvRegex(PromptRegex(p), false, true, kept, evs)
  }

  /** In the middle of an answer: the output lines still to deliver are `out`, then comes the prompt;
      `kept` is outstanding, `unread` is not read yet. */
  ghost predicate Answering(p: string, out: string, kept: string, unread: string) {
    IsPrompt(p) && Framed(p, out) && kept + unread == out + p && unread != ""
  }

  /** What a reception can do in the middle of an answer: deliver some lines, deliver all the rest with
      the prompt, or wait; `later` is what is not read by the events given. */
  ghost predicate Progress(p: string, out: string, later: string, o: Outcome) {
    match o
    case Done(rc, data, kept, rest) =>
      if rc == Found then data == out + p && kept == "" && BytesOf(rest) + later == ""
      else
        && rc == Data && data != "" && data <= out && EndsWithNewline(data)
        && Answering(p, out[|data|..], kept, BytesOf(rest) + later)
    case Waiting(kept) => Answering(p, out, kept, later)
  }

  lemma CutInside(a: string, b: string, out: string, p: string)
    requires a + b == out + p && '\n' !in p && WholeLines(a)
    ensures a <= out && b == out[|a|..] + p
  {
    var full := out + p;
    assert forall i :: 0 <= i < |a| ==> a[i] == full[i];
    assert forall i :: |out| <= i < |full| ==> full[i] == p[i - |out|];
    assert a == full[..|a|] && b == full[|a|..];
  }

  /** One chunk in the middle of an answer. */
  lemma ChunkProgress(p: string, out: string, seen: string, rest: seq<ReadEvent>, later: string, elapsed: bool)
    requires IsPrompt(p) && Framed(p, out) && seen + (BytesOf(rest) + later) == out + p
    ensures match Examine(PromptRegex(p), false, true, elapsed, seen)
            case Deliver(rc, data, kept) => Progress(p, out, later, Done(rc, data, kept, rest))
            case KeepReading => Answering(p, out, seen, BytesOf(rest) + later)
  {
    if BytesOf(rest) + later == "" {
      Empty(seen);
      MatchAtEnd(p, out);
    } else {
      NoMatchYet(p, out, seen, BytesOf(rest) + later);
      LinesProgress(p, out, seen, LinesLength(seen), BytesOf(rest) + later);
    }
  }

  /** Some complete lines of the answer are delivered, the prompt is not reached. */
  lemma LinesProgress(p: string, out: string, seen: string, k: nat, unread: string)
    requires Answering(p, out, seen, unread)
    requires k <= |seen| && WholeLines(seen[..k])
    ensures seen[..k] <= out && Answering(p, out[k..], seen[k..], unread)
  {
    Assoc(seen[..k], seen[k..], unread);
    assert seen[..k] + seen[k..] == seen;
    CutInside(seen[..k], seen[k..] + unread, out, p);
    FramedTail(p, out, k);
  }

  lemma {:induction false} ReadsProgress(p: string, out: string, kept: string, evs: seq<ReadEvent>, later: string)
    requires Healthy(evs) && Answering(p, out, kept, BytesOf(evs) + later)
    ensures Progress(p, out, later, RecvRegexReads(PromptRegex(p), false, true, kept, evs))
    decreases |evs|
  {
    Empty(later);
    if evs != [] {
      var b, rest := EventBytes(evs[0]), evs[1..];
      Assoc(b, BytesOf(rest), later);
      Assoc(kept, b, BytesOf(rest) + later);
      if b == "" {
        Empty(BytesOf(rest) + later);
        ReadsProgress(p, out, kept, rest, later);
      } else {
        ChunkProgress(p, out, kept + b, rest, later, evs[0].elapsed);
        if Examine(PromptRegex(p), false, true, evs[0].elapsed, kept + b).KeepReading? {
          ReadsProgress(p, out, kept + b, rest, later);
        }
      }
    }
  }

  /** In the middle of an answer, a reception makes progress and the prompt is found exactly at the end. */
  lemma ReceiveProgress(p: string, out: string, kept: string, evs: seq<ReadEvent>, later: string)
    requires Healthy(evs) && Answering(p, out, kept, BytesOf(evs) + later)
    ensures Progress(p, out, later, Receive(p, kept, evs))
  {
    NoMatchYet(p, out, kept, BytesOf(evs) + later);
    ReadsProgress(p, out, kept, evs, later);
  }

  // ------------------------------------------------------------------- whole answers

  /** Receptions one after the other until the prompt is found: the blocks received, whether the prompt
      was found, what is left. */
  datatype Dialog = Dialog(blocks: seq<string>, found: bool, kept: string, rest: seq<ReadEvent>)

  function Converse(p: string, kept: string, evs: seq<ReadEvent>): Dialog
    decreases |evs|
  {
    RestIsSuffix(PromptRegex(p), false, true, kept, evs);
    match Receive(p, kept, evs)
    case Done(Found, data, kept', rest) => Dialog([data], true, kept', rest)
    case Done(Data, data, kept', rest) =>
      var d := Converse(p, kept', rest);
      d.(blocks := [data] + d.blocks)
    case Done(_, data, kept', rest) => Dialog([data], false, kept', rest)
    case Waiting(kept') => Dialog([], false, kept', [])
  }

  /** The blocks are the output of the command, the prompt being found right behind it, and nothing is left. */
  ghost predicate Delivers(p: string, out: string, d: Dialog) {
    && d.found && d.kept == "" && BytesOf(d.rest) == ""
    && Concat(d.blocks) == out + p && d.blocks != [] && |p| <= |d.blocks[|d.blocks| - 1]|
  }

  lemma {:induction false} HealthySuffix(rest: seq<ReadEvent>, evs: seq<ReadEvent>)
    requires Healthy(evs) && IsSuffix(rest, evs)
    ensures Healthy(rest)
    decreases |evs|
  {
    if rest != evs {
      HealthySuffix(rest, evs[1..]);
    }
  }

  lemma ReceiveHealthy(p: string, kept: string, evs: seq<ReadEvent>)
    requires Healthy(evs)
    ensures var o := Receive(p, kept, evs); o.Done? ==> Healthy(o.rest)
  {
    var o := RecvRegexReads(PromptRegex(p), false, true, kept, evs);
    RestIsSuffix(PromptRegex(p), false, true, kept, evs);
    if o.Done? {
      HealthySuffix(o.rest, evs);
    }
  }

  lemma {:induction false} ConverseDelivers(p: string, out: string, kept: string, evs: seq<ReadEvent>)
    requires Healthy(evs) && Answering(p, out, kept, BytesOf(evs))
    ensures Delivers(p, out, Converse(p, kept, evs))
    decreases |evs|
  {
    Empty(BytesOf(evs));
    ReceiveProgress(p, out, kept, evs, "");
    var o := Receive(p, kept, evs);
    Empty(BytesOf(o.rest));
    if o.rc == Found {
      LastBlock(p, out, o.kept, o.rest);
    } else {
      RestIsSuffix(PromptRegex(p), false, true, kept, evs);
      ReceiveHealthy(p, kept, evs);
      ConverseDelivers(p, out[|o.data|..], o.kept, o.rest);
      BlockBefore(p, out, o.data, Converse(p, o.kept, o.rest));
    }
  }

  lemma LastBlock(p: string, out: string, kept: string, rest: seq<ReadEvent>)
    requires kept == "" && BytesOf(rest) == ""
    ensures Delivers(p, out, Dialog([out + p], true, kept, rest))
  {
  }

  lemma BlockBefore(p: string, out: string, data: string, d: Dialog)
    requires data <= out && Delivers(p, out[|data|..], d)
    ensures Delivers(p, out, d.(blocks := [data] + d.blocks))
  {
  }

  // ------------------------------------------------------------ when framing works, exactly

  lemma OneRead(data: string)
    requires data != "" && NoNul(data)
    ensures var evs := [Chunk(data, false)]; Healthy(evs) && BytesOf(evs) == data && evs[1..] == []
  {
  }

  lemma MatchAtCut(p: string, out: string, i: nat)
    requires IsPrompt(p) && i <= |out| && LineStart(out, i) && p <= out[i..]
    ensures FindPrompt(p, out[..i + |p|], 0).Some?
  {
    var a := out[..i + |p|];
    assert a[i..] == p && (i > 0 ==> a[i - 1] == out[i - 1]);
    assert MatchAt(p, a, i);
  }

  lemma FoundInFirstRead(p: string, a: string, more: seq<ReadEvent>)
    requires IsPrompt(p) && a != "" && FindPrompt(p, a, 0).Some?
    ensures var n := FindPrompt(p, a, 0).value;
            Receive(p, "", [Chunk(a, false)] + more) == Done(Found, a[..n], a[n..], more)
  {
    Empty(a);
    assert ([Chunk(a, false)] + more)[1..] == more;
  }

  lemma TooShort(p: string, out: string, evs: seq<ReadEvent>)
    requires var o := Receive(p, "", evs); o.Done? && o.rc == Found && |o.data| < |out + p|
    ensures !Delivers(p, out, Converse(p, "", evs))
  {
    var data := Receive(p, "", evs).data;
    assert Concat([data]) == data + Concat([data][1..]);
    Empty(data);
  }

  lemma TwoReads(a: string, b: string)
    requires a != "" && NoNul(a) && b != "" && NoNul(b)
    ensures var evs := [Chunk(a, false)] + [Chunk(b, false)]; Healthy(evs) && BytesOf(evs) == a + b
  {
    OneRead(a);
    OneRead(b);
    BytesOfAppend([Chunk(a, false)], [Chunk(b, false)]);
  }

  /** A line that starts like the prompt is taken for it when a read stops right behind. */
  lemma FoundTooEarly(p: string, out: string, i: nat) returns (evs: seq<ReadEvent>)
    requires IsPrompt(p) && NoNul(out) && i <= |out| && LineStart(out, i) && p <= out[i..]
    ensures Healthy(evs) && BytesOf(evs) == out + p && !Delivers(p, out, Converse(p, "", evs))
  {
    var a, b := out[..i + |p|], out[i + |p|..] + p;
    Assoc(a, out[i + |p|..], p);
    assert a + out[i + |p|..] == out;
    evs := [Chunk(a, false)] + [Chunk(b, false)];
    TwoReads(a, b);
    MatchAtCut(p, out, i);
    FoundInFirstRead(p, a, [Chunk(b, false)]);
    TooShort(p, out, evs);
  }

  lemma NoMatchBehindHalfLine(p: string, out: string, i: nat)
    requires IsPrompt(p) && !WholeLines(out) && i <= |out + p|
    requires forall j :: 0 <= j <= |out| && LineStart(out, j) ==> !(p <= out[j..])
    ensures !MatchAt(p, out + p, i)
  {
    var full := out + p;
    if i + |p| <= |full| && LineStart(full, i) {
      assert i <= |out| && (i > 0 ==> full[i - 1] == out[i - 1]);
      if i + |p| <= |out| {
        assert full[i..][..|p|] == out[i..][..|p|];
      } else if i < |out| {
        assert full[i + |p|] == p[i + |p| - |out|];
      }
    }
  }

  lemma NoMatchInTail(p: string, s: string, k: nat)
    requires k <= |s| && WholeLines(s[..k]) && FindPrompt(p, s, 0) == None
    ensures FindPrompt(p, s[k..], 0) == None
  {
    assert k > 0 ==> s[..k][k - 1] == s[k - 1];
    forall i | 0 <= i <= |s[k..]| ensures !MatchAt(p, s[k..], i) {
      assert s[k..][i..] == s[k + i..];
      assert i > 0 ==> s[k..][i - 1] == s[k + i - 1];
      assert !MatchAt(p, s, k + i);
    }
  }

  lemma NothingFound(p: string, full: string)
    requires IsPrompt(p) && full != "" && FindPrompt(p, full, 0) == None
    requires FindPrompt(p, full[LinesLength(full)..], 0) == None
    ensures !Converse(p, "", [Chunk(full, false)]).found
  {
    hide FindPrompt, LinesLength;
    Empty(full);
    assert [Chunk(full, false)][1..] == [];
    assert Receive(p, full[LinesLength(full)..], []).Waiting?;
  }

  /** Behind an incomplete line the prompt is never found. */
  lemma NeverFound(p: string, out: string) returns (evs: seq<ReadEvent>)
    requires IsPrompt(p) && NoNul(out) && !WholeLines(out)
    requires forall j :: 0 <= j <= |out| && LineStart(out, j) ==> !(p <= out[j..])
    ensures Healthy(evs) && BytesOf(evs) == out + p && !Delivers(p, out, Converse(p, "", evs))
  {
    var full := out + p;
    evs := [Chunk(full, false)];
    OneRead(full);
    forall i | 0 <= i <= |full| ensures !MatchAt(p, full, i) { NoMatchBehindHalfLine(p, out, i); }
    NoMatchInTail(p, full, LinesLength(full));
    NothingFound(p, full);
  }

  /**
   End-to-end framing is right for every chopping of the answer exactly when the output is made of
   complete lines none of which starts like the prompt.
   */
  lemma FramingExact(p: string, out: string)
    requires IsPrompt(p) && NoNul(out)
    ensures Framed(p, out) <==>
            forall evs :: Healthy(evs) && BytesOf(evs) == out + p ==> Delivers(p, out, Converse(p, "", evs))
  {
    if Framed(p, out) {
      forall evs | Healthy(evs) && BytesOf(evs) == out + p ensures Delivers(p, out, Converse(p, "", evs)) {
        Empty(out + p);
        ConverseDelivers(p, out, "", evs);
      }
    } else if i :| 0 <= i <= |out| && LineStart(out, i) && p <= out[i..] {
      var evs := FoundTooEarly(p, out, i);
    } else {
      var evs := NeverFound(p, out);
    }
  }
}
