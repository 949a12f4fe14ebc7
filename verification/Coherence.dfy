/**
 What the daemon can find in its display when a reception ends, whatever was outstanding and whatever is
 read: its "incoherent display" branches cannot be reached, and one of its assertions can.
 */
module Coherence {
  import opened Bytes
  import opened StreamSpec
  import opened Prompt
  import opened Framing
  import opened DaemonSpec
  import opened DaemonRuns

  /** The prompt stands at the end, alone on its line. */
  predicate EndsWithPrompt(p: string, data: string) {
    && |data| >= |p| && data[|data| - |p|..] == p
    && (|data| == |p| || data[|data| - |p| - 1] == '\n')
  }

  lemma MatchEnds(p: string, out: string, e: nat)
    requires |p| <= e <= |out| && MatchAt(p, out, e - |p|)
    ensures EndsWithPrompt(p, out[..e])
  {
    assert out[..e][e - |p|..] == out[e - |p|..][..|p|] == p;
    assert e > |p| ==> out[..e][e - |p| - 1] == out[e - |p| - 1];
  }

  lemma LookEnds(p: string, out: string)
    requires p != ""
    ensures var l := LookForRegex(PromptRegex(p), out); l.Match? ==> EndsWithPrompt(p, l.data)
  {
    hide FindPrompt, EndsWithPrompt, MatchAt;
    var r := FindPrompt(p, out, 0);
    if out != "" && r.Some? {
      MatchEnds(p, out, r.value);
    }
  }

  /** How a block given to the user ends. */
  ghost predicate Shaped(p: string, rc: RecvCode, data: string) {
    && (rc == Found ==> EndsWithPrompt(p, data))
    && (rc == Data ==> EndsWithNewline(data))
    && rc != Timeout
  }

  lemma ReactionShaped(p: string, out: string, ev: ReadEvent)
    requires p != ""
    ensures var t := ReactionTo(PromptRegex(p), false, true, out, ev); t.Returns? ==> Shaped(p, t.rc, t.data)
  {
    hide LookForRegex, PromptRegex, EndsWithPrompt;
    if ev.Chunk? {
      LookEnds(p, out + ev.data);
      ExamineDiscipline(PromptRegex(p), ev.elapsed, out + ev.data);
    }
  }

  lemma {:induction false} ReadsShaped(p: string, out: string, evs: seq<ReadEvent>)
    requires p != ""
    ensures var o := RecvRegexReads(PromptRegex(p), false, true, out, evs); o.Done? ==> Shaped(p, o.rc, o.data)
    decreases |evs|
  {
    if evs != [] {
      hide RecvRegexReads, ReactionTo, PromptRegex, Shaped;
      ReadsStep(PromptRegex(p), false, true, out, evs);
      ReactionShaped(p, out, evs[0]);
      var t := ReactionTo(PromptRegex(p), false, true, out, evs[0]);
      if t.GoesOn? {
        ReadsShaped(p, t.out, evs[1..]);
      }
    }
  }

  /** A reception of the daemon gives the prompt at the end, alone on its line, or complete lines. */
  lemma ReceivedShaped(p: string, kept: string, evs: seq<ReadEvent>)
    requires p != ""
    ensures var o := Receive(p, kept, evs); o.Done? ==> Shaped(p, o.rc, o.data)
  {
    hide RecvRegexReads, LookForRegex, PromptRegex, EndsWithPrompt;
    LookEnds(p, kept);
    ReadsShaped(p, kept, evs);
  }

  // ------------------------------------------------------------------ what the daemon makes of it

  lemma FoundRead(data: string, status: int)
    requires EndsWithPrompt(PROMPT, data)
    ensures ReadDisplay(Found, data, true).code == PromptSeen
    ensures ReadStatus(Found, data, status).code == if data == "\n" + PROMPT then Crash else PromptSeen
    ensures |data| == |PROMPT| + 1 <==> data == "\n" + PROMPT
  {
    if |data| == |PROMPT| + 1 {
      assert data == data[..1] + data[1..];
      assert data[..1] == "\n";
    }
  }

  lemma LinesRead(data: string, status: int)
    requires EndsWithNewline(data)
    ensures ReadDisplay(Data, data, true).code == MoreToCome && ReadStatus(Data, data, status).code == MoreToCome
  {
  }

  /**
   For every outstanding text, every sequence of reads and every status: the display is never incoherent when
   the reception gives the prompt or data. The end of an output is always told as such; the status is told
   but in one case: the assertion on the length of the display fails exactly when a newline comes alone
   before the prompt.
   */
  lemma NeverIncoherent(kept: string, evs: seq<ReadEvent>, status: int)
    ensures var o := Receive(PROMPT, kept, evs);
            && (o.Done? && o.rc == Found ==>
                  && ReadDisplay(o.rc, o.data, true).code == PromptSeen
                  && ReadStatus(o.rc, o.data, status).code == (if o.data == "\n" + PROMPT then Crash else PromptSeen)
                  && (o.data == "\n" + PROMPT <==> |o.data| == |PROMPT| + 1))
            && (o.Done? && o.rc == Data ==>
                  && ReadDisplay(o.rc, o.data, true).code == MoreToCome
                  && ReadStatus(o.rc, o.data, status).code == MoreToCome)
  {
    hide Receive, ReadDisplay, ReadStatus, EndsWithPrompt;
    ReceivedShaped(PROMPT, kept, evs);
    var o := Receive(PROMPT, kept, evs);
    if o.Done? && o.rc == Found {
      FoundRead(o.data, status);
    } else if o.Done? && o.rc == Data {
      LinesRead(o.data, status);
    }
  }

  /** The shell is read in this state. */
  predicate IsRead(s: ShellState) {
    s == WaitEoc || s == WaitStatus || s == Freeing
  }

  /**
   The daemon itself: reading a shell makes an assertion fail if and only if the shell has ended, or a newline
   comes alone before the prompt while the status is awaited.
   */
  lemma AbortExact(d: Daemon, i: nat, evs: seq<ReadEvent>, sendOk: bool, submitOk: bool)
    requires Inv(d) && Legal(d, ShellReady(i, evs, sendOk, submitOk)) && !d.crashed
    ensures var o := Received(d, i, evs);
            Step(d, ShellReady(i, evs, sendOk, submitOk)).crashed <==>
              || (IsRead(d.shells[i].state) && o.rc == Abort)
              || (d.shells[i].state == WaitStatus && o.rc == Found && o.data == "\n" + PROMPT)
  {
    hide Receive;
    var o, s := Received(d, i, evs), d.shells[i];
    assert ShellLinked(d.shells, d.clients, i);
    ReceivedShaped(PROMPT, s.kept, evs);
    hide Inv, EndsWithPrompt;
    if s.state == WaitEoc {
      DisplayCrash(d, i, o.rc, o.data, o.kept, sendOk, submitOk);
    } else if s.state == WaitStatus {
      StatusCrash(d, i, o.rc, o.data, o.kept);
    }
  }

  lemma DisplayCrash(d: Daemon, i: nat, rc: RecvCode, data: string, kept: string, sendOk: bool, submitOk: bool)
    requires i < |d.shells| && Linked(d, i)
    ensures DisplayData(d, i, rc, data, kept, sendOk, submitOk).crashed <==> d.crashed || rc == Abort
  {
  }

  lemma StatusCrash(d: Daemon, i: nat, rc: RecvCode, data: string, kept: string)
    requires i < |d.shells| && Linked(d, i) && Shaped(PROMPT, rc, data)
    ensures StatusData(d, i, rc, data, kept).crashed
            <==> d.crashed || rc == Abort || (rc == Found && data == "\n" + PROMPT)
  {
    hide EndsWithPrompt;
    if rc == Found {
      FoundRead(data, d.shells[i].status);
    } else if rc == Data {
      LinesRead(data, d.shells[i].status);
    }
    hide ReadStatus;
    CodeCrash(d, i, rc, data, kept);
  }

  lemma CodeCrash(d: Daemon, i: nat, rc: RecvCode, data: string, kept: string)
    requires i < |d.shells| && Linked(d, i)
    ensures StatusData(d, i, rc, data, kept).crashed <==> d.crashed || ReadStatus(rc, data, d.shells[i].status).code == Crash
  {
    hide ReadStatus;
  }

  /** The input of this failure: a shell prints a newline before its prompt, behind the line of the status. */
  lemma AbortInput(d: Daemon, i: nat)
    requires Inv(d) && i < |d.shells| && d.shells[i].state == WaitStatus && d.shells[i].kept == "" && !d.crashed
    ensures var e := ShellReady(i, [Chunk("\n" + PROMPT, false)], true, true);
            Legal(d, e) && Healthy(e.evs) && Step(d, e).crashed
  {
    var evs := [Chunk("\n" + PROMPT, false)];
    LonelyNewline();
    hide Inv, Receive, Healthy;
    AbortExact(d, i, evs, true, true);
  }

  lemma LonelyNewline()
    ensures var evs := [Chunk("\n" + PROMPT, false)];
            Receive(PROMPT, "", evs) == Done(Found, "\n" + PROMPT, "", []) && Healthy(evs)
  {
    var text := "\n" + PROMPT;
    LonelyFramed();
    hide Framed, IsPrompt, Healthy, FindPrompt, RecvRegex;
    OneRead(text);
    MatchAtEnd(PROMPT, "\n");
    FoundAtOnce(PromptRegex(PROMPT), text);
  }

  lemma LonelyFramed()
    ensures IsPrompt(PROMPT) && Framed(PROMPT, "\n") && NoNul("\n" + PROMPT)
  {
  }

  lemma LookWhole(re: Regex, text: string)
    requires re(text) == Some(|text|) && |text| > 1
    ensures LookForRegex(re, text) == Match(text, "")
  {
  }

  lemma FoundAtOnce(re: Regex, text: string)
    requires re(text) == Some(|text|) && |text| > 1
    ensures RecvRegex(re, false, true, "", [Chunk(text, false)]) == Done(Found, text, "", [])
  {
    LookWhole(re, text);
    hide LookForRegex, RecvRegexReads;
    var evs := [Chunk(text, false)];
    ReadsStep(re, false, true, "", evs);
    assert "" + text == text && evs[1..] == [];
    NothingLooked(re);
  }

  lemma NothingLooked(re: Regex)
    ensures LookForRegex(re, "") == NoMatch
  {
  }
}
