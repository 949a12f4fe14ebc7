/** isys_recv_status(): the status of the last command is what the shell answers to `echo $?`. */
module Isys {
  import opened Bytes
  import opened StreamSpec
  import opened Receiving = Reception
  import opened Prompt
  import opened Framing
  import opened Decimal
  import opened Terminal
  import opened PdipLib
  import opened ShellStatus

  const PROMPT := "ISYS_PDIP> "

  /** Size of status_display. */
  const ROOM := 10

  // ------------------------------------------------------------------ the specification

  /** What one reception makes of the text `shown` received so far. */
  datatype Turn = Status(value: int) | More(shown: string) | Bad(rc: RecvCode)

  function StatusTurn(shown: string, rc: RecvCode, data: string): (t: Turn)
    ensures t.More? ==> rc == Data && t.shown == shown + data && |t.shown| < ROOM
  {
    match rc
    case Found =>
      if |data| > |PROMPT| + 1 then
        var text := data[..|data| - |PROMPT| - 1];
        if data[|text|] != '\n' || |text| >= ROOM - |shown| then Bad(Error) else Status(Encoded(Atoi(shown + text)))
      else if !EndsWithNewline(shown) then Bad(Error)
      else Status(Encoded(Atoi(shown[..|shown| - 1])))
    case Data => if |data| >= ROOM - |shown| then Bad(Error) else More(shown + data)
    case _ => Bad(rc)
  }

  /** The reception of the status: its outcome, what is outstanding behind it and the reads left. */
  datatype Reception =
    | Answered(value: int, kept: string, rest: seq<ReadEvent>)
    | Refused(rc: RecvCode, kept: string, rest: seq<ReadEvent>)
    | Pending

  /** pdip_recv() with the prompt, on the flow, with a timeout. */
  function Timed(kept: string, evs: seq<ReadEvent>): Outcome {
    RecvRegex(PromptRegex(PROMPT), true, true, kept, evs)
  }

  function ReadStatus(shown: string, kept: string, evs: seq<ReadEvent>): Reception
    decreases ROOM - |shown|, 1
  {
    var o := Timed(kept, evs);
    DataNotEmpty(kept, evs);
    if o.Waiting? then Pending else AfterTurn(StatusTurn(shown, o.rc, o.data), shown, o.kept, o.rest)
  }

  function AfterTurn(t: Turn, shown: string, kept: string, rest: seq<ReadEvent>): Reception
    requires t.More? ==> |shown| < |t.shown| < ROOM
    decreases ROOM - |shown|, 0
  {
    match t
    case Status(n) => Answered(n, kept, rest)
    case Bad(rc) => Refused(rc, kept, rest)
    case More(shown') => ReadStatus(shown', kept, rest)
  }

  lemma {:induction false} ReadsNotEmpty(kept: string, evs: seq<ReadEvent>)
    ensures var o := RecvRegexReads(PromptRegex(PROMPT), true, true, kept, evs); o.Done? && o.rc == Data ==> o.data != ""
    decreases |evs|
  {
    if evs != [] {
      hide RecvRegexReads, ReactionTo;
      ReadsStep(PromptRegex(PROMPT), true, true, kept, evs);
      ReactionNotEmpty(kept, evs[0]);
      var t := ReactionTo(PromptRegex(PROMPT), true, true, kept, evs[0]);
      if t.GoesOn? {
        ReadsNotEmpty(t.out, evs[1..]);
      }
    }
  }

  lemma ReactionNotEmpty(kept: string, ev: ReadEvent)
    ensures var t := ReactionTo(PromptRegex(PROMPT), true, true, kept, ev); t.Returns? && t.rc == Data ==> t.data != ""
  {
    hide LookForRegex, PromptRegex;
  }

  lemma DataNotEmpty(kept: string, evs: seq<ReadEvent>)
    ensures var o := Timed(kept, evs); o.Done? && o.rc == Data ==> o.data != ""
  {
    ReadsNotEmpty(kept, evs);
  }

  lemma FoundInText(text: string)
    ensures var l := LookForRegex(PromptRegex(PROMPT), text); l.Match? ==> |l.data| >= |PROMPT|
  {
  }

  lemma {:induction false} ReadsFound(kept: string, evs: seq<ReadEvent>)
    ensures var o := RecvRegexReads(PromptRegex(PROMPT), true, true, kept, evs);
            o.Done? && o.rc == Found ==> |o.data| >= |PROMPT|
    decreases |evs|
  {
    hide LookForRegex, PromptRegex;
    if evs != [] {
      Empty(kept);
      FoundInText(kept + EventBytes(evs[0]));
      ReadsFound(kept + EventBytes(evs[0]), evs[1..]);
    }
  }

  lemma FoundHasPrompt(kept: string, evs: seq<ReadEvent>)
    ensures var o := Timed(kept, evs); o.Done? && o.rc == Found ==> |o.data| >= |PROMPT|
  {
    FoundInText(kept);
    ReadsFound(kept, evs);
  }

  lemma IsTimed(kept: string, evs: seq<ReadEvent>)
    ensures var o := Timed(kept, evs);
            && o == StreamSpec.Recv(Some(PromptRegex(PROMPT)), true, true, kept, evs)
            && o == RecvRegex(PromptRegex(PROMPT), true, true, kept, evs)
            && (o.Done? && o.rc == Found ==> |o.data| >= |PROMPT|)
            && (o.Done? && o.rc == Data ==> |o.data| > 0)
  {
    FoundHasPrompt(kept, evs);
    DataNotEmpty(kept, evs);
  }

  /** isys_recv_data(): what is printed until the prompt is found, and what is returned; None while it waits. */
  datatype Shown = Shown(text: string, rc: Option<RecvCode>, kept: string, rest: seq<ReadEvent>)

  /** The part of the last block that is printed: nothing when only a newline comes before the prompt. */
  function LastShown(data: string): string {
    if |data| > |PROMPT| + 1 then data[..|data| - |PROMPT|] else ""
  }

  function ReadData(kept: string, evs: seq<ReadEvent>): Shown
    decreases |evs|
  {
    DataShrinks(kept, evs);
    match Timed(kept, evs)
    case Waiting(kept') => Shown("", None, kept', [])
    case Done(Found, data, kept', rest) =>
      Shown(LastShown(data), Some(Found), kept', rest)
    case Done(Data, data, kept', rest) =>
      var r := ReadData(kept', rest);
      r.(text := data + r.text)
    case Done(rc, _, kept', rest) => Shown("", Some(rc), kept', rest)
  }

  lemma DataShrinks(kept: string, evs: seq<ReadEvent>)
    ensures var o := Timed(kept, evs); o.Done? && o.rc == Data ==> |o.rest| < |evs|
  {
    RestIsSuffix(PromptRegex(PROMPT), true, true, kept, evs);
  }

  lemma TimedExtend(kept: string, evs: seq<ReadEvent>, more: seq<ReadEvent>)
    ensures match Timed(kept, evs)
            case Done(rc, data, kept', rest) => Timed(kept, evs + more) == Done(rc, data, kept', rest + more)
            case Waiting(kept') => true
  {
    RecvRegexReadsExtend(PromptRegex(PROMPT), true, true, kept, evs, more);
  }

  /** isystem(): what is printed, the status returned, and what is left for the next call; or it waits for ever. */
  datatype Call =
    | Ends(printed: string, status: int, kept: string, rest: seq<ReadEvent>)
    | Hangs(printed: string)

  /** The reads `evs` answer the command, `more` comes behind the request of the status; `sent` and `asked`
      tell whether these lines could be submitted. */
  function Called(sent: bool, asked: bool, kept: string, evs: seq<ReadEvent>, more: seq<ReadEvent>): Call {
    if !sent then Ends("", -1, kept, evs + more)
    else
      var r := ReadData(kept, evs);
      if r.rc == None then Hangs(r.text)
      else if r.rc != Some(Found) || !asked then Ends(r.text, -1, r.kept, r.rest + more)
      else
        match ReadStatus("", r.kept, r.rest + more)
        case Answered(status, kept', rest) => Ends(r.text, status, kept', rest)
        case Refused(_, kept', rest) => Ends(r.text, -1, kept', rest)
        case Pending => Hangs(r.text)
  }

  // ------------------------------------------------------------------ the code

  class Isys {
    const pdip: PdipCtx
    const display: UserBuffer
    var printed: string       // the standard output

    constructor (pdip: PdipCtx, display: UserBuffer)
      ensures this.pdip == pdip && this.display == display && printed == ""
    {
      this.pdip, this.display, printed := pdip, display, "";
    }

    ghost predicate Valid()
      reads this, pdip, display, pdip.outstanding, pdip.pty
    {
      && pdip.Valid() && display.Honest() && display.Coherent()
      && pdip.onFlow && pdip.pty != null && pdip.pty.Valid()
      && (display.display != null ==> display.display != pdip.outstanding)
    }

    /** The answer before the prompt, FOUND having been returned. */
    method Finish(text: array<char>, offset: nat) returns (ok: bool, status: int)
      requires display.Valid() && text.Length == ROOM && offset < ROOM && text != display.display
      requires text[offset] == NUL && NoNul(text[..offset]) && display.dataSz > 0
      modifies text, display.display
      ensures StatusTurn(old(text[..offset]), Found, old(display.Text())) == if ok then Status(status) else Bad(Error)
      ensures display.Honest()
    {
      ghost var shown, data := text[..offset], display.Text();
      ok, status := false, 0;
      if display.dataSz > |PROMPT| + 1 {
        var p := display.dataSz - |PROMPT| - 1;
        if display.display[p] != '\n' {
          return;
        }
        display.display[p] := NUL;
        var answer := Terminated(display.display, p);
        assert display.display[..p] == data[..p];
        CStringIs(data[..p], p);
        var n := Snprintf(text, offset, answer);
        if n >= ROOM - offset {
          return;
        }
        assert text[..offset + n] == shown + data[..p];
        status := StatusOf(text, offset + n);
      } else {
        if text[0] == NUL || text[offset - 1] != '\n' {
          return;
        }
        text[offset - 1] := NUL;
        assert text[..offset - 1] == shown[..offset - 1];
        status := StatusOf(text, offset - 1);
      }
      ok := true;
    }

    /** atoi() and the encoding. */
    method StatusOf(text: array<char>, n: nat) returns (status: int)
      requires n < text.Length && text[n] == NUL && NoNul(text[..n])
      ensures status == Encoded(Atoi(text[..n]))
    {
      var digits := Terminated(text, n);
      CStringIs(text[..n], n);
      assert text[..n][..n] == text[..n];
      status := Atoi(digits);
      if status % 256 < 128 {
        status := Wrapped(256 * status);
      }
    }

    /** pdip_recv() with the prompt and the timeout. */
    method Receive() returns (res: Step, ghost evs: seq<ReadEvent>)
      requires Valid()
      modifies pdip, display, pdip.pty, pdip.outstanding, display.display
      ensures Valid() && display.Valid() && pdip.Owned(display)
      ensures pdip.pty == old(pdip.pty) && pdip.pty.log == old(pdip.pty.log) + evs
      ensures res != Again && (res == Return(Data) ==> display.dataSz > 0)
      ensures res == Return(Found) ==> display.dataSz >= |PROMPT|
      ensures Timed(old(pdip.Outstanding()), evs) ==
              if res.Return? then Done(res.rc, display.Text(), pdip.Outstanding(), []) else Waiting(pdip.Outstanding())
      ensures res.Return? ==> Volume(pdip) + display.dataSz == old(Volume(pdip))
    {
      hide Timed, RecvRegex, StreamSpec.Recv, PromptRegex;
      ghost var out, log, script := pdip.Outstanding(), pdip.pty.log, pdip.pty.script;
      res, evs := pdip.Recv(display, Some(PromptRegex(PROMPT)), true);
      IsTimed(out, evs);
      Enough(PromptRegex(PROMPT), true, out, evs, log, script, pdip.pty.script);
    }

    /** One reception of isys_recv_data(); its text is printed if `out`. */
    method PrintTurn(out: bool) returns (res: Step, ghost text: string, ghost evs: seq<ReadEvent>)
      requires Valid()
      modifies this`printed, pdip, display, pdip.pty, pdip.outstanding, display.display
      ensures Valid() && pdip.Owned(display) && pdip.pty == old(pdip.pty) && pdip.pty.log == old(pdip.pty.log) + evs
      ensures printed == old(printed) + if out then text else ""
      ensures res == Again ==> Volume(pdip) < old(Volume(pdip))
      ensures PrintIs(res, text, pdip.Outstanding(), Timed(old(pdip.Outstanding()), evs))
    {
      hide Timed;
      res, evs := Receive();
      Empty(printed);
      ghost var data := display.Text();
      text := "";
      match res {
        case Return(Found) =>
          text := LastShown(data);
          if out {
            if display.dataSz < |PROMPT| {
              res := Return(Error);
            } else if display.dataSz > |PROMPT| + 1 {
              text := PrintHead(display.dataSz - |PROMPT|, true);
            }
          }
        case Return(Data) =>
          text := PrintHead(display.dataSz, out);
          assert text == data[..|data|] == data;
          res := Again;
        case _ =>
      }
    }

    /** printf("%s") of the display, cut at `p`. */
    method PrintHead(p: nat, out: bool) returns (ghost text: string)
      requires display.Valid() && 0 < p <= display.dataSz
      modifies this`printed, display.display
      ensures display.Honest() && text == old(display.Text())[..p]
      ensures printed == old(printed) + if out then text else ""
    {
      ghost var data := display.Text();
      display.display[p] := NUL;
      var s := Terminated(display.display, p);
      assert display.display[..p] == data[..p];
      assert forall c :: c in data[..p] ==> c in data;
      CStringIs(data[..p], p);
      assert data[..p][..p] == data[..p];
      text := s;
      Empty(printed);
      if out {
        printed := printed + s;
      }
    }

    /** isys_recv_data(): everything up to the prompt is printed as it comes, if `out`. */
    method RecvData(out: bool) returns (res: Step, ghost evs: seq<ReadEvent>)
      requires Valid()
      modifies this`printed, pdip, display, pdip.pty, pdip.outstanding, display.display
      ensures Valid() && pdip.Owned(display) && pdip.pty == old(pdip.pty) && pdip.pty.log == old(pdip.pty.log) + evs
      ensures var r := ReadData(old(pdip.Outstanding()), evs);
              && printed == old(printed) + (if out then r.text else "")
              && r.kept == pdip.Outstanding() && r.rest == []
              && res == match r.rc case None => Blocked case Some(rc) => Return(rc)
    {
      hide Printing, PrintIs, Timed, ReadData, PdipCtx.Outstanding;
      ghost var kept, text := pdip.Outstanding(), "";
      res, evs := Again, [];
      Empty(pdip.pty.log);
      Empty(printed);
      FirstPrint(kept);
      while res == Again
        invariant Valid() && pdip.Owned(display) && pdip.pty == old(pdip.pty)
        invariant pdip.pty.log == old(pdip.pty.log) + evs
        invariant printed == old(printed) + if out then text else ""
        invariant Printing(kept, evs, res, text, pdip.Outstanding())
        decreases res == Again, Volume(pdip)
      {
        ghost var now, piece, before := [], "", pdip.Outstanding();
        res, piece, now := PrintTurn(out);
        PrintAfter(kept, evs, text, before, now, res, piece, pdip.Outstanding());
        Assoc(old(pdip.pty.log), evs, now);
        Assoc(old(printed), text, piece);
        evs, text := evs + now, text + piece;
      }
      PrintEnds(kept, evs, res, text, pdip.Outstanding());
    }

    /** One reception, and what is done of it. */
    method OneTurn(text: array<char>, offset: nat)
      returns (res: Step, status: int, offset': nat, ghost evs: seq<ReadEvent>)
      requires Valid() && text.Length == ROOM && offset < ROOM && text[offset] == NUL && NoNul(text[..offset])
      requires text != pdip.outstanding && text != display.display
      modifies text, pdip, display, pdip.pty, pdip.outstanding, display.display
      ensures Valid() && pdip.Owned(display) && pdip.pty == old(pdip.pty) && pdip.pty.log == old(pdip.pty.log) + evs
      ensures text != pdip.outstanding && text != display.display
      ensures offset' < ROOM && (res == Again ==> offset < offset' && text[offset'] == NUL && NoNul(text[..offset']))
      ensures TurnIs(res, status, text[..offset'], old(text[..offset]), pdip.Outstanding(), Timed(old(pdip.Outstanding()), evs))
    {
      hide Timed;
      status, offset' := 0, offset;
      res, evs := Receive();
      match res {
        case Return(Found) =>
          var ok;
          ok, status := Finish(text, offset);
          res := Return(if ok then Found else Error);
        case Return(Data) =>
          res, offset' := Add(text, offset);
        case _ =>
      }
    }

    /** A piece of the answer joins the text received so far, if it fits. */
    method Add(text: array<char>, offset: nat) returns (res: Step, offset': nat)
      requires display.Valid() && text.Length == ROOM && offset < ROOM && text != display.display
      requires text[offset] == NUL && NoNul(text[..offset]) && display.dataSz > 0
      modifies text
      ensures offset' < ROOM && (res == Again ==> offset < offset' && text[offset'] == NUL && NoNul(text[..offset']))
      ensures StatusTurn(old(text[..offset]), Data, display.Text())
              == if res == Again then More(text[..offset']) else Bad(Error)
      ensures res == Again || res == Return(Error)
    {
      var data := Terminated(display.display, display.dataSz);
      CStringIs(display.display[..display.dataSz], display.dataSz);
      assert data == display.Text();
      var n := Snprintf(text, offset, data);
      res, offset' := Return(Error), offset;
      if n < ROOM - offset {
        offset' := offset + n;
        assert text[..offset'] == old(text[..offset]) + data;
        res := Again;
      }
    }

    /** isys_recv_status(); FOUND comes with the status. */
    method RecvStatus() returns (res: Step, status: int, ghost evs: seq<ReadEvent>)
      requires Valid()
      modifies pdip, display, pdip.pty, pdip.outstanding, display.display
      ensures Valid() && pdip.pty == old(pdip.pty) && pdip.pty.log == old(pdip.pty.log) + evs
      ensures ReadStatus("", old(pdip.Outstanding()), evs) ==
              match res
              case Return(Found) => Answered(status, pdip.Outstanding(), [])
              case Return(rc) => Refused(rc, pdip.Outstanding(), [])
              case _ => Pending
    {
      var text := new char[ROOM];
      text[0] := NUL;
      ghost var shown;
      FirstTurn(pdip.Outstanding(), 0);
      res, status, evs, shown := Turns(text);
    }

    /** isystem(), from the submission of the command to its status; None when it waits for ever. */
    method System(sent: bool, asked: bool)
      returns (status: Option<int>, ghost evs: seq<ReadEvent>, ghost more: seq<ReadEvent>)
      requires Valid()
      modifies this`printed, pdip, display, pdip.pty, pdip.outstanding, display.display
      ensures Valid() && pdip.pty == old(pdip.pty) && pdip.pty.log == old(pdip.pty.log) + evs + more
      ensures var c := Called(sent, asked, old(pdip.Outstanding()), evs, more);
              && printed == old(printed) + c.printed
              && if status.Some? then c == Ends(c.printed, status.value, pdip.Outstanding(), []) else c.Hangs?
    {
      hide ReadData, ReadStatus;
      evs, more, status := [], [], Some(-1);
      if !sent {
        NothingDone(pdip.pty.log, printed);
        return;
      }
      var res;
      res, evs := RecvData(true);
      NothingDone(pdip.pty.log, printed);
      if res == Blocked {
        return None, evs, more;
      }
      if res != Return(Found) || !asked {
        return;
      }
      var value;
      res, value, more := RecvStatus();
      match res {
        case Return(Found) => status := Some(value);
        case Return(_) => status := Some(-1);
        case _ => status := None;
      }
    }

    /** Reception after reception, into the small buffer. */
    method Turns(text: array<char>) returns (res: Step, status: int, ghost evs: seq<ReadEvent>, ghost shown: string)
      requires Valid() && text.Length == ROOM && text[0] == NUL && text != pdip.outstanding && text != display.display
      requires Reached(pdip.Outstanding(), [], Again, 0, "", pdip.Outstanding())
      modifies text, pdip, display, pdip.pty, pdip.outstanding, display.display
      ensures Valid() && pdip.pty == old(pdip.pty) && pdip.pty.log == old(pdip.pty.log) + evs && res != Again
      ensures Reached(old(pdip.Outstanding()), evs, res, status, shown, pdip.Outstanding())
    {
      hide Reached, TurnIs, PdipCtx.Valid, UserBuffer.Honest, UserBuffer.Coherent, Pty.Valid, PdipCtx.Outstanding, Timed, ReadStatus;
      var offset := 0;
      res, status, evs, shown := Again, 0, [], "";
      ghost var kept := pdip.Outstanding();
      Empty(pdip.pty.log);
      while res == Again
        invariant Valid() && pdip.Owned(display) && pdip.pty == old(pdip.pty)
        invariant pdip.pty.log == old(pdip.pty.log) + evs
        invariant text != pdip.outstanding && text != display.display && offset < ROOM
        invariant res == Again ==> text[offset] == NUL && NoNul(text[..offset]) && text[..offset] == shown
        invariant Reached(kept, evs, res, status, shown, pdip.Outstanding())
        decreases res == Again, ROOM - offset
      {
        ghost var now, status0, before := [], status, pdip.Outstanding();
        res, status, offset, now := OneTurn(text, offset);
        TurnAfter(kept, evs, status0, shown, before, now, res, status, text[..offset], pdip.Outstanding());
        Assoc(old(pdip.pty.log), evs, now);
        evs, shown := evs + now, text[..offset];
      }
    }
  }

  /** How the result of a turn, or the text it leaves, tells its outcome. */
  ghost predicate TurnIs(res: Step, status: int, shown': string, shown: string, kept: string, o: Outcome) {
    if res == Blocked then o.Waiting?
    else
      && o.Done? && o.kept == kept && o.rest == []
      && StatusTurn(shown, o.rc, o.data) ==
         match res
         case Return(Found) => Status(status)
         case Return(rc) => Bad(rc)
         case _ => More(shown')
  }

  /** How a reception ends, and the text it gives to print. */
  ghost predicate PrintIs(res: Step, text: string, kept: string, o: Outcome) {
    if res == Blocked then o.Waiting? && text == "" && o.kept == kept
    else
      && o.Done? && o.kept == kept && o.rest == []
      && match o.rc
         case Found => res == Return(Found) && text == LastShown(o.data)
         case Data => res == Again && text == o.data
         case rc => res == Return(rc) && text == ""
  }

  /** What has been printed for the reads `evs`, and what is to come. */
  ghost predicate Printing(kept0: string, evs: seq<ReadEvent>, res: Step, text: string, kept: string) {
    match res
    case Blocked => ReadData(kept0, evs) == Shown(text, None, kept, [])
    case Return(rc) => ReadData(kept0, evs) == Shown(text, Some(rc), kept, [])
    case Again =>
      forall more :: ReadData(kept0, evs + more) == ReadData(kept, more).(text := text + ReadData(kept, more).text)
  }

  lemma FirstPrint(kept: string)
    ensures Printing(kept, [], Again, "", kept)
  {
    forall more ensures ReadData(kept, [] + more) == ReadData(kept, more).(text := "" + ReadData(kept, more).text) {
      assert [] + more == more;
      Empty(ReadData(kept, more).text);
    }
  }

  lemma PrintEnds(kept0: string, evs: seq<ReadEvent>, res: Step, text: string, kept: string)
    requires Printing(kept0, evs, res, text, kept) && res != Again
    ensures var r := ReadData(kept0, evs);
            && r.text == text && r.kept == kept && r.rest == []
            && res == match r.rc case None => Blocked case Some(rc) => Return(rc)
  {
    hide ReadData;
  }

  lemma PrintAfter(kept0: string, evs: seq<ReadEvent>, text: string, kept: string, now: seq<ReadEvent>,
                   res: Step, piece: string, kept': string)
    requires Printing(kept0, evs, Again, text, kept)
    requires PrintIs(res, piece, kept', Timed(kept, now))
    ensures Printing(kept0, evs + now, res, text + piece, kept')
  {
    hide Timed, ReadData, LastShown;
    if res == Again {
      forall more ensures ReadData(kept0, (evs + now) + more)
                          == ReadData(kept', more).(text := (text + piece) + ReadData(kept', more).text) {
        Assoc(evs, now, more);
        TimedExtend(kept, now, more);
        assert [] + more == more;
        DataStep(kept, now + more);
        Assoc(text, piece, ReadData(kept', more).text);
      }
    } else {
      DataStep(kept, now);
    }
  }

  /** Where the reception is behind the reads `evs`. */
  ghost predicate Reached(kept0: string, evs: seq<ReadEvent>, res: Step, status: int, shown: string, kept: string) {
    match res
    case Blocked => ReadStatus("", kept0, evs) == Pending
    case Return(Found) => ReadStatus("", kept0, evs) == Answered(status, kept, [])
    case Return(rc) => ReadStatus("", kept0, evs) == Refused(rc, kept, [])
    case Again => forall more :: ReadStatus("", kept0, evs + more) == ReadStatus(shown, kept, more)
  }

  lemma TurnStep(shown: string, kept: string, evs: seq<ReadEvent>)
    ensures var o := Timed(kept, evs);
            ReadStatus(shown, kept, evs) ==
            if o.Waiting? then Pending
            else
              match StatusTurn(shown, o.rc, o.data)
              case Status(n) => Answered(n, o.kept, o.rest)
              case Bad(rc) => Refused(rc, o.kept, o.rest)
              case More(shown') => ReadStatus(shown', o.kept, o.rest)
  {
  }

  lemma FirstTurn(kept: string, status: int)
    ensures Reached(kept, [], Again, status, "", kept)
  {
    forall more ensures ReadStatus("", kept, [] + more) == ReadStatus("", kept, more) {
      assert [] + more == more;
    }
  }

  lemma TurnAfter(kept0: string, evs: seq<ReadEvent>, status0: int, shown: string, kept: string, now: seq<ReadEvent>,
                  res: Step, status: int, shown': string, kept': string)
    requires Reached(kept0, evs, Again, status0, shown, kept)
    requires TurnIs(res, status, shown', shown, kept', Timed(kept, now))
    ensures Reached(kept0, evs + now, res, status, shown', kept')
  {
    hide Timed, StatusTurn, ReadStatus;
    if res == Again {
      forall more ensures ReadStatus("", kept0, (evs + now) + more) == ReadStatus(shown', kept', more) {
        Assoc(evs, now, more);
        TimedExtend(kept, now, more);
        assert [] + more == more;
        assert ReadStatus("", kept0, evs + (now + more)) == ReadStatus(shown, kept, now + more);
        TurnStep(shown, kept, now + more);
      }
    } else {
      assert ReadStatus("", kept0, evs + now) == ReadStatus(shown, kept, now);
      TurnStep(shown, kept, now);
    }
  }

  // ------------------------------------------------------------------ the status, for every chopping

  /** Nothing fails, and no timeout runs out. */
  predicate Calm(evs: seq<ReadEvent>) {
    Healthy(evs) && forall i :: 0 <= i < |evs| ==> !evs[i].Silence? && (evs[i].Chunk? ==> !evs[i].elapsed)
  }

  /** A timeout that does not run out changes nothing. */
  lemma {:induction false} CalmReads(kept: string, evs: seq<ReadEvent>)
    requires Calm(evs)
    ensures RecvRegexReads(PromptRegex(PROMPT), true, true, kept, evs)
         == RecvRegexReads(PromptRegex(PROMPT), false, true, kept, evs)
    decreases |evs|
  {
    if evs != [] {
      Empty(kept);
      CalmReads(kept + EventBytes(evs[0]), evs[1..]);
    }
  }

  lemma CalmTimed(kept: string, evs: seq<ReadEvent>)
    requires Calm(evs)
    ensures Timed(kept, evs) == Framing.Receive(PROMPT, kept, evs)
  {
    CalmReads(kept, evs);
  }

  lemma {:induction false} CalmSuffix(rest: seq<ReadEvent>, evs: seq<ReadEvent>)
    requires Calm(evs) && IsSuffix(rest, evs)
    ensures Calm(rest)
    decreases |evs|
  {
    if rest != evs {
      CalmSuffix(rest, evs[1..]);
    }
  }

  lemma CalmRest(kept: string, evs: seq<ReadEvent>)
    requires Calm(evs)
    ensures var o := Timed(kept, evs); o.Done? ==> Calm(o.rest)
  {
    RestIsSuffix(PromptRegex(PROMPT), true, true, kept, evs);
    var o := RecvRegexReads(PromptRegex(PROMPT), true, true, kept, evs);
    if o.Done? {
      CalmSuffix(o.rest, evs);
    }
  }

  lemma NumberFramed(n: nat)
    ensures IsPrompt(PROMPT) && Framed(PROMPT, Show(n) + "\n") && '\n' !in Show(n)
  {
  }

  /** The number alone is the only block of complete lines of the answer. */
  lemma WholeNumber(n: nat, data: string)
    requires data != "" && data <= Show(n) + "\n" && EndsWithNewline(data)
    ensures data == Show(n) + "\n"
  {
  }

  /** The number has been received, with the prompt or alone before it. */
  lemma LastTurn(n: nat)
    requires |Show(n)| < ROOM
    ensures StatusTurn("", Found, Show(n) + "\n" + PROMPT) == Status(Encoded(n))
    ensures StatusTurn(Show(n) + "\n", Found, PROMPT) == Status(Encoded(n))
  {
    AtoiOfShow(n);
    var data := Show(n) + "\n" + PROMPT;
    assert data[..|data| - |PROMPT| - 1] == Show(n);
    Empty(Show(n));
    assert (Show(n) + "\n")[..|Show(n)|] == Show(n);
  }

  /** Behind the number: the prompt is found alone. */
  lemma PromptAlone(n: nat, kept: string, evs: seq<ReadEvent>)
    requires |Show(n)| < ROOM && Calm(evs) && Answering(PROMPT, "", kept, BytesOf(evs))
    ensures var r := ReadStatus(Show(n) + "\n", kept, evs);
            r.Answered? && r.value == Encoded(n) && r.kept == "" && BytesOf(r.rest) == ""
  {
    Empty(BytesOf(evs));
    CalmTimed(kept, evs);
    ReceiveProgress(PROMPT, "", kept, evs, "");
    var o := Timed(kept, evs);
    Empty(PROMPT);
    Empty(BytesOf(o.rest));
    LastTurn(n);
    TurnStep(Show(n) + "\n", kept, evs);
  }

  /**
   The status of the command is received for every chopping of the answer, the digits and the prompt
   arriving together or apart, as long as the number fits the buffer with its newline.
   */
  lemma StatusReceived(n: nat, kept: string, evs: seq<ReadEvent>)
    requires |Show(n)| + 1 < ROOM && Calm(evs) && Answering(PROMPT, Show(n) + "\n", kept, BytesOf(evs))
    ensures var r := ReadStatus("", kept, evs);
            r.Answered? && r.value == Encoded(n) && r.kept == "" && BytesOf(r.rest) == ""
  {
    var out := Show(n) + "\n";
    Empty(BytesOf(evs));
    CalmTimed(kept, evs);
    CalmRest(kept, evs);
    ReceiveProgress(PROMPT, out, kept, evs, "");
    var o := Timed(kept, evs);
    Empty(BytesOf(o.rest));
    LastTurn(n);
    TurnStep("", kept, evs);
    if o.rc == Data {
      WholeNumber(n, o.data);
      Empty(out);
      assert out[|out|..] == "";
      PromptAlone(n, o.kept, o.rest);
    }
  }

  lemma ShortNumber(n: nat)
    requires n <= 255
    ensures |Show(n)| <= 3
  {
    assert |Show(n / 100)| == 1 && |Show(n / 10)| <= 2;
  }

  /** Whatever the chopping, for all the exit statuses of a shell. */
  lemma SmallStatus(n: nat, evs: seq<ReadEvent>)
    requires n <= 255 && Calm(evs) && BytesOf(evs) == Show(n) + "\n" + PROMPT
    ensures var r := ReadStatus("", "", evs);
            r.Answered? && r.value == Encoded(n) && Means(r.value, n) && r.kept == "" && BytesOf(r.rest) == ""
  {
    NumberFramed(n);
    Empty(BytesOf(evs));
    ShortNumber(n);
    EncodedMeans(n);
    StatusReceived(n, "", evs);
  }

  /** A number that leaves no room for its newline is refused when it comes apart from the prompt. */
  lemma TooLong(n: nat) returns (evs: seq<ReadEvent>)
    requires |Show(n)| + 1 >= ROOM
    ensures Calm(evs) && BytesOf(evs) == Show(n) + "\n" + PROMPT && ReadStatus("", "", evs).Refused?
  {
    var out := Show(n) + "\n";
    NumberFramed(n);
    DigitsNoNul(n);
    hide Show, ReadStatus, Timed;
    evs := CalmReadsOf(out, PROMPT);
    NumberAlone(n, evs);
    TurnStep("", "", evs);
  }

  lemma CalmReadsOf(a: string, b: string) returns (evs: seq<ReadEvent>)
    requires a != "" && NoNul(a) && b != "" && NoNul(b)
    ensures Calm(evs) && BytesOf(evs) == a + b && evs != [] && evs[0] == Chunk(a, false) && evs[1..] == [Chunk(b, false)]
  {
    evs := [Chunk(a, false)] + [Chunk(b, false)];
    TwoReads(a, b);
  }

  lemma NumberAlone(n: nat, evs: seq<ReadEvent>)
    requires evs != [] && evs[0] == Chunk(Show(n) + "\n", false)
    ensures Timed("", evs) == Done(Data, Show(n) + "\n", "", evs[1..])
  {
    var out := Show(n) + "\n";
    NumberFramed(n);
    NoMatchYet(PROMPT, out, out, PROMPT);
    assert out[..|out|] == out && out[|out|..] == "";
    LinesLengthUnique(out, |out|);
    Empty(out);
    assert Examine(PromptRegex(PROMPT), true, true, false, "" + out) == Deliver(Data, out, "");
  }

  lemma DigitsNoNul(n: nat)
    ensures NoNul(Show(n) + "\n")
  {
  }

  /** The status is received for every chopping of the answer exactly when the number and its newline fit
      the buffer. */
  lemma StatusExact(n: nat)
    ensures |Show(n)| + 1 < ROOM <==>
            forall evs :: Calm(evs) && BytesOf(evs) == Show(n) + "\n" + PROMPT ==>
                            ReadStatus("", "", evs).Answered? && ReadStatus("", "", evs).value == Encoded(n)
  {
    if |Show(n)| + 1 < ROOM {
      NumberFramed(n);
      forall evs | Calm(evs) && BytesOf(evs) == Show(n) + "\n" + PROMPT
        ensures ReadStatus("", "", evs).Answered? && ReadStatus("", "", evs).value == Encoded(n) {
        Empty(BytesOf(evs));
        StatusReceived(n, "", evs);
      }
    } else {
      var evs := TooLong(n);
    }
  }

  // ------------------------------------------------------------------ the output, exactly

  /** The output ends with an empty line, or is one. */
  predicate LastLineEmpty(out: string) {
    out == "\n" || (|out| >= 2 && out[|out| - 1] == '\n' && out[|out| - 2] == '\n')
  }

  lemma DataStep(kept: string, evs: seq<ReadEvent>)
    ensures var o := Timed(kept, evs);
            ReadData(kept, evs) ==
            if o.Waiting? then Shown("", None, o.kept, [])
            else if o.rc == Found then Shown(LastShown(o.data), Some(Found), o.kept, o.rest)
            else if o.rc == Data then ReadData(o.kept, o.rest).(text := o.data + ReadData(o.kept, o.rest).text)
            else Shown("", Some(o.rc), o.kept, o.rest)
  {
  }

  lemma {:induction false} DataShown(out: string, kept: string, evs: seq<ReadEvent>)
    requires Calm(evs) && Answering(PROMPT, out, kept, BytesOf(evs)) && !LastLineEmpty(out)
    ensures var r := ReadData(kept, evs);
            r.text == out && r.rc == Some(Found) && r.kept == "" && BytesOf(r.rest) == "" && Calm(r.rest)
    decreases |evs|
  {
    CalmProgress(out, kept, evs);
    DataStep(kept, evs);
    DataShrinks(kept, evs);
    hide ReadData, Timed, Answering, LastLineEmpty, Calm;
    var o := Timed(kept, evs);
    if o.rc == Found {
      WholeShown(out);
    } else {
      LeftAfter(out, o.data);
      DataShown(out[|o.data|..], o.kept, o.rest);
    }
  }

  /** One reception of a calm answer. */
  lemma CalmProgress(out: string, kept: string, evs: seq<ReadEvent>)
    requires Calm(evs) && Answering(PROMPT, out, kept, BytesOf(evs))
    ensures var o := Timed(kept, evs);
            && o.Done? && Calm(o.rest) && Framed(PROMPT, out)
            && if o.rc == Found then o.data == out + PROMPT && o.kept == "" && BytesOf(o.rest) == ""
               else o.rc == Data && o.data <= out && EndsWithNewline(o.data)
                    && Answering(PROMPT, out[|o.data|..], o.kept, BytesOf(o.rest))
  {
    Empty(BytesOf(evs));
    CalmTimed(kept, evs);
    CalmRest(kept, evs);
    ReceiveProgress(PROMPT, out, kept, evs, "");
    Empty(BytesOf(Timed(kept, evs).rest));
  }

  lemma WholeShown(out: string)
    requires Framed(PROMPT, out) && !LastLineEmpty(out)
    ensures LastShown(out + PROMPT) == out
  {
  }

  lemma LeftAfter(out: string, data: string)
    requires data <= out && EndsWithNewline(data) && !LastLineEmpty(out)
    ensures !LastLineEmpty(out[|data|..]) && data + out[|data|..] == out
  {
  }

  /** The empty line at the end is lost when it is read together with the prompt alone. */
  lemma LineLost(out: string) returns (evs: seq<ReadEvent>)
    requires Framed(PROMPT, out) && NoNul(out) && LastLineEmpty(out)
    ensures Calm(evs) && BytesOf(evs) == out + PROMPT && ReadData("", evs).text != out
  {
    evs := LineLostBefore(out, out[..|out| - 1], PROMPT);
  }

  lemma LineLostBefore(out: string, head: string, p: string) returns (evs: seq<ReadEvent>)
    requires p == PROMPT && Framed(p, out) && NoNul(out) && LastLineEmpty(out) && head == out[..|out| - 1]
    ensures Calm(evs) && BytesOf(evs) == out + p && ReadData("", evs).text != out
  {
    hide ReadData, Timed, Calm, Framed, LastShown;
    assert head + "\n" == out;
    Assoc(head, "\n", p);
    assert NoNul("\n" + p);
    if head == "" {
      evs := [Chunk("\n" + p, false)];
      OneCalm("\n" + p);
      LastAlone(evs);
    } else {
      assert forall c :: c in head ==> c in out;
      evs := CalmReadsOf(head, "\n" + p);
      HeadAlone(out, head, evs);
      LastAlone(evs[1..]);
      DataStep("", evs);
      Empty(head);
    }
  }

  lemma OneCalm(a: string)
    requires a != "" && NoNul(a)
    ensures var evs := [Chunk(a, false)]; Calm(evs) && BytesOf(evs) == a
  {
  }

  lemma NewlineFramed()
    ensures IsPrompt(PROMPT) && Framed(PROMPT, "\n")
  {
  }

  lemma LastAlone(evs: seq<ReadEvent>)
    requires evs == [Chunk("\n" + PROMPT, false)]
    ensures ReadData("", evs) == Shown("", Some(Found), "", [])
  {
    NewlineFramed();
    hide Framed, IsPrompt, FindPrompt;
    MatchAtEnd(PROMPT, "\n");
    assert evs[1..] == [];
    Empty("\n" + PROMPT);
    assert Examine(PromptRegex(PROMPT), true, true, false, "" + ("\n" + PROMPT)) == Deliver(Found, "\n" + PROMPT, "");
  }

  lemma HeadAlone(out: string, head: string, evs: seq<ReadEvent>)
    requires Framed(PROMPT, out) && head + "\n" == out && head != "" && LastLineEmpty(out)
    requires evs != [] && evs[0] == Chunk(head, false)
    ensures Timed("", evs) == Done(Data, head, "", evs[1..])
  {
    assert head[|head| - 1] == out[|out| - 2] == '\n';
    Assoc(head, "\n", PROMPT);
    assert IsPrompt(PROMPT);
    NoMatchYet(PROMPT, out, head, "\n" + PROMPT);
    assert head[..|head|] == head && head[|head|..] == "";
    LinesLengthUnique(head, |head|);
    Empty(head);
    assert Examine(PromptRegex(PROMPT), true, true, false, "" + head) == Deliver(Data, head, "");
  }

  /** The output is printed as it is, for every chopping, exactly when its last line is not empty. */
  lemma OutputExact(out: string)
    requires Framed(PROMPT, out) && NoNul(out)
    ensures !LastLineEmpty(out) <==>
            forall evs :: Calm(evs) && BytesOf(evs) == out + PROMPT ==> ReadData("", evs).text == out
  {
    if !LastLineEmpty(out) {
      forall evs | Calm(evs) && BytesOf(evs) == out + PROMPT ensures ReadData("", evs).text == out {
        Empty(BytesOf(evs));
        DataShown(out, "", evs);
      }
    } else {
      var evs := LineLost(out);
    }
  }

  // ------------------------------------------------------------------ the whole call

  lemma NothingDone(log: seq<ReadEvent>, printed: string)
    ensures log + [] == log && log + [] + [] == log && printed + "" == printed
    ensures forall evs: seq<ReadEvent> :: [] + evs == evs
  {
    forall evs: seq<ReadEvent> ensures [] + evs == evs { Empty(evs); }
  }

  /** The command prints `out`, and the shell says `n`, in any pieces. */
  ghost predicate Answers(out: string, n: nat, evs: seq<ReadEvent>, more: seq<ReadEvent>) {
    Calm(evs) && BytesOf(evs) == out + PROMPT && Calm(more) && BytesOf(more) == Show(n) + "\n" + PROMPT
  }

  /** All the output and nothing else, the status, and nothing left. */
  ghost predicate Right(c: Call, out: string, n: nat) {
    && c.Ends? && c.printed == out && c.status == Encoded(n) && Means(c.status, n)
    && c.kept == "" && BytesOf(c.rest) == ""
  }

  lemma CalmJoin(a: seq<ReadEvent>, b: seq<ReadEvent>)
    requires Calm(a) && Calm(b)
    ensures Calm(a + b)
  {
  }

  /** The output has been shown, then the status is asked. */
  lemma ThenAsked(out: string, n: nat, evs: seq<ReadEvent>, more: seq<ReadEvent>)
    requires Framed(PROMPT, out) && !LastLineEmpty(out) && Answers(out, n, evs, more)
    ensures var r := ReadData("", evs);
            && r.text == out && r.rc == Some(Found) && r.kept == ""
            && Calm(r.rest + more) && BytesOf(r.rest + more) == Show(n) + "\n" + PROMPT
            && Calm(r.rest) && BytesOf(r.rest) == ""
  {
    Empty(BytesOf(evs));
    Empty(BytesOf(more));
    NumberFramed(n);
    DataShown(out, "", evs);
    var r := ReadData("", evs);
    CalmJoin(r.rest, more);
    BytesOfAppend(r.rest, more);
  }

  /** The two halves of a call. */
  lemma CalledIs(evs: seq<ReadEvent>, more: seq<ReadEvent>)
    ensures var r := ReadData("", evs);
            && Called(true, true, "", evs, more).printed == r.text
            && (r.rc == Some(Found) && r.kept == "" ==>
                  var c := Called(true, true, "", evs, more);
                  match ReadStatus("", "", r.rest + more)
                  case Answered(status, kept, rest) => c == Ends(r.text, status, kept, rest)
                  case Refused(_, kept, rest) => c == Ends(r.text, -1, kept, rest)
                  case Pending => c == Hangs(r.text))
  {
    hide ReadData, ReadStatus;
  }

  lemma SystemRight(out: string, n: nat, evs: seq<ReadEvent>, more: seq<ReadEvent>)
    requires Framed(PROMPT, out) && !LastLineEmpty(out) && |Show(n)| + 1 < ROOM && Answers(out, n, evs, more)
    ensures Right(Called(true, true, "", evs, more), out, n)
  {
    hide Called, ReadData, ReadStatus, Calm, Framed, Show, LastLineEmpty, Encoded, Answers;
    ThenAsked(out, n, evs, more);
    CalledIs(evs, more);
    EncodedMeans(n);
    NumberAnswered(n, ReadData("", evs).rest + more);
  }

  lemma NumberAnswered(n: nat, evs: seq<ReadEvent>)
    requires |Show(n)| + 1 < ROOM && Calm(evs) && BytesOf(evs) == Show(n) + "\n" + PROMPT
    ensures var r := ReadStatus("", "", evs);
            r.Answered? && r.value == Encoded(n) && r.kept == "" && BytesOf(r.rest) == ""
  {
    hide ReadStatus, Show, Calm, Framed, Encoded;
    NumberFramed(n);
    Empty(BytesOf(evs));
    StatusReceived(n, "", evs);
  }

  /** Interruptions alone read nothing. */
  lemma CalmSilence(noise: seq<ReadEvent>)
    requires Calm(noise) && BytesOf(noise) == ""
    ensures OnlyInterrupted(noise)
  {
    if noise != [] {
      assert BytesOf(noise) == EventBytes(noise[0]) + BytesOf(noise[1..]);
      CalmSilence(noise[1..]);
      assert noise[0] == Interrupted;
    }
  }

  lemma NoiseBefore(noise: seq<ReadEvent>, evs: seq<ReadEvent>)
    requires OnlyInterrupted(noise)
    ensures ReadStatus("", "", noise + evs) == ReadStatus("", "", evs)
  {
    SkipInterrupted(PromptRegex(PROMPT), true, true, "", noise, evs);
    TurnStep("", "", noise + evs);
    TurnStep("", "", evs);
    hide ReadStatus;
  }

  lemma OneAnswer(text: string) returns (evs: seq<ReadEvent>)
    requires NoNul(text)
    ensures Calm(evs) && BytesOf(evs) == text + PROMPT
  {
    evs := [Chunk(text + PROMPT, false)];
    OneCalm(text + PROMPT);
  }

  /** A chopping for which the call is wrong, when the output or the number is not as it must be. */
  lemma SystemWrong(out: string, n: nat) returns (evs: seq<ReadEvent>, more: seq<ReadEvent>)
    requires Framed(PROMPT, out) && NoNul(out) && (LastLineEmpty(out) || |Show(n)| + 1 >= ROOM)
    ensures Answers(out, n, evs, more) && !Right(Called(true, true, "", evs, more), out, n)
  {
    hide Called, ReadData, ReadStatus, Calm, Framed, Show, LastLineEmpty, Encoded;
    DigitsNoNul(n);
    if LastLineEmpty(out) {
      evs := LineLost(out);
      more := OneAnswer(Show(n) + "\n");
      CalledIs(evs, more);
    } else {
      evs := OneAnswer(out);
      more := TooLong(n);
      ThenAsked(out, n, evs, more);
      CalledIs(evs, more);
      NumberRefused(ReadData("", evs).rest, more);
      assert Called(true, true, "", evs, more) == Ends(out, -1, ReadStatus("", "", more).kept, ReadStatus("", "", more).rest);
      EncodedNotError(n);
    }
  }

  /** No status is encoded as an error. */
  lemma EncodedNotError(n: nat)
    ensures Encoded(n) != -1
  {
    assert (256 * n + 0x8000_0000) % 256 == 0;
    assert Wrapped(256 * n) % 256 == 0;
  }

  lemma NumberRefused(noise: seq<ReadEvent>, more: seq<ReadEvent>)
    requires Calm(noise) && BytesOf(noise) == ""
    ensures ReadStatus("", "", noise + more) == ReadStatus("", "", more)
  {
    hide ReadStatus;
    CalmSilence(noise);
    NoiseBefore(noise, more);
  }

  /**
   isystem() prints exactly the output of its command and returns its status, with nothing left for the next
   call, for every chopping of what the shell prints, if and only if the last line of the output is not empty
   and the number fits the buffer with its newline.
   */
  lemma SystemExact(out: string, n: nat)
    requires Framed(PROMPT, out) && NoNul(out)
    ensures !LastLineEmpty(out) && |Show(n)| + 1 < ROOM <==>
            forall evs, more :: Answers(out, n, evs, more) ==> Right(Called(true, true, "", evs, more), out, n)
  {
    hide Answers, Right, Called, Framed, LastLineEmpty, Show;
    if !LastLineEmpty(out) && |Show(n)| + 1 < ROOM {
      forall evs, more | Answers(out, n, evs, more) ensures Right(Called(true, true, "", evs, more), out, n) {
        SystemRight(out, n, evs, more);
      }
    } else {
      var evs, more := SystemWrong(out, n);
    }
  }

  // ------------------------------------------------------------------ the calls that fail

  /** A prompt found stands at the end of the block, alone on its line. */
  lemma PromptFound(kept: string, evs: seq<ReadEvent>)
    ensures var o := Timed(kept, evs);
            o.Done? && o.rc == Found ==>
              && |o.data| >= |PROMPT| && o.data[|o.data| - |PROMPT|..] == PROMPT
              && (|o.data| > |PROMPT| ==> o.data[|o.data| - |PROMPT| - 1] == '\n')
  {
    hide *;
    IsTimed(kept, evs);
    FoundCut(PromptRegex(PROMPT), true, true, kept, evs);
    var o := Timed(kept, evs);
    if o.Done? && o.rc == Found {
      FoundIs(o.data + o.kept);
      PromptEnds(o.data, o.kept);
    }
  }

  lemma FoundIs(text: string)
    ensures Matches(PromptRegex(PROMPT), text) ==> FindPrompt(PROMPT, text, 0) == Some(MatchLength(PromptRegex(PROMPT), text))
  {
  }

  lemma PromptEnds(data: string, kept: string)
    requires FindPrompt(PROMPT, data + kept, 0) == Some(|data|)
    ensures |data| >= |PROMPT| && data[|data| - |PROMPT|..] == PROMPT
    ensures |data| > |PROMPT| ==> data[|data| - |PROMPT| - 1] == '\n'
  {
    hide FindPrompt;
    var text, k := data + kept, |data|;
    assert text[k - |PROMPT|..][..|PROMPT|] == data[k - |PROMPT|..];
    assert k > |PROMPT| ==> text[k - |PROMPT| - 1] == data[k - |PROMPT| - 1];
  }

  /** What ends an output: the prompt, or a lonely newline and the prompt, which is not printed either. */
  predicate IsEnd(end: string) {
    end == PROMPT || end == "\n" + PROMPT
  }

  lemma LastBlock(data: string)
    requires |data| >= |PROMPT| && data[|data| - |PROMPT|..] == PROMPT
    requires |data| > |PROMPT| ==> data[|data| - |PROMPT| - 1] == '\n'
    ensures exists end :: IsEnd(end) && LastShown(data) + end == data
  {
    var n := |data| - |PROMPT|;
    assert data == data[..n] + data[n..];
    if n > 1 {
      assert LastShown(data) + PROMPT == data;
    } else if n == 1 {
      assert LastShown(data) + ("\n" + PROMPT) == data;
    } else {
      assert LastShown(data) + PROMPT == data;
    }
  }

  /** What is printed, then the end of the output if it has come, then what is left. */
  ghost predicate Shows(r: Shown, total: string) {
    match r.rc
    case Some(Found) => exists end :: IsEnd(end) && r.text + (end + (r.kept + BytesOf(r.rest))) == total
    case _ => r.text + (r.kept + BytesOf(r.rest)) == total
  }

  /** The output of a command, whatever the reads, their timeouts and their errors: nothing of it is lost, repeated
      nor printed out of order; only the prompt that ends it, with a lonely newline before it, is not printed. */
  lemma {:induction false} DataConserves(kept: string, evs: seq<ReadEvent>)
    ensures Shows(ReadData(kept, evs), kept + BytesOf(evs))
    decreases |evs|
  {
    hide RecvRegex, LastShown, PromptRegex;
    RecvConserves(Some(PromptRegex(PROMPT)), true, true, kept, evs);
    IsTimed(kept, evs);
    DataShrinks(kept, evs);
    match Timed(kept, evs) {
      case Waiting(kept') =>
        assert ReadData(kept, evs) == Shown("", None, kept', []);
        Empty(kept');
      case Done(rc, data, kept', rest) =>
        if rc == Found {
          PromptFound(kept, evs);
          LastBlock(data);
          var end :| IsEnd(end) && LastShown(data) + end == data;
          Assoc(LastShown(data), end, kept' + BytesOf(rest));
        } else if rc == Data {
          DataConserves(kept', rest);
          ShowsBehind(ReadData(kept', rest), data, kept' + BytesOf(rest));
        } else {
          FailureGivesNothing(PromptRegex(PROMPT), true, true, kept, evs);
          Empty(kept' + BytesOf(rest));
        }
    }
  }

  lemma ShowsBehind(r: Shown, data: string, total: string)
    requires Shows(r, total)
    ensures Shows(r.(text := data + r.text), data + total)
  {
    var left := r.kept + BytesOf(r.rest);
    if r.rc == Some(Found) {
      var end :| IsEnd(end) && r.text + (end + left) == total;
      Assoc(data, r.text, end + left);
      assert IsEnd(end) && (data + r.text) + (end + left) == data + total;
    } else {
      Assoc(data, r.text, left);
    }
  }

  /** The text before the prompt. */
  function BeforePrompt(data: string): string
    requires |data| >= |PROMPT|
  {
    data[..|data| - |PROMPT|]
  }

  /** The block with the prompt gives the number of the line that ends there, whatever comes before it in this block
      or in those received before, if and only if this line is ended, fits the buffer, and is not ended by a newline
      which comes alone with the prompt. Another block is put behind the others if it leaves room for its NUL. */
  lemma StatusTurnExact(shown: string, rc: RecvCode, data: string)
    requires |shown| < ROOM
    requires rc == Found ==> |data| >= |PROMPT| && (|data| > |PROMPT| ==> data[|data| - |PROMPT| - 1] == '\n')
    ensures rc == Found ==>
              var text := shown + BeforePrompt(data);
              StatusTurn(shown, rc, data) ==
              if EndsWithNewline(text) && |text| <= ROOM && (|data| == |PROMPT| + 1 ==> EndsWithNewline(shown)) then
                Status(Encoded(Atoi(text[..|text| - 1])))
              else Bad(Error)
    ensures rc == Data ==> StatusTurn(shown, rc, data) == if |shown + data| < ROOM then More(shown + data) else Bad(Error)
    ensures rc != Found && rc != Data ==> StatusTurn(shown, rc, data) == Bad(rc)
  {
    if rc == Found {
      var n := |data| - |PROMPT|;
      var text := shown + data[..n];
      if n == 0 {
        assert text == shown;
      } else {
        assert text[|text| - 1] == data[n - 1] && text[..|text| - 1] == shown + data[..n - 1];
        if n == 1 {
          assert data[..0] == "" && shown + "" == shown;
          LastBlank(shown);
        }
      }
    }
  }

  /** A newline behind a number changes nothing. */
  lemma LastBlank(s: string)
    ensures EndsWithNewline(s) ==> Atoi(s) == Atoi(s[..|s| - 1])
  {
    if EndsWithNewline(s) {
      var t := s[..|s| - 1];
      assert s == t + "\n";
      AtoiStops(t);
    }
  }

  lemma {:induction false} AtoiStops(t: string)
    ensures Atoi(t + "\n") == Atoi(t)
  {
    var s := t + "\n";
    if t == "" {
      assert s[1..] == "";
    } else {
      assert s[0] == t[0] && s[1..] == t[1..] + "\n";
      if IsSpace(t[0]) {
        AtoiStops(t[1..]);
      } else {
        DigitsBefore(t, 0);
        DigitsBefore(t[1..], 0);
      }
    }
  }

  lemma {:induction false} DigitsBefore(t: string, acc: nat)
    ensures Digits(t + "\n", acc) == Digits(t, acc)
  {
    var s := t + "\n";
    if t != "" && IsDigit(t[0]) {
      assert s[0] == t[0] && s[1..] == t[1..] + "\n";
      DigitsBefore(t[1..], 10 * acc + (t[0] as int - '0' as int));
    } else if t != "" {
      assert s[0] == t[0];
    }
  }

  /** The status is the number of the line that ends with the text `t`, which stands before the prompt in all that
      is received; what follows the prompt is left. */
  ghost predicate Numbered(shown: string, t: string, r: Reception, total: string)
    requires r.Answered?
  {
    && t + (PROMPT + (r.kept + BytesOf(r.rest))) == total
    && EndsWithNewline(shown + t) && |shown + t| <= ROOM
    && r.value == Encoded(Atoi((shown + t)[..|shown + t| - 1]))
  }

  /** Whatever the reads: a status is only told for the number of a line received before the prompt. */
  lemma {:induction false} StatusIsReal(shown: string, kept: string, evs: seq<ReadEvent>) returns (t: string)
    requires |shown| < ROOM && ReadStatus(shown, kept, evs).Answered?
    ensures Numbered(shown, t, ReadStatus(shown, kept, evs), kept + BytesOf(evs))
    decreases ROOM - |shown|
  {
    hide *;
    TurnStep(shown, kept, evs);
    PromptFound(kept, evs);
    RecvConserves(Some(PromptRegex(PROMPT)), true, true, kept, evs);
    IsTimed(kept, evs);
    var o := Timed(kept, evs);
    TotalIs(o);
    if o.rc == Found {
      t := BeforePrompt(o.data);
      LastNumbered(shown, o);
    } else {
      StatusTurnExact(shown, o.rc, o.data);
      t := StatusIsReal(shown + o.data, o.kept, o.rest);
      MoreNumbered(shown, o.data, t, ReadStatus(shown + o.data, o.kept, o.rest), o.kept + BytesOf(o.rest));
      t := o.data + t;
    }
  }

  lemma TotalIs(o: Outcome)
    ensures o.Done? ==> Total(o) == o.data + (o.kept + BytesOf(o.rest))
  {
  }

  lemma LastNumbered(shown: string, o: Outcome)
    requires |shown| < ROOM && o.Done? && o.rc == Found && |o.data| >= |PROMPT| && o.data[|o.data| - |PROMPT|..] == PROMPT
    requires |o.data| > |PROMPT| ==> o.data[|o.data| - |PROMPT| - 1] == '\n'
    requires StatusTurn(shown, o.rc, o.data).Status?
    ensures Numbered(shown, BeforePrompt(o.data), Answered(StatusTurn(shown, o.rc, o.data).value, o.kept, o.rest),
                     o.data + (o.kept + BytesOf(o.rest)))
  {
    StatusTurnExact(shown, o.rc, o.data);
    hide StatusTurn, Atoi, Encoded, BytesOf;
    var t := BeforePrompt(o.data);
    assert t + PROMPT == o.data;
    Assoc(t, PROMPT, o.kept + BytesOf(o.rest));
  }

  lemma MoreNumbered(shown: string, data: string, t: string, r: Reception, total: string)
    requires r.Answered? && Numbered(shown + data, t, r, total)
    ensures Numbered(shown, data + t, r, data + total)
  {
    hide Atoi, Encoded, BytesOf;
    Assoc(shown, data, t);
    Assoc(data, t, PROMPT + (r.kept + BytesOf(r.rest)));
  }

  /** isystem() gives another value than -1 only when both lines were submitted, the prompt was found behind the
      output and the number behind it was received; and it is this number. */
  lemma SystemTold(sent: bool, asked: bool, kept: string, evs: seq<ReadEvent>, more: seq<ReadEvent>)
    ensures var c := Called(sent, asked, kept, evs, more);
            && (!sent ==> c.printed == "") && (sent ==> c.printed == ReadData(kept, evs).text)
            && (c.Ends? && c.status != -1 ==>
                  && sent && asked && ReadData(kept, evs).rc == Some(Found)
                  && var r := ReadData(kept, evs);
                     ReadStatus("", r.kept, r.rest + more) == Answered(c.status, c.kept, c.rest))
  {
    hide ReadData, ReadStatus;
  }
}
