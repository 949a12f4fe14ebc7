/**
 pdip_interact(): the interpreter of the scripts. It listens to the script, to the program, or to both;
 a `recv` stops the script until the synchronization string has come, or the timeout has run out.
 */
module Interact {
  import opened Bytes
  import opened StreamSpec
  import opened Decimal
  import opened Format
  import opened Split
  import opened Synchro
  import opened CommandLine
  import opened Terminal

  // ------------------------------------------------------------------ state and events

  /** What the interpreter does, in order: output of the program written out, text printed, text sent to the
      program, a command executed, a `recv` that begins, its string found, its timeout. */
  datatype Act =
    | Written(text: string)
    | Printed(text: string)
    | Sent(text: string)
    | Ran(args: seq<string>)
    | Waits
    | Found
    | TimedOut

  /** The variables of the loop: the script is listened to (fd_input >= 0), the program is (fd_program >= 0),
      a `recv` is pending (synchro), select() has a timeout (pTimeout), the timeout in seconds (to).
      `over` is the value returned; 2 stands for what the offsets of pdip_handle_synchro() break, and for a
      pattern that is not the one meant. */
  datatype State = State(
    input: bool, program: bool, synchro: bool, timed: bool, to: nat, re: Regex,
    outstanding: string, received: string, log: seq<Act>, over: Option<int>)

  datatype FromProgram = Bytes(data: string) | EndOfProgram | ReadFails
  datatype FromScript = Text(raw: string, ok: bool) | NoInput | EndOfScript | LineFails

  /** One turn of the loop: the program is found dead, select() is interrupted, fails, times out, or tells
      what can be read. A line comes with its newline, if it has one. `ok` tells whether the system does what a command asks for. */
  datatype Event =
    | Dead
    | Interrupted
    | SelectFails
    | Elapsed
    | Ready(program: Option<FromProgram>, script: Option<FromScript>)

  /** The options and what is outside: -R, the size of the buffers, the compiler of the patterns. */
  datatype Setting = Setting(backread: bool, bufsz: nat, compile: string -> Regex)

  predicate Enabled(c: Setting, s: State, e: Event) {
    && s.over == None
    && match e
       case Elapsed => s.timed
       case Ready(p, l) =>
         && (p.Some? || l.Some?) && (p.Some? ==> s.program) && (l.Some? ==> s.input)
         && (p.Some? && p.value.Bytes? ==> p.value.data != "")
         && (l.Some? && l.value.Text? ==> NoNul(l.value.raw) && |l.value.raw| < c.bufsz)
       case _ => true
  }

  function Did(s: State, a: Act): State {
    s.(log := s.log + [a])
  }

  function Ends(s: State, rc: int): State {
    s.(over := Some(rc))
  }

  // ------------------------------------------------------------------ the specification

  /** The outstanding data are searched; what is left behind the lines written out stays outstanding. */
  function Search(c: Setting, s: State): State {
    var r := Handled(s.re, s.outstanding);
    var s' := Did(s, Written(r.written)).(outstanding := r.rest);
    if r.rc == 0 then
      Did(s', Act.Found).(input := true, synchro := false, program := if c.backread then s.program else false)
    else if r.rc == 1 then s'
    else Ends(s', 2)
  }

  function OnProgram(c: Setting, s: State, r: FromProgram): State {
    match r
    case ReadFails => Ends(s, -1)
    case EndOfProgram => Ends(s, 0)
    case Bytes(data) =>
      var s' := s.(outstanding := s.outstanding + data, received := s.received + data);
      if s.synchro then Search(c, s') else s'
  }

  function Flush(s: State): State {
    Did(s, Written(s.outstanding)).(outstanding := "")
  }

  function Unsigned(n: int): nat {
    n % 0x1_0000_0000
  }

  /** A `recv` without parameter finds the pattern that it writes only when nothing stands behind the keyword
      and there is room for it. */
  predicate EndOfLineFits(c: Setting, line: string, args: seq<string>)
    requires args != []
  {
    Bare(line, args[0]) && |line| + |END_OF_LINE| + 2 <= c.bufsz
  }

  /** A `recv` begins. */
  function Begin(c: Setting, s: State, pattern: string): State {
    var s' := Did(s, Waits).(re := c.compile(pattern), input := false, program := true, synchro := true);
    if s.outstanding != "" then Search(c, s') else s'
  }

  /** recv */
  function Receive(c: Setting, s: State, line: string, args: seq<string>): State
    requires args != []
  {
    if |args| > 2 then Ends(s, -1)
    else if |args| == 2 then Begin(c, s, args[1])
    else if EndOfLineFits(c, line, args) then Begin(c, s, END_OF_LINE)
    else Ends(s, 2)
  }

  /** send */
  function Send(c: Setting, s: State, args: seq<string>, ok: bool): State
    requires args != []
  {
    if |args| == 1 then Did(s, Sent("\n"))
    else if |args| > 2 then Ends(s, -1)
    else
      match Formatted(args[1], c.bufsz)
      case None => Ends(s, -1)
      case Some(text) =>
        var s' := Did(s, Sent(if text == "" then "\n" else text));
        if ok then s' else Ends(s', -1)
  }

  function Print(c: Setting, s: State, args: seq<string>): State {
    if |args| != 2 then Ends(s, -1)
    else
      match Formatted(args[1], c.bufsz)
      case None => Ends(s, -1)
      case Some(text) => Did(s, Printed(text))
  }

  datatype Keyword = TimeoutKey | RecvKey | SendKey | SigKey | SleepKey | PrintKey | DbgKey | ExitKey | ShKey | Unknown

  function KeywordOf(k: string): Keyword {
    if k == "timeout" then TimeoutKey
    else if k == "recv" then RecvKey
    else if k == "send" then SendKey
    else if k == "sig" then SigKey
    else if k == "sleep" then SleepKey
    else if k == "print" then PrintKey
    else if k == "dbg" then DbgKey
    else if k == "exit" then ExitKey
    else if k == "sh" then ShKey
    else Unknown
  }

  /** The commands other than `recv`. A `timeout` without value reads a null string: -1 stands for the crash. */
  function Execute(c: Setting, s: State, args: seq<string>, ok: bool): State
    requires args != []
  {
    var s' := Did(s, Ran(args));
    match KeywordOf(args[0])
    case TimeoutKey => if |args| == 1 then Ends(s', -1) else s'.(to := Unsigned(Atoi(args[1])))
    case SendKey => Send(c, s', args, ok)
    case SigKey => if |args| == 2 && !ok then Ends(s', -1) else s'
    case SleepKey => if |args| != 2 then Ends(s', -1) else s'
    case DbgKey => if |args| != 2 then Ends(s', -1) else s'
    case PrintKey => Print(c, s', args)
    case ExitKey => Ends(s', 0)
    case ShKey => if |args| < 2 || (args[1] == "-s" && |args| < 3) || !ok then Ends(s', -1) else s'
    case _ => Ends(s', -1)
  }

  /** A line of the script; the second result tells that the loop goes on at once, on an empty line. */
  function OnScript(c: Setting, s: State, l: FromScript): (State, bool) {
    match l
    case LineFails => (Ends(s, -1), false)
    case EndOfScript => (Ends(Flush(s), 0), false)
    case NoInput => (s, true)
    case Text(raw, ok) =>
      match Arguments(FirstLine(raw))
      case None => (Ends(s, -3), false)
      case Some(args) =>
        if args == [] then (s, true)
        else if KeywordOf(args[0]) == RecvKey then (Receive(c, s, FirstLine(raw), args), false)
        else (Execute(c, s, args, ok), false)
  }

  function Rearm(s: State): State {
    s.(timed := s.synchro && s.to != 0)
  }

  /** What follows the reading of the program in a turn. */
  function ScriptTurn(c: Setting, s: State, l: Option<FromScript>): State {
    if s.over.Some? then s
    else if l == None then Rearm(s)
    else
      var (s', again) := OnScript(c, s, l.value);
      if s'.over.Some? || again then s' else Rearm(s')
  }

  function Next(c: Setting, s: State, e: Event): State
    requires Enabled(c, s, e)
  {
    match e
    case Dead => Ends(Flush(s), 0)
    case Interrupted => s
    case SelectFails => Ends(s, -1)
    case Elapsed => Ends(Did(s, Act.TimedOut), -2)
    case Ready(p, l) => ScriptTurn(c, if p.Some? then OnProgram(c, s, p.value) else s, l)
  }

  function Initial(re: Regex): State {
    State(true, false, false, false, 0, re, "", "", [], None)
  }

  /** The turns of the loop, up to the end of the interaction. */
  function Turns(c: Setting, s: State, es: seq<Event>): State {
    if es == [] then s
    else
      var s', e := Turns(c, s, es[..|es| - 1]), es[|es| - 1];
      if Enabled(c, s', e) then Next(c, s', e) else s'
  }

  // ------------------------------------------------------------------ the control invariant

  /** A `recv` has begun and its string is not found yet. */
  predicate Pending(log: seq<Act>) {
    if log == [] then false
    else
      match log[|log| - 1]
      case Waits => true
      case Found => false
      case _ => Pending(log[..|log| - 1])
  }

  /** No command is executed, printed or sent during a `recv`; only a `recv` finds or times out. */
  predicate InOrder(log: seq<Act>) {
    log == [] ||
    var before := log[..|log| - 1];
    && InOrder(before)
    && match log[|log| - 1]
       case Written(_) => true
       case Found => Pending(before)
       case TimedOut => Pending(before)
       case _ => !Pending(before)
  }

  /** All that was written out of what came from the program. */
  function Output(log: seq<Act>): string {
    if log == [] then ""
    else Output(log[..|log| - 1]) + match log[|log| - 1] case Written(t) => t case _ => ""
  }

  /** At each head of the loop. */
  ghost predicate InControl(c: Setting, s: State) {
    && (s.over == None ==>
          && s.input == !s.synchro && (s.synchro ==> s.program) && s.timed == (s.synchro && s.to != 0)
          && (s.program && !s.synchro ==> c.backread) && s.synchro == Pending(s.log))
    && InOrder(s.log) && Output(s.log) + s.outstanding == s.received
  }

  lemma DidEffect(s: State, a: Act)
    ensures var s' := Did(s, a);
            && Pending(s'.log) == (match a case Waits => true case Found => false case _ => Pending(s.log))
            && Output(s'.log) == Output(s.log) + (match a case Written(t) => t case _ => "")
            && InOrder(s'.log) == (InOrder(s.log) && match a
                                   case Written(_) => true
                                   case Found => Pending(s.log)
                                   case TimedOut => Pending(s.log)
                                   case _ => !Pending(s.log))
  {
  }

  /** The part of the invariant that does not depend on the timeout; holds inside a turn too. */
  ghost predicate Settled(c: Setting, s: State) {
    && (s.over == None ==>
          && s.input == !s.synchro && (s.synchro ==> s.program)
          && (s.program && !s.synchro ==> c.backread) && s.synchro == Pending(s.log))
    && InOrder(s.log) && Output(s.log) + s.outstanding == s.received
  }

  lemma SearchSettles(c: Setting, s: State)
    requires Settled(c, s) && s.over == None && s.synchro
    ensures Settled(c, Search(c, s))
  {
    var r := Handled(s.re, s.outstanding);
    HandledConserves(s.re, s.outstanding);
    Assoc(Output(s.log), r.written, r.rest);
    DidEffect(s, Written(r.written));
    var s' := Did(s, Written(r.written)).(outstanding := r.rest);
    DidEffect(s', Act.Found);
    Empty(Output(s'.log));
  }

  lemma FlushSettles(c: Setting, s: State)
    requires Settled(c, s)
    ensures Settled(c, Flush(s)) && Output(Flush(s).log) == s.received
  {
  }

  lemma ProgramSettles(c: Setting, s: State, r: FromProgram)
    requires Settled(c, s) && s.over == None
    ensures Settled(c, OnProgram(c, s, r))
  {
    if r.Bytes? {
      var s' := s.(outstanding := s.outstanding + r.data, received := s.received + r.data);
      Assoc(Output(s.log), s.outstanding, r.data);
      if s.synchro {
        SearchSettles(c, s');
      }
    }
  }

  lemma BeginSettles(c: Setting, s: State, pattern: string)
    requires Settled(c, s) && s.over == None && s.input
    ensures Settled(c, Begin(c, s, pattern))
  {
    var s' := Did(s, Waits).(re := c.compile(pattern), input := false, program := true, synchro := true);
    assert Settled(c, s') by {
      DidEffect(s, Waits);
      Empty(Output(s.log));
    }
    if s.outstanding != "" {
      hide Settled, Search, Did, Pending, Output, InOrder;
      SearchSettles(c, s');
    }
  }

  lemma ReceiveSettles(c: Setting, s: State, line: string, args: seq<string>)
    requires Settled(c, s) && s.over == None && s.input && args != []
    ensures Settled(c, Receive(c, s, line, args))
  {
    hide Settled, Begin, Ends;
    EndsSettles(c, s, -1);
    EndsSettles(c, s, 2);
    BeginSettles(c, s, if |args| == 2 then args[1] else END_OF_LINE);
  }

  lemma ActSettles(c: Setting, s: State, a: Act)
    requires Settled(c, s) && s.over == None && s.input && (a.Ran? || a.Sent? || a.Printed?)
    ensures Settled(c, Did(s, a))
  {
  }

  lemma SendSettles(c: Setting, s: State, args: seq<string>, ok: bool)
    requires Settled(c, s) && s.over == None && s.input && args != []
    ensures Settled(c, Send(c, s, args, ok))
  {
    hide Formatted, Pending, InOrder, Output;
    ActSettles(c, s, Sent("\n"));
    if |args| == 2 && Formatted(args[1], c.bufsz).Some? {
      ActSettles(c, s, Sent(Formatted(args[1], c.bufsz).value));
    }
  }

  lemma PrintSettles(c: Setting, s: State, args: seq<string>)
    requires Settled(c, s) && s.over == None && s.input
    ensures Settled(c, Print(c, s, args))
  {
    hide Formatted, Pending, InOrder, Output;
    if |args| == 2 && Formatted(args[1], c.bufsz).Some? {
      ActSettles(c, s, Printed(Formatted(args[1], c.bufsz).value));
    }
  }

  lemma ExecuteSettles(c: Setting, s: State, args: seq<string>, ok: bool)
    requires Settled(c, s) && s.over == None && s.input && args != []
    ensures Settled(c, Execute(c, s, args, ok))
  {
    hide *;
    var s' := Ranned(s, args);
    ActSettles(c, s, Ran(args));
    RannedIs(s, args);
    SendSettles(c, s', args, ok);
    PrintSettles(c, s', args);
    EndsSettles(c, s', -1);
    EndsSettles(c, s', 0);
    ToSettles(c, s', if |args| > 1 then Unsigned(Atoi(args[1])) else 0);
    ExecuteIs(c, s, args, ok);
  }

  function Ranned(s: State, args: seq<string>): State {
    Did(s, Ran(args))
  }

  lemma RannedIs(s: State, args: seq<string>)
    ensures Ranned(s, args) == Did(s, Ran(args)) && Ranned(s, args).over == s.over && Ranned(s, args).input == s.input
  {
  }

  /** The results that a command can have. */
  lemma ExecuteIs(c: Setting, s: State, args: seq<string>, ok: bool)
    requires args != []
    ensures var s', r := Ranned(s, args), Execute(c, s, args, ok);
            || r == s' || r == Ends(s', -1) || r == Ends(s', 0) || r == Send(c, s', args, ok) || r == Print(c, s', args)
            || (|args| > 1 && r == s'.(to := Unsigned(Atoi(args[1]))))
  {
    hide KeywordOf, Send, Print, Atoi;
  }

  lemma EndsSettles(c: Setting, s: State, rc: int)
    requires Settled(c, s)
    ensures Settled(c, Ends(s, rc))
  {
  }

  lemma ToSettles(c: Setting, s: State, to: nat)
    requires Settled(c, s)
    ensures Settled(c, s.(to := to))
  {
  }

  lemma ScriptSettles(c: Setting, s: State, l: FromScript)
    requires Settled(c, s) && s.over == None && s.input
    ensures Settled(c, OnScript(c, s, l).0)
    ensures OnScript(c, s, l).1 ==> OnScript(c, s, l).0 == s
  {
    hide Settled, Receive, Execute, Arguments, Flush, Ends, KeywordOf, FirstLine;
    FlushSettles(c, s);
    EndsSettles(c, Flush(s), 0);
    EndsSettles(c, s, -1);
    EndsSettles(c, s, -3);
    if l.Text? && Arguments(FirstLine(l.raw)).Some? {
      var args := Arguments(FirstLine(l.raw)).value;
      if args != [] {
        ReceiveSettles(c, s, FirstLine(l.raw), args);
        ExecuteSettles(c, s, args, l.ok);
      }
    }
  }

  lemma ElapsedKeeps(c: Setting, s: State)
    requires InControl(c, s) && s.over == None && s.timed
    ensures InControl(c, Ends(Did(s, Act.TimedOut), -2))
  {
    DidEffect(s, Act.TimedOut);
    Empty(Output(s.log));
  }

  /** Between two turns the timeout is armed as it must be. */
  lemma ControlIs(c: Setting, s: State)
    ensures InControl(c, s) ==> Settled(c, s)
    ensures Settled(c, s) && (s.over == None ==> s.timed == (s.synchro && s.to != 0)) ==> InControl(c, s)
    ensures Settled(c, s) ==> InControl(c, Rearm(s))
  {
    hide Pending, InOrder, Output;
  }

  lemma EndsControls(c: Setting, s: State, rc: int)
    requires Settled(c, s)
    ensures InControl(c, Ends(s, rc))
  {
    hide Pending, InOrder, Output;
  }

  lemma OverControls(c: Setting, s: State)
    requires Settled(c, s) && s.over.Some?
    ensures InControl(c, s)
  {
    hide Pending, InOrder, Output;
  }

  /** Every turn of the loop keeps the control invariant. */
  lemma TurnKeeps(c: Setting, s: State, e: Event)
    requires InControl(c, s) && Enabled(c, s, e)
    ensures InControl(c, Next(c, s, e))
  {
    hide InControl, Settled, Flush, Ends, Did, OnProgram, OnScript, Rearm;
    ControlIs(c, s);
    match e {
      case Dead =>
        FlushSettles(c, s);
        EndsControls(c, Flush(s), 0);
      case Interrupted =>
      case SelectFails => EndsControls(c, s, -1);
      case Elapsed => ElapsedKeeps(c, s);
      case Ready(p, l) => ReadyKeeps(c, s, p, l);
    }
  }

  lemma ReadyKeeps(c: Setting, s: State, p: Option<FromProgram>, l: Option<FromScript>)
    requires InControl(c, s) && Enabled(c, s, Ready(p, l))
    ensures InControl(c, Next(c, s, Ready(p, l)))
  {
    hide InControl, Settled, OnProgram, OnScript, Rearm;
    ControlIs(c, s);
    OpenIs(c, s);
    var s1 := if p.Some? then OnProgram(c, s, p.value) else s;
    if p.Some? {
      ProgramSettles(c, s, p.value);
    }
    if s1.over.Some? {
      OverControls(c, s1);
    } else {
      ControlIs(c, s1);
      if l.Some? {
        StillListening(c, s, p, l.value);
        ScriptKeeps(c, s1, l.value);
      }
    }
  }

  lemma OpenIs(c: Setting, s: State)
    requires Settled(c, s)
    ensures s.over == None ==> s.input == !s.synchro
  {
  }

  lemma ScriptKeeps(c: Setting, s: State, l: FromScript)
    requires Settled(c, s) && s.over == None && s.input && !s.synchro && !s.timed
    ensures InControl(c, ScriptTurn(c, s, Some(l)))
  {
    hide InControl, Settled, OnScript, Rearm;
    ScriptSettles(c, s, l);
    var (s', again) := OnScript(c, s, l);
    ControlIs(c, s);
    ControlIs(c, s');
    if s'.over.Some? {
      OverControls(c, s');
    }
  }

  /** What the program says leaves the script listened to; with the script and the program both ready there is
      no `recv`, hence no timeout. */
  lemma StillListening(c: Setting, s: State, p: Option<FromProgram>, l: FromScript)
    requires InControl(c, s) && Enabled(c, s, Ready(p, Some(l)))
    ensures s.input && !s.synchro && !s.timed
    ensures p.Some? ==> var s1 := OnProgram(c, s, p.value); s1.input && !s1.synchro && !s1.timed
  {
    hide Pending, InOrder, Output, Search;
  }

  /**
   Over every run of the interpreter: a `recv` is pending exactly when the script is not listened to, and
   then the program is; at least one of them always is; a timeout is armed exactly during a `recv` with a
   timeout set; no command of the script is executed between a `recv` and its match, nothing but a pending
   `recv` times out; and the output of the program is written out in order, without loss nor repetition, up
   to the data still outstanding.
   */
  lemma {:induction false} RunKeeps(c: Setting, re: Regex, es: seq<Event>)
    ensures var s := Turns(c, Initial(re), es);
            && InControl(c, s)
            && (s.over == None ==> (s.input || s.program) && (s.synchro <==> !s.input) && (s.timed ==> s.synchro && s.program))
            && InOrder(s.log) && Output(s.log) + s.outstanding == s.received
  {
    if es != [] {
      var before, e := es[..|es| - 1], es[|es| - 1];
      RunKeeps(c, re, before);
      if Enabled(c, Turns(c, Initial(re), before), e) {
        TurnKeeps(c, Turns(c, Initial(re), before), e);
      }
    }
  }

  // ------------------------------------------------------------------ texts of a script

  /** The line of a script that gives a text to the program, or prints it. */
  function TextLine(print_: bool, text: string, newline: bool): string {
    (if print_ then "print" else "send") + QuotedAll([text]) + if newline then "\n" else ""
  }

  lemma TextLineIs(print_: bool, text: string, newline: bool)
    requires NoNul(text)
    ensures NoNul(TextLine(print_, text, newline))
    ensures FirstLine(TextLine(print_, text, newline)) == (if print_ then "print" else "send") + QuotedAll([text])
  {
    hide Quoted, FirstLine;
    QuotedNoNul(text);
    assert QuotedAll([text]) == " " + Quote(text) + "";
    var line := (if print_ then "print" else "send") + QuotedAll([text]);
    assert NoNul(line) && '\n' !in line;
    assert TextLine(print_, text, newline)[..|line|] == line;
    LineIs(TextLine(print_, text, newline), |line|);
  }

  lemma TextWords(print_: bool, text: string)
    ensures var name := if print_ then "print" else "send";
            && Arguments(name + QuotedAll([text])) == Some([name, Quote(text)])
            && forall room: nat :: Formatted(Quote(text), room) == if |text| < room then Some(text) else None
  {
    hide Arguments, Formatted, Quote;
    var name := if print_ then "print" else "send";
    assert IsName(name);
    Split.RoundTrip(name, [text]);
    QuotesAt([text], 0);
    assert [name] + Quotes([text]) == [name, Quote(text)];
  }

  /** From the text of the user, quoted in a line of script, to the program or to the output: the line is cut,
      the text decoded, and it arrives as it is exactly when there is room for it. */
  lemma TextReaches(c: Setting, s: State, print_: bool, text: string, newline: bool)
    requires NoNul(text)
    ensures var (s', again) := OnScript(c, s, Text(TextLine(print_, text, newline), true));
            var ran := Did(s, Ran([if print_ then "print" else "send", Quote(text)]));
            && !again
            && s' == if |text| >= c.bufsz then Ends(ran, -1)
                     else if print_ then Did(ran, Printed(text))
                     else Did(ran, Sent(if text == "" then "\n" else text))
  {
    hide Arguments, Formatted, Quote, FirstLine, TextLine, QuotedAll, Execute, KeywordOf, Did, Ends;
    TextLineIs(print_, text, newline);
    TextWords(print_, text);
    TextKeyword(print_);
    TextExecuted(c, s, print_, Quote(text));
  }

  lemma TextKeyword(print_: bool)
    ensures KeywordOf(if print_ then "print" else "send") == if print_ then PrintKey else SendKey
  {
  }

  lemma TextExecuted(c: Setting, s: State, print_: bool, quoted: string)
    ensures var args := [if print_ then "print" else "send", quoted];
            var ran := Did(s, Ran(args));
            Execute(c, s, args, true) ==
            match Formatted(quoted, c.bufsz)
            case None => Ends(ran, -1)
            case Some(text) => Did(ran, if print_ then Printed(text) else Sent(if text == "" then "\n" else text))
  {
    hide Formatted, KeywordOf, Did, Ends;
    TextKeyword(print_);
  }

  // ------------------------------------------------------------------ a `recv` without parameter

  /** Blanks, then nothing or a comment; what follows a command without parameter. */
  predicate IsTail(tail: string) {
    && (tail != "" ==> IsSpace(tail[0])) && '\n' !in tail
    && AtEnd(SkipBlanks(tail))
  }

  lemma RecvWords(tail: string)
    requires IsTail(tail)
    ensures Arguments("recv" + tail) == Some(["recv"]) && SkipBlanks("recv" + tail) == "recv" + tail
  {
    assert IsName("recv");
    assert Parameters(tail) == Some([]);
    hide Arguments, Parameters;
    CommandFirst("recv", tail);
    assert ["recv"] + [] == ["recv"];
  }

  lemma RecvLine(tail: string)
    requires '\n' !in tail
    ensures FirstLine("recv" + tail) == "recv" + tail && KeywordOf("recv") == RecvKey
  {
    hide FirstLine;
    var line := "recv" + tail;
    assert line[..|line|] == line && '\n' !in line;
    LineIs(line, |line|);
  }

  /** A `recv` without parameter begins with the pattern that it writes if and only if nothing at all, not even a
      blank or a comment, stands behind it, and there is room for the pattern in the buffer. */
  lemma BareRecv(c: Setting, s: State, tail: string, ok: bool)
    requires IsTail(tail)
    ensures OnScript(c, s, Text("recv" + tail, ok)) ==
            (if tail == "" && |"recv"| + |END_OF_LINE| + 2 <= c.bufsz then Begin(c, s, END_OF_LINE) else Ends(s, 2), false)
  {
    RecvLine(tail);
    RecvWords(tail);
    hide Arguments, FirstLine, SkipBlanks, Begin, Ends, KeywordOf, Execute;
    assert |"recv" + tail| == |"recv"| <==> tail == "";
  }

  /** The input of this failure: one blank behind the keyword. */
  lemma BlankBehind(c: Setting, s: State, ok: bool)
    ensures OnScript(c, s, Text("recv ", ok)) == (Ends(s, 2), false)
  {
    assert SkipBlanks(" ") == "" && IsTail(" ");
    hide OnScript;
    assert "recv" + " " == "recv ";
    BareRecv(c, s, " ", ok);
  }

  // ------------------------------------------------------------------ the code

  class Interpreter {
    const setting: Setting
    const pdipIn: nat             // where the script comes from
    const pdipPty: nat            // the program
    const synchroniser: Synchroniser
    const command: Command

    var fdInput: int
    var fdProgram: int
    var synchro: bool
    var pTimeout: Option<nat>
    var to: nat
    var regex: Regex
    var outstandingBuf: array<char>
    var loutstanding: nat
    var over: Option<int>

    ghost var received: string
    ghost var log: seq<Act>

    constructor (setting: Setting, pdipIn: nat, pdipPty: nat, regex: Regex)
      requires setting.bufsz > 0
      ensures Valid() && Value() == Initial(regex) && this.setting == setting
      ensures fresh(outstandingBuf) && fresh(synchroniser) && fresh(synchroniser.line) && fresh(synchroniser.lineSkip)
      ensures fresh(command) && fresh(command.line) && fresh(command.text) && fresh(command.table) && command.table.argv == null
    {
      this.setting, this.pdipIn, this.pdipPty, this.regex := setting, pdipIn, pdipPty, regex;
      synchroniser := new Synchroniser();
      command := new Command(setting.bufsz);
      fdInput, fdProgram, synchro, pTimeout, to, over := pdipIn, -1, false, None, 0, None;
      outstandingBuf, loutstanding := new char[setting.bufsz * 2], 0;
      received, log := "", [];
    }

    ghost predicate Valid()
      reads this, synchroniser, command, command.table, command.table.argv
    {
      && loutstanding <= outstandingBuf.Length && synchroniser.Valid() && synchroniser.line != outstandingBuf
      && command.Valid() && command.line.Length == setting.bufsz
      && {command.line, command.text} !! {outstandingBuf, synchroniser.line}
      && command.table.argv != synchroniser.lineSkip
    }

    ghost function Outstanding(): string
      requires loutstanding <= outstandingBuf.Length
      reads this, outstandingBuf
    {
      outstandingBuf[..loutstanding]
    }

    ghost function Value(): State
      requires loutstanding <= outstandingBuf.Length
      reads this, outstandingBuf
    {
      State(fdInput >= 0, fdProgram >= 0, synchro, pTimeout.Some?, to, regex, Outstanding(), received, log, over)
    }

    /** Data of the program join the outstanding ones, in a buffer made bigger if need be. */
    method Append(data: string)
      requires Valid()
      modifies this`outstandingBuf, this`loutstanding, this`received, outstandingBuf
      ensures Valid() && (outstandingBuf == old(outstandingBuf) || fresh(outstandingBuf))
      ensures Value() == old(Value()).(outstanding := old(Outstanding()) + data, received := old(received) + data)
    {
      ghost var before := Outstanding();
      Grow(|data|);
      Store(outstandingBuf, loutstanding, data);
      Appended(outstandingBuf, loutstanding, before, data);
      loutstanding := loutstanding + |data|;
      received := received + data;
    }

    /** Room for `n` more bytes. */
    method Grow(n: nat)
      requires Valid()
      modifies this`outstandingBuf
      ensures Valid() && (outstandingBuf == old(outstandingBuf) || fresh(outstandingBuf))
      ensures Outstanding() == old(Outstanding()) && loutstanding + n <= outstandingBuf.Length
    {
      if n > outstandingBuf.Length - loutstanding {
        outstandingBuf := Realloc(outstandingBuf, loutstanding, outstandingBuf.Length + n);
      }
    }

    /** The search in the outstanding data, and what follows when the string is found. */
    method LookFor()
      requires Valid() && synchro
      modifies this, synchroniser, synchroniser.line, synchroniser.lineSkip, outstandingBuf
      ensures Valid() && outstandingBuf == old(outstandingBuf) && Footprint()
      ensures Value() == Search(setting, old(Value()))
    {
      hide Handled;
      ghost var s := Value();
      var rc;
      rc, loutstanding := synchroniser.Handle(regex, outstandingBuf, loutstanding);
      log := log + [Written(Handled(s.re, s.outstanding).written)];
      assert Value() == Did(s, Written(Handled(s.re, s.outstanding).written)).(outstanding := Handled(s.re, s.outstanding).rest);
      Conclude(rc);
    }

    /** When the string is found the script is listened to again. */
    method Conclude(rc: int)
      requires Valid()
      modifies this`fdInput, this`fdProgram, this`synchro, this`log, this`over
      ensures Valid()
      ensures var s := old(Value());
              Value() ==
              if rc == 0 then
                Did(s, Act.Found).(input := true, synchro := false, program := if setting.backread then s.program else false)
              else if rc == 1 then s
              else Ends(s, 2)
    {
      if rc == 0 {
        fdInput, synchro := pdipIn, false;
        if !setting.backread {
          fdProgram := -1;
        }
        log := log + [Act.Found];
      } else if rc != 1 {
        over := Some(2);
      }
    }

    /** A `recv` begins. */
    method Wait(pattern: string)
      requires Valid()
      modifies this, synchroniser, synchroniser.line, synchroniser.lineSkip, outstandingBuf
      ensures Valid() && outstandingBuf == old(outstandingBuf) && Footprint()
      ensures Value() == Begin(setting, old(Value()), pattern)
    {
      hide Search;
      Listen(pattern);
      if loutstanding > 0 {
        LookFor();
      }
    }

    /** The program is listened to, not the script. */
    method Listen(pattern: string)
      requires Valid()
      modifies this`regex, this`fdInput, this`fdProgram, this`synchro, this`log
      ensures Valid() && synchro
      ensures Value() == Did(old(Value()), Waits).(re := setting.compile(pattern), input := false, program := true, synchro := true)
    {
      regex := setting.compile(pattern);
      fdInput, fdProgram, synchro := -1, pdipPty, true;
      log := log + [Waits];
    }

    /** recv; without parameter, the pattern is made in the buffer of the line. */
    method Recv(args: seq<string>, ghost line: string)
      requires Valid() && args != [] && command.Holds(args)
      requires command.end == |line| && command.table.Entries()[0] == |line| - |SkipBlanks(line)|
      modifies this, synchroniser, synchroniser.line, synchroniser.lineSkip, outstandingBuf, command.line
      ensures Valid() && outstandingBuf == old(outstandingBuf) && Footprint()
      ensures Value() == Receive(setting, old(Value()), line, args)
    {
      hide Begin;
      if |args| > 2 {
        over := Some(-1);
      } else if |args| == 2 {
        Wait(args[1]);
      } else {
        var pattern := command.EndPattern(args);
        match pattern {
          case None => over := Some(2);
          case Some(p) => Wait(p);
        }
      }
    }

    method Stop(rc: int)
      requires Valid()
      modifies this`over
      ensures Valid() && Value() == Ends(old(Value()), rc)
    {
      over := Some(rc);
    }

    method SetTimeout(n: nat)
      requires Valid()
      modifies this`to
      ensures Valid() && Value() == old(Value()).(to := n)
    {
      to := n;
    }

    ghost method Record(a: Act)
      requires Valid()
      modifies this`log
      ensures Valid() && Value() == Did(old(Value()), a)
    {
      log := log + [a];
    }

    /** send and print: a text is decoded, then goes to the program or to the output. */
    method SendOrPrint(args: seq<string>, print_: bool, ok: bool)
      requires Valid() && args != [] && command.Holds(args)
      modifies this`log, this`over, command.text
      ensures Valid()
      ensures Value() == if print_ then Print(setting, old(Value()), args) else Send(setting, old(Value()), args, ok)
    {
      hide Formatted, Did, Ends, Value;
      if !print_ && |args| == 1 {
        Record(Sent("\n"));
      } else if |args| != 2 {
        Stop(-1);
      } else {
        var decoded := TextOf(args);
        match decoded {
          case None => Stop(-1);
          case Some(text) =>
            Record(if print_ then Printed(text) else Sent(if text == "" then "\n" else text));
            if !print_ && !ok {
              Stop(-1);
            }
        }
      }
    }

    /** The text given to send or print. */
    method TextOf(args: seq<string>) returns (r: Option<string>)
      requires Valid() && |args| == 2 && command.Holds(args)
      modifies command.text
      ensures Valid() && Value() == old(Value()) && r == Formatted(args[1], setting.bufsz)
    {
      hide Formatted;
      r := command.Decoded(1, args);
    }

    /** The commands other than `recv`. */
    method Obey(args: seq<string>, ok: bool)
      requires Valid() && args != [] && command.Holds(args)
      modifies this`log, this`over, this`to, command.text
      ensures Valid() && Value() == Execute(setting, old(Value()), args, ok)
    {
      hide KeywordOf, Send, Print, Did, Ends, Value, Valid, Atoi, Unsigned;
      Record(Ran(args));
      match KeywordOf(args[0]) {
        case TimeoutKey => if |args| == 1 { Stop(-1); } else { SetTimeout(Unsigned(Atoi(args[1]))); }
        case SendKey => SendOrPrint(args, false, ok);
        case SigKey => if |args| == 2 && !ok { Stop(-1); }
        case SleepKey => if |args| != 2 { Stop(-1); }
        case DbgKey => if |args| != 2 { Stop(-1); }
        case PrintKey => SendOrPrint(args, true, ok);
        case ExitKey => Stop(0);
        case ShKey => if |args| < 2 || (args[1] == "-s" && |args| < 3) || !ok { Stop(-1); }
        case _ => Stop(-1);
      }
    }

    method FlushOutstanding()
      requires Valid()
      modifies this`log, this`loutstanding
      ensures Valid() && Value() == Flush(old(Value()))
    {
      log := log + [Written(Outstanding())];
      loutstanding := 0;
    }

    /** Data from the program, its end, or an error. */
    method ReadProgram(r: FromProgram)
      requires Valid()
      modifies this, synchroniser, synchroniser.line, synchroniser.lineSkip, outstandingBuf
      ensures Valid() && (outstandingBuf == old(outstandingBuf) || fresh(outstandingBuf)) && Footprint()
      ensures Value() == OnProgram(setting, old(Value()), r)
    {
      hide Search;
      match r {
        case ReadFails => over := Some(-1);
        case EndOfProgram => over := Some(0);
        case Bytes(data) =>
          Append(data);
          if synchro {
            LookFor();
          }
      }
    }

    /** A line is cut in its buffer, then it is a `recv` or another command. */
    method ReadLine(raw: string, ok: bool) returns (again: bool)
      requires Valid() && NoNul(raw) && |raw| < setting.bufsz
      modifies this, synchroniser, synchroniser.line, synchroniser.lineSkip, outstandingBuf
      modifies command, command.line, command.text, command.table, command.table.argv
      ensures Valid() && outstandingBuf == old(outstandingBuf) && Footprint()
      ensures (Value(), again) == OnScript(setting, old(Value()), Text(raw, ok))
    {
      hide Arguments, KeywordOf, Receive, Execute, FirstLine, SkipBlanks;
      again := false;
      var cut := command.Cut(raw);
      match cut {
        case None => over := Some(-3);
        case Some(args) =>
          if args == [] {
            again := true;
          } else if KeywordOf(args[0]) == RecvKey {
            Recv(args, FirstLine(raw));
          } else {
            Obey(args, ok);
          }
      }
    }

    /** What comes from the script. */
    method ReadScript(l: FromScript) returns (again: bool)
      requires Valid() && (l.Text? ==> NoNul(l.raw) && |l.raw| < setting.bufsz)
      modifies this, synchroniser, synchroniser.line, synchroniser.lineSkip, outstandingBuf
      modifies command, command.line, command.text, command.table, command.table.argv
      ensures Valid() && outstandingBuf == old(outstandingBuf) && Footprint()
      ensures (Value(), again) == OnScript(setting, old(Value()), l)
    {
      hide Arguments, KeywordOf, Receive, Execute, FirstLine;
      again := false;
      match l {
        case LineFails => over := Some(-1);
        case EndOfScript => FlushOutstanding(); over := Some(0);
        case NoInput => again := true;
        case Text(raw, ok) => again := ReadLine(raw, ok);
      }
    }

    /** What can be read is: the program first, then the script. */
    method Serve(p: Option<FromProgram>, l: Option<FromScript>)
      requires Valid() && (l.Some? && l.value.Text? ==> NoNul(l.value.raw) && |l.value.raw| < setting.bufsz)
      modifies this, synchroniser, synchroniser.line, synchroniser.lineSkip, outstandingBuf
      modifies command, command.line, command.text, command.table, command.table.argv
      ensures Valid() && (outstandingBuf == old(outstandingBuf) || fresh(outstandingBuf)) && Footprint()
      ensures Value() == ScriptTurn(setting, if p.Some? then OnProgram(setting, old(Value()), p.value) else old(Value()), l)
    {
      hide OnProgram, ScriptTurn, Value;
      if p.Some? {
        ReadProgram(p.value);
      }
      ServeScript(l);
    }

    /** One turn of the loop. */
    method Turn(e: Event)
      requires Valid() && Enabled(setting, Value(), e)
      modifies this, synchroniser, synchroniser.line, synchroniser.lineSkip, outstandingBuf
      modifies command, command.line, command.text, command.table, command.table.argv
      ensures Valid() && (outstandingBuf == old(outstandingBuf) || fresh(outstandingBuf)) && Footprint()
      ensures Value() == Next(setting, old(Value()), e)
    {
      hide OnProgram, ScriptTurn, Value, Flush, Did, Ends;
      match e {
        case Dead =>
          FlushOutstanding();
          Stop(0);
        case Interrupted =>
        case SelectFails => Stop(-1);
        case Elapsed =>
          Record(Act.TimedOut);
          Stop(-2);
        case Ready(p, l) => Serve(p, l);
      }
    }

    /** What follows the reading of the program. */
    method ServeScript(l: Option<FromScript>)
      requires Valid() && (l.Some? && l.value.Text? ==> NoNul(l.value.raw) && |l.value.raw| < setting.bufsz)
      modifies this, synchroniser, synchroniser.line, synchroniser.lineSkip, outstandingBuf
      modifies command, command.line, command.text, command.table, command.table.argv
      ensures Valid() && outstandingBuf == old(outstandingBuf) && Footprint()
      ensures Value() == ScriptTurn(setting, old(Value()), l)
    {
      hide OnScript;
      if over.Some? {
        return;
      }
      if l.Some? {
        var again := ReadScript(l.value);
        if over.Some? || again {
          return;
        }
      }
      pTimeout := if synchro && to != 0 then Some(to) else None;
    }

    /** pdip_interact(): turn after turn, as long as the events come and the interaction is not over. */
    method Run(es: seq<Event>) returns (n: nat)
      requires Valid() && forall i :: 0 <= i < |es| ==> Enabled(setting, Turns(setting, Value(), es[..i]), es[i])
      modifies this, synchroniser, synchroniser.line, synchroniser.lineSkip, outstandingBuf
      modifies command, command.line, command.text, command.table, command.table.argv
      ensures Valid() && n == |es| && Value() == Turns(setting, old(Value()), es)
      ensures forall re :: old(Value()) == Initial(re) ==> InControl(setting, Value())
    {
      n := 0;
      ghost var s := Value();
      hide Next, Enabled, InControl, Initial;
      while n < |es|
        invariant Valid() && n <= |es| && Value() == Turns(setting, s, es[..n])
        invariant (outstandingBuf == old(outstandingBuf) || fresh(outstandingBuf)) && Footprint()
      {
        hide Turns, Value, Valid;
        Advance(es, n, s);
        n := n + 1;
      }
      assert es[..|es|] == es;
      ControlledRun(setting, s, es);
    }

    /** The turn of number `n`. */
    method Advance(es: seq<Event>, n: nat, ghost s: State)
      requires Valid() && n < |es| && Value() == Turns(setting, s, es[..n])
      requires Enabled(setting, Turns(setting, s, es[..n]), es[n])
      modifies this, synchroniser, synchroniser.line, synchroniser.lineSkip, outstandingBuf
      modifies command, command.line, command.text, command.table, command.table.argv
      ensures Valid() && (outstandingBuf == old(outstandingBuf) || fresh(outstandingBuf)) && Footprint()
      ensures Value() == Turns(setting, s, es[..n + 1])
    {
      hide Next, Enabled, Turns, Value, Valid;
      OneTurn(setting, s, es, n);
      Turn(es[n]);
    }

    /** The working buffers are the same or new. */
    twostate predicate Footprint()
      reads synchroniser, command.table
    {
      && ((synchroniser.line == old(synchroniser.line) && synchroniser.lineSkip == old(synchroniser.lineSkip))
          || (fresh(synchroniser.line) && fresh(synchroniser.lineSkip)))
      && (command.table.argv == old(command.table.argv) || fresh(command.table.argv))
    }
  }

  lemma ControlledRun(c: Setting, s: State, es: seq<Event>)
    ensures forall re :: s == Initial(re) ==> InControl(c, Turns(c, s, es))
  {
    hide InControl, Turns, Initial;
    forall re | s == Initial(re) ensures InControl(c, Turns(c, s, es)) { RunKeeps(c, re, es); }
  }

  lemma OneTurn(c: Setting, s: State, es: seq<Event>, n: nat)
    requires n < |es| && Enabled(c, Turns(c, s, es[..n]), es[n])
    ensures Turns(c, s, es[..n + 1]) == Next(c, Turns(c, s, es[..n]), es[n])
  {
    hide Next, Enabled;
    assert es[..n + 1][..n] == es[..n] && es[..n + 1][n] == es[n];
  }

  lemma Appended(buffer: array<char>, at: nat, before: string, data: string)
    requires at + |data| <= buffer.Length && buffer[..at] == before && buffer[at..at + |data|] == data
    ensures buffer[..at + |data|] == before + data
  {
  }
}
