/**
 The commands of a script from the text of their lines: what each of them does, what a `recv` waits for and
 what ends it, which notations of a text arrive, and what the interpreter returns.
 */
module Scripts {
  import opened Bytes
  import opened StreamSpec
  import opened Decimal
  import opened Format
  import opened Split
  import opened Synchro
  import opened CommandLine
  import opened FirstFound
  import opened Spelling
  import opened Grammar
  import opened Interact

  /** The line, up to its newline, is made of these parts. */
  ghost predicate HasParts(raw: string, words: seq<string>) {
    IsLine(FirstLine(raw), words)
  }

  lemma PartsFound(raw: string, words: seq<string>)
    ensures HasParts(raw, words) <==> Arguments(FirstLine(raw)) == Some(words)
  {
    SplitExact(FirstLine(raw), words);
  }

  // ------------------------------------------------------------------ recv

  /** The data `out` have been searched for the pattern of `s'`, in the first line where it is: it is found, the
      output is written through the match and the script goes on; or the complete lines are written, and the
      `recv` goes on. */
  ghost predicate Looked(c: Setting, log: seq<Act>, out: string, program: bool, s': State) {
    exists w ::
      && FirstAt(s'.re, out, Behind(s'.re, out), Result(if s'.synchro then 1 else 0, w, s'.outstanding))
      && w + s'.outstanding == out
      && s'.log == log + [Written(w)] + (if s'.synchro then [] else [Act.Found])
      && s'.input == !s'.synchro && s'.program == (program && (s'.synchro || c.backread))
  }

  lemma SearchMeans(c: Setting, s: State)
    requires Tame(s.outstanding) && s.synchro && !s.input
    ensures var s' := Search(c, s);
            && Looked(c, s.log, s.outstanding, s.program, s')
            && s'.re == s.re && s'.timed == s.timed && s'.to == s.to && s'.over == s.over && s'.received == s.received
  {
    FirstMatch(s.re, s.outstanding);
    HandledConserves(s.re, s.outstanding);
    hide Handled, FirstAt, Behind, Tame;
    var r := Handled(s.re, s.outstanding);
    FirstCode(s.re, s.outstanding, Behind(s.re, s.outstanding), r);
    assert r == Result(r.rc, r.written, r.rest);
    Empty(s.log + [Written(r.written)]);
  }

  lemma FirstCode(re: Regex, s: string, b: nat, r: Result)
    requires FirstAt(re, s, b, r)
    ensures r.rc == 0 || r.rc == 1
  {
  }

  /** A `recv` waits for its own pattern: nothing else is read from the script, the program is listened to; what
      is outstanding is searched at once, and can end it. */
  ghost predicate Receives(c: Setting, s: State, s': State, pattern: string) {
    && s'.re == c.compile(pattern) && s'.timed == s.timed && s'.to == s.to && s'.over == s.over && s'.received == s.received
    && if s.outstanding == "" then
         !s'.input && s'.program && s'.synchro && s'.outstanding == "" && s'.log == s.log + [Waits]
       else Looked(c, s.log + [Waits], s.outstanding, true, s')
  }

  lemma BeginReceives(c: Setting, s: State, pattern: string)
    requires Tame(s.outstanding)
    ensures Receives(c, s, Begin(c, s, pattern), pattern)
  {
    hide Tame, Looked;
    var s' := Did(s, Waits).(re := c.compile(pattern), input := false, program := true, synchro := true);
    if s.outstanding != "" {
      hide Search;
      SearchMeans(c, s');
    }
  }

  /** recv "...", on any line that is made of these two parts. */
  lemma RecvLine(c: Setting, s: State, raw: string, ok: bool, pattern: string)
    requires HasParts(raw, ["recv", pattern]) && Tame(s.outstanding)
    ensures var (s', again) := OnScript(c, s, Text(raw, ok)); !again && Receives(c, s, s', pattern)
  {
    hide *;
    PartsFound(raw, ["recv", pattern]);
    RecvBegins(c, s, raw, ok, pattern);
    BeginReceives(c, s, pattern);
  }

  lemma RecvBegins(c: Setting, s: State, raw: string, ok: bool, pattern: string)
    requires Arguments(FirstLine(raw)) == Some(["recv", pattern])
    ensures OnScript(c, s, Text(raw, ok)) == (Begin(c, s, pattern), false)
  {
    hide Arguments, FirstLine, Begin;
  }

  /** From a text quoted in a line of script to the pattern of the `recv`. */
  lemma RecvReaches(c: Setting, s: State, text: string, newline: bool, ok: bool)
    requires NoNul(text) && Tame(s.outstanding)
    ensures var raw := "recv" + QuotedAll([text]) + if newline then "\n" else "";
            var (s', again) := OnScript(c, s, Text(raw, ok)); !again && Receives(c, s, s', Quote(text))
  {
    hide *;
    var line := "recv" + QuotedAll([text]);
    Empty(line);
    RecvName();
    QuotedParts("recv", text, line + if newline then "\n" else "");
    RecvLine(c, s, line + if newline then "\n" else "", ok, Quote(text));
  }

  lemma RecvName()
    ensures IsName("recv") && '\n' !in "recv"
  {
  }

  lemma QuotedParts(name: string, text: string, raw: string)
    requires IsName(name) && '\n' !in name && NoNul(text)
    requires raw == name + QuotedAll([text]) || raw == name + QuotedAll([text]) + "\n"
    ensures HasParts(raw, [name, Quote(text)])
  {
    hide Arguments, Formatted, Quote, FirstLine, IsLine;
    var line := name + QuotedAll([text]);
    QuotedIsLine(name, text);
    assert raw[..|line|] == line;
    LineIs(raw, |line|);
    Split.RoundTrip(name, [text]);
    QuotesAt([text], 0);
    assert [name] + Quotes([text]) == [name, Quote(text)];
    PartsFound(raw, [name, Quote(text)]);
  }

  lemma QuotedIsLine(name: string, text: string)
    requires '\n' !in name && NoNul(text)
    ensures '\n' !in name + QuotedAll([text])
  {
    hide Quoted;
    QuotedNoNul(text);
    assert QuotedAll([text]) == " " + Quote(text) + "";
  }

  /** A later read of the program: the same search over all the output that has come. */
  lemma RecvGoesOn(c: Setting, s: State, data: string)
    requires s.synchro && !s.input && Tame(s.outstanding + data)
    ensures var s' := OnProgram(c, s, FromProgram.Bytes(data));
            && Looked(c, s.log, s.outstanding + data, s.program, s')
            && s'.re == s.re && s'.timed == s.timed && s'.to == s.to && s'.over == s.over
            && s'.received == s.received + data
  {
    hide Search, Looked, Tame;
    SearchMeans(c, s.(outstanding := s.outstanding + data, received := s.received + data));
  }

  /** Without `recv`, the output that comes is kept for the next one: nothing is searched, nothing is written. */
  lemma OutputKept(c: Setting, s: State, data: string)
    requires !s.synchro
    ensures OnProgram(c, s, FromProgram.Bytes(data)) ==
            s.(outstanding := s.outstanding + data, received := s.received + data)
  {
  }

  /** recv alone on its line waits for the end of a line. */
  lemma BareWaits(c: Setting, s: State, ok: bool)
    requires Tame(s.outstanding) && c.bufsz >= 9
    ensures var (s', again) := OnScript(c, s, Text("recv", ok)); !again && Receives(c, s, s', "\"$\"")
  {
    hide *;
    NoTail();
    BareRecv(c, s, "", ok);
    BeginReceives(c, s, END_OF_LINE);
  }

  lemma NoTail()
    ensures IsTail("") && "recv" + "" == "recv" && |"recv"| + |END_OF_LINE| + 2 == 9 && END_OF_LINE == "\"$\""
  {
    assert SkipBlanks("") == "";
  }

  // ------------------------------------------------------------------ texts in any notation

  /** The string can be a parameter: all its quotes are inhibited; or its first other quote touches a comment,
      and then the code takes all the rest of the line. */
  ghost predicate CanBeCut(body: string) {
    Inhibited(body) || exists k :: 0 <= k < |body| - 1 && Inhibited(body[..k]) && body[k] == '"' && body[k + 1] == COMMENT
  }

  /** No beginning of a spelled text is a whole string. */
  lemma {:induction false} NeverClosed(pieces: seq<string>, text: string, m: nat)
    requires SpelledAs(pieces, text) && m <= |Concat(pieces)|
    ensures Decode(Concat(pieces)[..m]) == None
  {
    if text != "" {
      SpelledFirst(pieces, text);
      var h, rest := pieces[0], Concat(pieces[1..]);
      var t := Concat(pieces);
      if m < |h| {
        assert t[..m] == h[..m];
        PartOfPiece(h, text[0], m);
      } else {
        assert t[..m] == h + rest[..m - |h|];
        NeverClosed(pieces[1..], text[1..], m - |h|);
        hide Decode, Spells;
        DecodePiece(h, text[0], rest[..m - |h|]);
      }
    }
  }

  lemma PartOfPiece(piece: string, c: char, m: nat)
    requires Spells(piece, c) && m < |piece|
    ensures Decode(piece[..m]) == None
  {
    assert m == 1 ==> piece[..m] == [piece[0]];
  }

  /** What the code makes of the only parameter of a line. */
  lemma OnlyParameter(body: string)
    ensures var w := "\"" + body + "\"";
            match Parameters(" " + w)
            case None => !CanBeCut(body)
            case Some(words) =>
              words != [] && if CanBeCut(body) then words == [w]
                             else exists m :: 0 <= m < |body| && words[0] == "\"" + body[..m] + "\"" && body[m] == '"'
  {
    var w, t := "\"" + body + "\"", body + "\"";
    hide Parameters, StringLength, Inhibited, WordThen;
    BlankFirst(" " + w);
    assert (" " + w)[1..] == w && w[1..] == t;
    Measured(body);
    match StringLength(t) {
      case None => NoParameterThere(w);
      case Some(n) =>
        var k := n + 1;
        assert ParameterLength(w) == Some(k);
        ParameterFirst(w, k);
        WordThenStep(w, k);
        assert w[..k] == "\"" + t[..n];
        if n == |t| {
          assert w[k..] == "" && w[..k] == w;
        } else {
          assert t[n - 1] == body[n - 1] && w[k] == t[n] && t[..n] == body[..n - 1] + "\"";
          CutInside(w, k, body, n - 1);
        }
    }
  }

  /** The string ends inside the body: only a comment behind it makes the code take all the line. */
  lemma CutInside(w: string, k: nat, body: string, m: nat)
    requires w == "\"" + body + "\"" && m < |body| && body[m] == '"' && k == m + 2 && !Inhibited(body) && Inhibited(body[..m])
    requires forall j :: 0 <= j < |body| && Inhibited(body[..j]) && body[j] == '"' ==> j == m
    ensures CanBeCut(body) <==> w[k] == COMMENT
    ensures match WordThen(w, k)
            case None => w[k] != COMMENT
            case Some(words) => words != [] && if w[k] == COMMENT then words == [w] else words[0] == "\"" + body[..m] + "\""
  {
    hide Parameters, Inhibited;
    WordThenStep(w, k);
    assert w[k..] != "" && w[k..][0] == w[k];
    assert m + 1 < |body| ==> w[k] == body[m + 1];
    assert w[..k] == "\"" + body[..m] + "\"";
  }

  lemma NoParameterThere(w: string)
    requires w != "" && w[0] == '"' && StringLength(w[1..]) == None
    ensures Parameters(w) == None
  {
  }

  /** The closing quote that the code finds. */
  lemma Measured(body: string)
    ensures match StringLength(body + "\"")
            case None => !CanBeCut(body)
            case Some(n) =>
              && 0 < n <= |body| + 1
              && (n == |body| + 1 <==> Inhibited(body))
              && (n <= |body| ==> Inhibited(body[..n - 1]) && body[n - 1] == '"')
              && forall k :: 0 <= k < |body| && Inhibited(body[..k]) && body[k] == '"' ==> k == n - 1
  {
    var t := body + "\"";
    hide StringLength, Inhibited;
    assert t[..|body|] == body;
    if Inhibited(body) {
      StringLengthIs(t, |body|);
    }
    forall k | 0 <= k < |body| && Inhibited(body[..k]) && body[k] == '"' ensures StringLength(t) == Some(k + 1) {
      assert t[..k] == body[..k];
      StringLengthIs(t, k);
    }
    if StringLength(t).Some? {
      StringLengthOk(t);
      var n := StringLength(t).value;
      assert n <= |body| ==> t[..n - 1] == body[..n - 1];
    }
  }

  function TextName(print_: bool): string {
    if print_ then "print" else "send"
  }

  /** The line of a script that gives to the program, or prints, the text spelled by `body`. */
  function SpelledLine(print_: bool, body: string): string {
    TextName(print_) + " \"" + body + "\""
  }

  lemma SpelledWords(print_: bool, body: string, raw: string)
    requires '\n' !in body && (raw == SpelledLine(print_, body) || raw == SpelledLine(print_, body) + "\n")
    ensures Arguments(FirstLine(raw)) == Before(TextName(print_), Parameters(" " + ("\"" + body + "\"")))
  {
    hide Parameters, Arguments, FirstLine;
    var line, tail := SpelledLine(print_, body), " " + ("\"" + body + "\"");
    assert line == TextName(print_) + tail && '\n' !in line;
    assert raw[..|line|] == line;
    LineIs(raw, |line|);
    assert IsName(TextName(print_));
    CommandFirst(TextName(print_), tail);
  }

  /** A parameter that spells a text. */
  lemma SpelledFormat(pieces: seq<string>, text: string, room: nat)
    requires SpelledAs(pieces, text)
    ensures Formatted("\"" + Concat(pieces) + "\"", room) == if |text| < room then Some(text) else None
  {
    var w := "\"" + Concat(pieces) + "\"";
    DecodeSpelled(pieces, text, "");
    assert w[1..] == Concat(pieces) + ['"'] + "";
    hide Decode, SpelledAs;
  }

  /** A parameter that stops inside the spelling. */
  lemma StoppedFormat(pieces: seq<string>, text: string, m: nat, room: nat)
    requires SpelledAs(pieces, text) && m < |Concat(pieces)| && Concat(pieces)[m] == '"'
    ensures Formatted("\"" + Concat(pieces)[..m] + "\"", room) == None
  {
    var body := Concat(pieces);
    NeverClosed(pieces, text, m + 1);
    hide Decode, SpelledAs;
    assert ("\"" + body[..m] + "\"")[1..] == body[..m + 1];
  }

  /** Any other number of parameters is refused. */
  lemma ManyParameters(c: Setting, s: State, print_: bool, args: seq<string>)
    requires |args| > 2 && args[0] == TextName(print_)
    ensures Execute(c, s, args, true) == Ends(Did(s, Ran(args)), -1)
  {
    TextKeyword(print_);
    hide KeywordOf;
  }

  /** The text has arrived, or the script is stopped and nothing has. */
  ghost predicate Arrived(s: State, s': State, print_: bool, text: string, arrives: bool) {
    if arrives then
      exists args :: s' == s.(log := s.log + [Ran(args)]
                                     + [if print_ then Printed(text) else Sent(if text == "" then "\n" else text)])
    else
      && (s'.over == Some(-1) || s'.over == Some(-3)) && s.log <= s'.log
      && forall j :: |s.log| <= j < |s'.log| ==> s'.log[j].Ran?
  }

  /** What is done with the parameters. */
  lemma ArrivedIs(c: Setting, s: State, print_: bool, text: string, args: seq<string>, fits: bool)
    requires |args| >= 2 && args[0] == TextName(print_)
    requires fits ==> |args| == 2
    requires |args| == 2 ==> Formatted(args[1], c.bufsz) == if fits then Some(text) else None
    ensures Arrived(s, Execute(c, s, args, true), print_, text, fits)
  {
    hide Formatted, Execute;
    if |args| == 2 {
      assert args == [TextName(print_), args[1]];
      TextExecuted(c, s, print_, args[1]);
    } else {
      ManyParameters(c, s, print_, args);
    }
  }

  /**
   A text in any of its notations, control notations included, on a line of script: it arrives as it is exactly
   when the string can be cut from the line and there is room for the text; otherwise the script is stopped,
   and nothing of it arrives.
   */
  lemma SpelledReaches(c: Setting, s: State, print_: bool, pieces: seq<string>, text: string, newline: bool)
    requires SpelledAs(pieces, text) && '\n' !in Concat(pieces)
    ensures var raw := SpelledLine(print_, Concat(pieces)) + if newline then "\n" else "";
            var (s', again) := OnScript(c, s, Text(raw, true));
            !again && Arrived(s, s', print_, text, CanBeCut(Concat(pieces)) && |text| < c.bufsz)
  {
    hide *;
    var body := Concat(pieces);
    var w, raw := "\"" + body + "\"", SpelledLine(print_, body) + if newline then "\n" else "";
    Empty(SpelledLine(print_, body));
    SpelledWords(print_, body, raw);
    OnlyParameter(body);
    match Parameters(" " + w) {
      case None =>
        BeforeIs(TextName(print_), []);
        BadLine(c, s, raw, true);
        NotArrived(s, print_, text);
      case Some(words) =>
        var args := [TextName(print_)] + words;
        BeforeIs(TextName(print_), words);
        TextKeyword(print_);
        NameIs(print_);
        GoodLine(c, s, raw, true, args);
        if CanBeCut(body) {
          SpelledFormat(pieces, text, c.bufsz);
          ArrivedIs(c, s, print_, text, args, |text| < c.bufsz);
        } else {
          var m :| 0 <= m < |body| && words[0] == "\"" + body[..m] + "\"" && body[m] == '"';
          StoppedFormat(pieces, text, m, c.bufsz);
          ArrivedIs(c, s, print_, text, args, false);
        }
    }
  }

  lemma NameIs(print_: bool)
    ensures TextName(print_) == if print_ then "print" else "send"
    ensures PrintKey != RecvKey && SendKey != RecvKey
  {
  }

  lemma BeforeIs(word: string, words: seq<string>)
    ensures Before(word, None) == None && Before(word, Some(words)) == Some([word] + words)
  {
  }

  lemma NotArrived(s: State, print_: bool, text: string)
    ensures Arrived(s, Ends(s, -3), print_, text, false)
  {
  }

  lemma BadLine(c: Setting, s: State, raw: string, ok: bool)
    requires Arguments(FirstLine(raw)) == None
    ensures OnScript(c, s, Text(raw, ok)) == (Ends(s, -3), false)
  {
    hide Arguments, FirstLine;
  }

  lemma GoodLine(c: Setting, s: State, raw: string, ok: bool, args: seq<string>)
    requires Arguments(FirstLine(raw)) == Some(args) && args != [] && KeywordOf(args[0]) != RecvKey
    ensures OnScript(c, s, Text(raw, ok)) == (Execute(c, s, args, ok), false)
  {
    hide Arguments, FirstLine, Execute, KeywordOf;
  }

  /** The interrupt, "^C". */
  lemma Interrupt(c: Setting, s: State)
    requires c.bufsz > 1
    ensures Arrived(s, OnScript(c, s, Text("send \"^C\"\n", true)).0, false, [3 as char], true)
  {
    var pieces := ["^C"];
    ControlBytes(3);
    OnePiece("^C");
    assert SpelledAs(pieces, [3 as char]);
    assert Inhibited("^C");
    assert SpelledLine(false, "^C") + "\n" == "send \"^C\"\n";
    hide OnScript, Arrived;
    SpelledReaches(c, s, false, pieces, [3 as char], true);
  }

  lemma OnePiece(piece: string)
    ensures Concat([piece]) == piece
  {
    assert [piece][1..] == [];
    Empty(piece);
  }

  /** The quit byte 28 has a notation that cannot be cut from the line at the end of a string. */
  lemma QuitRefused(c: Setting, s: State)
    ensures SpelledAs(["^\\"], [28 as char])
    ensures Arrived(s, OnScript(c, s, Text("send \"^\\\"\n", true)).0, false, [28 as char], false)
  {
    var pieces := ["^\\"];
    OnePiece("^\\");
    assert SpelledAs(pieces, [28 as char]);
    assert !CanBeCut("^\\");
    assert SpelledLine(false, "^\\") + "\n" == "send \"^\\\"\n";
    hide OnScript, Arrived, CanBeCut;
    SpelledReaches(c, s, false, pieces, [28 as char], true);
  }

  // ------------------------------------------------------------------ the other commands

  const WORD := 0x1_0000_0000

  /** timeout n */
  lemma TimeoutLine(c: Setting, s: State, raw: string, ok: bool, w: string)
    requires HasParts(raw, ["timeout", w])
    ensures OnScript(c, s, Text(raw, ok)) == (s.(to := Atoi(w) % WORD, log := s.log + [Ran(["timeout", w])]), false)
  {
    PartsFound(raw, ["timeout", w]);
    GoodLine(c, s, raw, ok, ["timeout", w]);
    hide OnScript, Arguments, FirstLine, Atoi;
  }

  /** What the other commands do, by their names and the number of their parameters. */
  ghost predicate Commanded(c: Setting, s: State, ok: bool, words: seq<string>, s': State)
    requires words != []
  {
    var ran, n := s.(log := s.log + [Ran(words)]), |words|;
    var failed := ran.(over := Some(-1));
    && (words[0] == "exit" ==> s' == ran.(over := Some(0)))
    && (words[0] == "sleep" || words[0] == "dbg" ==> s' == if n == 2 then ran else failed)
    && (words[0] == "sig" ==> s' == if n == 2 && !ok then failed else ran)
    && (words[0] == "sh" ==> s' == if n == 1 || (n == 2 && words[1] == "-s") || !ok then failed else ran)
    && (words[0] == "send" && n == 1 ==> s' == ran.(log := ran.log + [Sent("\n")]))
    && (words[0] == "send" && n > 2 ==> s' == failed)
    && (words[0] == "print" && n != 2 ==> s' == failed)
    && (words[0] == "send" || words[0] == "print" ==>
          n == 2 && (words[1] == "" || words[1][0] != '"') ==> s' == failed)
    && (words[0] == "send" && n == 2 && !ok ==> s'.over == Some(-1))
    && (words[0] == "timeout" && n > 1 ==> s' == ran.(to := Atoi(words[1]) % WORD))
    && (words[0] !in {"exit", "sleep", "dbg", "sig", "sh", "send", "print", "timeout", "recv"} ==> s' == failed)
  }

  lemma KeywordNames(k: string)
    ensures KeywordOf(k) == TimeoutKey <==> k == "timeout"
    ensures KeywordOf(k) == RecvKey <==> k == "recv"
    ensures KeywordOf(k) == SendKey <==> k == "send"
    ensures KeywordOf(k) == SigKey <==> k == "sig"
    ensures KeywordOf(k) == SleepKey <==> k == "sleep"
    ensures KeywordOf(k) == PrintKey <==> k == "print"
    ensures KeywordOf(k) == DbgKey <==> k == "dbg"
    ensures KeywordOf(k) == ExitKey <==> k == "exit"
    ensures KeywordOf(k) == ShKey <==> k == "sh"
  {
  }

  /** The same by keyword. */
  lemma Executed(c: Setting, s: State, ok: bool, words: seq<string>)
    requires words != []
    ensures var ran, n, s' := Did(s, Ran(words)), |words|, Execute(c, s, words, ok);
            match KeywordOf(words[0])
            case ExitKey => s' == Ends(ran, 0)
            case SleepKey => s' == if n == 2 then ran else Ends(ran, -1)
            case DbgKey => s' == if n == 2 then ran else Ends(ran, -1)
            case SigKey => s' == if n == 2 && !ok then Ends(ran, -1) else ran
            case ShKey => s' == if n == 1 || (n == 2 && words[1] == "-s") || !ok then Ends(ran, -1) else ran
            case SendKey =>
              && (n == 1 ==> s' == Did(ran, Sent("\n"))) && (n > 2 ==> s' == Ends(ran, -1))
              && (n == 2 && Formatted(words[1], c.bufsz) == None ==> s' == Ends(ran, -1))
              && (n == 2 && !ok ==> s'.over == Some(-1))
            case PrintKey => n != 2 || Formatted(words[1], c.bufsz) == None ==> s' == Ends(ran, -1)
            case TimeoutKey => n > 1 ==> s' == ran.(to := Unsigned(Atoi(words[1])))
            case _ => s' == Ends(ran, -1)
  {
    hide KeywordOf, Formatted, Atoi, Did;
  }

  lemma NotQuoted(w: string, room: nat)
    requires w == "" || w[0] != '"'
    ensures Formatted(w, room) == None
  {
  }

  lemma CommandLines(c: Setting, s: State, raw: string, ok: bool, words: seq<string>)
    requires HasParts(raw, words) && words != [] && words[0] != "recv"
    ensures var (s', again) := OnScript(c, s, Text(raw, ok)); !again && Commanded(c, s, ok, words, s')
  {
    hide HasParts, KeywordOf, OnScript, Arguments, FirstLine, Execute;
    PartsFound(raw, words);
    KeywordNames(words[0]);
    GoodLine(c, s, raw, ok, words);
    Executed(c, s, ok, words);
    if |words| == 2 && (words[1] == "" || words[1][0] != '"') {
      NotQuoted(words[1], c.bufsz);
    }
  }

  /** An empty line or a comment does nothing, a `recv` takes one parameter at most, and what is not a line of the
      grammar stops the script. */
  lemma OtherLines(c: Setting, s: State, raw: string, ok: bool)
    ensures HasParts(raw, []) ==> OnScript(c, s, Text(raw, ok)) == (s, true)
    ensures forall words :: HasParts(raw, words) && |words| > 2 && words[0] == "recv" ==>
              OnScript(c, s, Text(raw, ok)) == (s.(over := Some(-1)), false)
    ensures (forall words :: !HasParts(raw, words)) ==> OnScript(c, s, Text(raw, ok)) == (s.(over := Some(-3)), false)
  {
    forall words: seq<string> ensures HasParts(raw, words) <==> Arguments(FirstLine(raw)) == Some(words) { PartsFound(raw, words); }
    hide HasParts, Arguments, FirstLine, Begin, Execute;
    if Arguments(FirstLine(raw)).Some? {
      assert HasParts(raw, Arguments(FirstLine(raw)).value);
    }
  }

  /** Interruptions change nothing, failures of the system end with -1, and nothing to read is no end. */
  lemma Failures(c: Setting, s: State, e: Event)
    requires Enabled(c, s, e)
    ensures e == Event.Interrupted ==> Next(c, s, e) == s
    ensures e == SelectFails || (e.Ready? && e.program == Some(ReadFails)) ==> Next(c, s, e) == s.(over := Some(-1))
    ensures OnScript(c, s, LineFails) == (s.(over := Some(-1)), false) && OnScript(c, s, NoInput) == (s, true)
  {
  }

  // ------------------------------------------------------------------ the timeout

  /** A timeout set, then a `recv` of what has not come: the time is counted exactly when the number is not 0 in an
      unsigned int; and if it runs out the interpreter returns -2. */
  lemma TimedRecv(c: Setting, s: State, e1: Event, e2: Event, w: string, pattern: string)
    requires InControl(c, s) && !s.synchro && s.outstanding == "" && Enabled(c, s, e1) && Enabled(c, s, e2)
    requires e1.Ready? && e1.program == None && e1.script.Some? && e1.script.value.Text?
    requires e2.Ready? && e2.program == None && e2.script.Some? && e2.script.value.Text?
    requires HasParts(e1.script.value.raw, ["timeout", w]) && HasParts(e2.script.value.raw, ["recv", pattern])
    ensures var s1 := Next(c, s, e1);
            && Enabled(c, s1, e2)
            && var s2 := Next(c, s1, e2);
               && s2.synchro && !s2.input && s2.program && s2.re == c.compile(pattern) && s2.to == Atoi(w) % WORD
               && (Enabled(c, s2, Elapsed) <==> Atoi(w) % WORD != 0)
               && (Enabled(c, s2, Elapsed) ==>
                     Next(c, s2, Elapsed) == s2.(over := Some(-2), log := s2.log + [Act.TimedOut]))
  {
    hide OnScript, Atoi, HasParts, Interact.Pending, InOrder, Output;
    var t1, t2 := e1.script.value, e2.script.value;
    TimeoutLine(c, s, t1.raw, t1.ok, w);
    RecvLine(c, Next(c, s, e1), t2.raw, t2.ok, pattern);
  }

  // ------------------------------------------------------------------ what the interpreter returns

  /** The line read in this turn, if the program has not ended it before. */
  function LineRead(c: Setting, s: State, e: Event): Option<FromScript>
    requires Enabled(c, s, e)
  {
    match e
    case Ready(p, l) => if p.Some? && OnProgram(c, s, p.value).over.Some? then None else l
    case _ => None
  }

  ghost predicate IsExit(l: FromScript) {
    l.Text? && exists words :: words != [] && words[0] == "exit" && HasParts(l.raw, words)
  }

  /** The value returned tells why, turn by turn: 0 for the end of the program, of the script or `exit`; -2 for the
      time of a `recv`, -3 for a line out of the grammar; and nothing else returns them. */
  lemma ReturnCodes(c: Setting, s: State, e: Event)
    requires Enabled(c, s, e)
    ensures var s', l := Next(c, s, e), LineRead(c, s, e);
            && (s'.over == Some(-2) <==> e == Elapsed)
            && (s'.over == Some(-3) <==> l.Some? && l.value.Text? && forall words :: !HasParts(l.value.raw, words))
            && (s'.over == Some(0) <==> || e == Dead || (e.Ready? && e.program == Some(EndOfProgram))
                                        || l == Some(EndOfScript) || (l.Some? && IsExit(l.value)))
  {
    hide Search, OnScript, Flush, HasParts, IsExit;
    if e.Ready? && e.program.Some? {
      SearchCodes(c, s, e.program.value);
    }
    var l := LineRead(c, s, e);
    if l.Some? {
      LineCodes(c, if e.program.Some? then OnProgram(c, s, e.program.value) else s, l.value);
    }
  }

  lemma SearchCodes(c: Setting, s: State, p: FromProgram)
    requires s.over == None
    ensures OnProgram(c, s, p).over in {None, Some(0), Some(-1), Some(2)}
    ensures OnProgram(c, s, p).over == Some(0) <==> p == EndOfProgram
  {
    hide Handled;
  }

  lemma LineCodes(c: Setting, s: State, l: FromScript)
    requires s.over == None
    ensures var (s', again) := OnScript(c, s, l);
            && s'.over != Some(-2)
            && (s'.over == Some(-3) <==> l.Text? && forall words :: !HasParts(l.raw, words))
            && (s'.over == Some(0) <==> l == EndOfScript || IsExit(l))
            && (again ==> s' == s)
  {
    if l.Text? {
      TextCodes(c, s, l.raw, l.ok);
    }
  }

  lemma TextCodes(c: Setting, s: State, raw: string, ok: bool)
    requires s.over == None
    ensures var (s', again) := OnScript(c, s, Text(raw, ok));
            && s'.over != Some(-2)
            && (s'.over == Some(-3) <==> forall words :: !HasParts(raw, words))
            && (s'.over == Some(0) <==> IsExit(Text(raw, ok)))
            && (again ==> s' == s)
  {
    forall words: seq<string> ensures HasParts(raw, words) <==> Arguments(FirstLine(raw)) == Some(words) { PartsFound(raw, words); }
    hide HasParts, Arguments, FirstLine;
    match Arguments(FirstLine(raw)) {
      case None => BadLine(c, s, raw, ok);
      case Some(args) =>
        assert HasParts(raw, args);
        if args == [] {
          OtherLines(c, s, raw, ok);
        } else {
          ArgsCodes(c, s, raw, ok, args);
        }
    }
  }

  lemma ArgsCodes(c: Setting, s: State, raw: string, ok: bool, args: seq<string>)
    requires s.over == None && args != [] && Arguments(FirstLine(raw)) == Some(args)
    ensures var (s', again) := OnScript(c, s, Text(raw, ok));
            !again && s'.over in {None, Some(0), Some(-1), Some(2)} && (s'.over == Some(0) <==> args[0] == "exit")
  {
    hide Arguments, FirstLine, KeywordOf, OnScript, Receive, Execute;
    KeywordNames(args[0]);
    if args[0] == "recv" {
      RecvCodes(c, s, raw, ok, args);
    } else {
      GoodLine(c, s, raw, ok, args);
      ExecuteCodes(c, s, ok, args);
    }
  }

  lemma BeginCodes(c: Setting, s: State, pattern: string)
    requires s.over == None
    ensures Begin(c, s, pattern).over in {None, Some(2)}
  {
    hide Handled;
  }

  lemma RecvCodes(c: Setting, s: State, raw: string, ok: bool, args: seq<string>)
    requires s.over == None && args != [] && Arguments(FirstLine(raw)) == Some(args) && KeywordOf(args[0]) == RecvKey
    ensures var (s', again) := OnScript(c, s, Text(raw, ok)); !again && s'.over in {None, Some(-1), Some(2)}
  {
    hide Arguments, FirstLine, KeywordOf, EndOfLineFits, Begin, Execute;
    BeginCodes(c, s, if |args| == 2 then args[1] else END_OF_LINE);
  }

  lemma TextCommandCodes(c: Setting, s: State, args: seq<string>, ok: bool)
    requires s.over == None && args != []
    ensures Send(c, s, args, ok).over in {None, Some(-1)} && Print(c, s, args).over in {None, Some(-1)}
  {
    hide Formatted;
  }

  lemma Delegated(c: Setting, s: State, ok: bool, args: seq<string>)
    requires s.over == None && args != []
    ensures var ran, s' := Did(s, Ran(args)), Execute(c, s, args, ok);
            && ran.over == None && Ends(ran, 0).over == Some(0) && Ends(ran, -1).over == Some(-1)
            && (KeywordOf(args[0]) == SendKey ==> s' == Send(c, ran, args, ok))
            && (KeywordOf(args[0]) == PrintKey ==> s' == Print(c, ran, args))
            && (KeywordOf(args[0]) == TimeoutKey ==> s'.over in {None, Some(-1)})
  {
    hide KeywordOf, Send, Print, Atoi;
  }

  lemma ExecuteCodes(c: Setting, s: State, ok: bool, args: seq<string>)
    requires s.over == None && args != []
    ensures Execute(c, s, args, ok).over in {None, Some(0), Some(-1)}
    ensures Execute(c, s, args, ok).over == Some(0) <==> KeywordOf(args[0]) == ExitKey
  {
    hide *;
    Executed(c, s, ok, args);
    Delegated(c, s, ok, args);
    TextCommandCodes(c, Did(s, Ran(args)), args, ok);
  }

  /** The death of the program and the end of the script leave nothing unwritten. */
  lemma EndsWritten(c: Setting, s: State, e: Event)
    requires InControl(c, s) && Enabled(c, s, e) && (e == Dead || LineRead(c, s, e) == Some(EndOfScript))
    ensures var s' := Next(c, s, e); s'.over == Some(0) && s'.outstanding == "" && Output(s'.log) == s'.received
  {
    hide InControl, Output, Interact.Pending, InOrder, Search;
    ControlIs(c, s);
    if e == Dead {
      FlushSettles(c, s);
    } else if e.program.Some? {
      ProgramSettles(c, s, e.program.value);
      FlushSettles(c, OnProgram(c, s, e.program.value));
    } else {
      FlushSettles(c, s);
    }
  }
}
