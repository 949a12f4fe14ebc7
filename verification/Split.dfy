/** The parameter table of the interpreter and pdip_split_cmdline(), which cuts a line in place. */
module Split {
  import opened Bytes
  import opened Decimal
  import opened Format

  const NULL := -1
  const COMMENT: char := '#'

  // ------------------------------------------------------------------ the parameter table

  /** pdip_argv, pdip_argc and pdip_argv_nb; an entry is the index of a string in the line, or NULL. */
  class ArgTable {
    var argv: array?<int>
    var argc: nat
    var argvNb: nat

    /** Room for one more entry, a NULL behind the last one. */
    ghost predicate Valid()
      reads this, argv
    {
      && (argv == null <==> argvNb == 0)
      && (argvNb == 0 ==> argc == 0)
      && (argv != null ==> argc < argvNb == argv.Length && argv[argc] == NULL)
    }

    ghost function Entries(): seq<int>
      requires Valid()
      reads this, argv
    {
      if argv == null then [] else argv[..argc]
    }

    constructor ()
      ensures Valid() && Entries() == [] && argv == null
    {
      argv, argc, argvNb := null, 0, 0;
    }

    /** pdip_reset_argv() */
    method Reset()
      requires Valid()
      modifies this, argv
      ensures Valid() && Entries() == [] && argv == old(argv)
    {
      argc := 0;
      if argvNb > 0 {
        argv[0] := NULL;
      }
    }

    /** pdip_free_argv() */
    method Free()
      requires Valid()
      modifies this
      ensures Valid() && Entries() == [] && argv == null
    {
      argv, argc, argvNb := null, 0, 0;
    }

    /** pdip_new_argv() */
    method NewArgv(str: int)
      requires Valid()
      modifies this, argv
      ensures Valid() && Entries() == old(Entries()) + [str]
      ensures argv == old(argv) || fresh(argv)
    {
      if argvNb > 0 {
        argv[argc] := str;
        argc := argc + 1;
        if argc == argvNb {
          argvNb := argvNb + 1;
          var bigger := new int[argvNb];
          var i := 0;
          while i < argc
            invariant argv != null && argv == old(argv) && argc == argv.Length && argvNb == bigger.Length == argc + 1
            invariant i <= argc && bigger[..i] == argv[..i]
            invariant argv[..argc] == old(Entries()) + [str]
          {
            bigger[i] := argv[i];
            i := i + 1;
          }
          argv := bigger;
        }
      } else {
        argvNb, argc := 2, 1;
        argv := new int[2];
        argv[0] := str;
      }
      argv[argc] := NULL;
    }
  }

  // ------------------------------------------------------------------ the words of a line

  predicate IsNameStart(c: char) {
    c == '_' || 'A' <= c <= 'Z' || 'a' <= c <= 'z'
  }

  predicate IsNameChar(c: char) {
    IsNameStart(c) || '0' <= c <= '9'
  }

  function SkipBlanks(t: string): (u: string)
    ensures |u| <= |t| && (u != "" ==> !IsSpace(u[0]))
  {
    if t != "" && IsSpace(t[0]) then SkipBlanks(t[1..]) else t
  }

  /** The line is over: its end or a comment. */
  predicate AtEnd(t: string) {
    t == "" || t[0] == COMMENT
  }

  /** Length of the characters of a name at the head of `t`. */
  function NameLength(t: string): (k: nat)
    ensures k <= |t|
  {
    if t != "" && IsNameChar(t[0]) then 1 + NameLength(t[1..]) else 0
  }

  function WordLength(t: string): (k: nat)
    ensures k <= |t| && (k < |t| && !AtEnd(t[k..]) ==> IsSpace(t[k]))
  {
    if t != "" && !IsSpace(t[0]) && t[0] != COMMENT then 1 + WordLength(t[1..]) else 0
  }

  /** Length up to the closing quote included, behind an opening one; an inhibited character does not close. */
  function StringLength(t: string): (k: Option<nat>)
    ensures k.Some? ==> 0 < k.value <= |t| && t[k.value - 1] == '"'
  {
    if t == "" then None
    else if t[0] == '"' then Some(1)
    else if t[0] == '\\' then
      if |t| == 1 then None
      else
        match StringLength(t[2..])
        case None => None
        case Some(k) => Some(k + 2)
    else
      match StringLength(t[1..])
      case None => None
      case Some(k) => Some(k + 1)
  }

  function Before(word: string, rest: Option<seq<string>>): Option<seq<string>> {
    match rest
    case None => None
    case Some(words) => Some([word] + words)
  }

  /** A word of length `k` at the head of `u`, and what comes behind. When no blank comes behind the word no
      NUL is written: the parameter goes on to the end of the line, with the comment glued to it if any. */
  function WordThen(u: string, k: nat): Option<seq<string>>
    requires 0 < k <= |u|
    decreases |u|, 0
  {
    if AtEnd(u[k..]) then Some([u])
    else if !IsSpace(u[k]) then None
    else Before(u[..k], Parameters(u[k + 1..]))
  }

  function Parameters(t: string): Option<seq<string>>
    decreases |t|, 1
  {
    var u := SkipBlanks(t);
    if AtEnd(u) then Some([])
    else
      match ParameterLength(u)
      case None => None
      case Some(k) => WordThen(u, k)
  }

  /** Length of the parameter at the head of `u`, a string or a word. */
  function ParameterLength(u: string): (k: Option<nat>)
    requires u != ""
    ensures k.Some? ==> 0 < k.value <= |u|
  {
    if u[0] == '"' then Further(1, StringLength(u[1..])) else Some(1 + WordLength(u[1..]))
  }

  /** The command and its parameters; None on a syntax error. */
  function Arguments(line: string): Option<seq<string>> {
    var u := SkipBlanks(line);
    if AtEnd(u) then Some([])
    else if !IsNameStart(u[0]) then None
    else WordThen(u, 1 + NameLength(u[1..]))
  }

  // ------------------------------------------------------------------ the code

  /** The line being cut: behind `p` nothing has changed. */
  ghost predicate Uncut(line: array<char>, text: string, p: nat)
    reads line
  {
    p <= |text| < line.Length && line[p..|text|] == text[p..] && line[|text|] == NUL && NoNul(text)
  }

  lemma Here(line: array<char>, text: string, p: nat)
    requires Uncut(line, text, p)
    ensures p <= |text| < line.Length && line[p] == if p == |text| then NUL else text[p]
    ensures p < |text| ==> text[p] != NUL && Uncut(line, text, p + 1) && text[p..][1..] == text[p + 1..] && text[p..][0] == text[p]
    ensures p == |text| ==> text[p..] == ""
  {
  }

  lemma CharAt(line: array<char>, text: string, p: nat)
    requires Uncut(line, text, p)
    ensures p <= |text| < line.Length && line[p] == if p == |text| then NUL else text[p]
    ensures p < |text| ==> text[p] != NUL && Uncut(line, text, p + 1)
  {
    Here(line, text, p);
  }

  method Blanks(line: array<char>, ghost text: string, from: nat) returns (p: nat)
    requires Uncut(line, text, from)
    ensures from <= p <= |text| && Uncut(line, text, p) && text[p..] == SkipBlanks(text[from..])
  {
    p := from;
    Here(line, text, p);
    while IsSpace(line[p])
      invariant from <= p <= |text| && Uncut(line, text, p) && SkipBlanks(text[p..]) == SkipBlanks(text[from..])
      decreases |text| - p
    {
      Here(line, text, p);
      p := p + 1;
    }
    Here(line, text, p);
  }

  method Name(line: array<char>, ghost text: string, from: nat) returns (p: nat)
    requires Uncut(line, text, from)
    ensures from <= p <= |text| && Uncut(line, text, p) && p == from + NameLength(text[from..])
  {
    p := from;
    Here(line, text, p);
    while line[p] != NUL && IsNameChar(line[p])
      invariant from <= p <= |text| && Uncut(line, text, p) && p + NameLength(text[p..]) == from + NameLength(text[from..])
      decreases |text| - p
    {
      Here(line, text, p);
      p := p + 1;
    }
    Here(line, text, p);
  }

  method Word(line: array<char>, ghost text: string, from: nat) returns (p: nat)
    requires Uncut(line, text, from)
    ensures from <= p <= |text| && Uncut(line, text, p) && p == from + WordLength(text[from..])
  {
    p := from;
    Here(line, text, p);
    while line[p] != NUL && !IsSpace(line[p]) && line[p] != COMMENT
      invariant from <= p <= |text| && Uncut(line, text, p) && p + WordLength(text[p..]) == from + WordLength(text[from..])
      decreases |text| - p
    {
      Here(line, text, p);
      p := p + 1;
    }
    Here(line, text, p);
  }

  /** The states of get_string: the closing quote is looked for, a backslash inhibits the next character. */
  method String(line: array<char>, ghost text: string, from: nat) returns (ok: bool, p: nat)
    requires Uncut(line, text, from)
    ensures from <= p <= |text| && Uncut(line, text, p)
    ensures StringLength(text[from..]) == if ok then Some(p - from) else None
  {
    p, ok := from, false;
    var inhibited := false;
    hide StringLength, InString, Further, Uncut;
    CharAt(line, text, from);
    StringBegins(text, from);
    while true
      invariant from <= p <= |text| && Uncut(line, text, p)
      invariant StringLength(text[from..]) == Further(p - from, InString(inhibited, text, p))
      decreases |text| - p
    {
      CharAt(line, text, p);
      StringStep(inhibited, text, p, p - from);
      if line[p] == NUL {
        return;
      }
      if inhibited {
        inhibited := false;
      } else if line[p] == '"' {
        p, ok := p + 1, true;
        return;
      } else if line[p] == '\\' {
        inhibited := true;
      }
      p := p + 1;
    }
  }

  lemma StringBegins(text: string, p: nat)
    requires p <= |text|
    ensures Further(0, InString(false, text, p)) == StringLength(text[p..])
  {
  }

  lemma StringStep(inhibited: bool, text: string, p: nat, n: nat)
    requires p <= |text|
    ensures Further(n, InString(inhibited, text, p)) ==
            if p == |text| then None
            else if !inhibited && text[p] == '"' then Some(n + 1)
            else Further(n + 1, InString(!inhibited && text[p] == '\\', text, p + 1))
  {
    var t := text[p..];
    if p < |text| {
      assert t[0] == text[p] && t[1..] == text[p + 1..];
      assert |t| > 1 ==> t[1..][1..] == t[2..];
    }
  }

  function Further(n: nat, k: Option<nat>): Option<nat> {
    match k
    case None => None
    case Some(k) => Some(n + k)
  }

  /** The length from `p` on. */
  function InString(inhibited: bool, text: string, p: nat): Option<nat>
    requires p <= |text|
  {
    if !inhibited then StringLength(text[p..])
    else if p == |text| then None
    else Further(1, StringLength(text[p + 1..]))
  }

  /** The string that begins at an index of the line. */
  ghost predicate IsString(line: array<char>, at: int, s: string)
    reads line
  {
    && 0 <= at && at + |s| < line.Length
    && line[at..at + |s|] == s && line[at + |s|] == NUL && NoNul(s)
  }

  ghost predicate AreStrings(line: array<char>, starts: seq<int>, words: seq<string>)
    reads line
  {
    |starts| == |words| && forall j :: 0 <= j < |words| ==> IsString(line, starts[j], words[j])
  }

  function After(words: seq<string>, rest: Option<seq<string>>): Option<seq<string>> {
    match rest
    case None => None
    case Some(more) => Some(words + more)
  }

  lemma AfterWord(words: seq<string>, word: string, rest: Option<seq<string>>)
    ensures After(words, Before(word, rest)) == After(words + [word], rest)
  {
    if rest.Some? {
      Assoc(words, [word], rest.value);
    }
  }

  /** Between two words: `words` are cut, the rest of the line is as it was. */
  ghost predicate Between(line: array<char>, text: string, starts: seq<int>, words: seq<string>, p: nat)
    reads line
  {
    Uncut(line, text, p) && AreStrings(line, starts, words) && EndBefore(starts, words, p)
  }

  ghost predicate EndBefore(starts: seq<int>, words: seq<string>, p: nat) {
    |starts| == |words| && forall j :: 0 <= j < |words| ==> starts[j] + |words[j]| < p
  }

  lemma OneMoreString(line: array<char>, starts: seq<int>, words: seq<string>, start: int, word: string)
    requires AreStrings(line, starts, words) && IsString(line, start, word)
    ensures AreStrings(line, starts + [start], words + [word])
  {
  }

  datatype Outcome = Going | Finished | Wrong

  /** Behind a word that begins at `start` and ends at `p`: the end of the line, or a blank that becomes a NUL. */
  method CloseWord(line: array<char>, ghost text: string, ghost starts: seq<int>, ghost words: seq<string>, ghost start: nat, p: nat)
    returns (res: Outcome, p': nat, ghost words': seq<string>)
    requires start < p <= |text| && Uncut(line, text, start) && Uncut(line, text, p)
    requires AreStrings(line, starts, words) && EndBefore(starts, words, start)
    modifies line
    ensures p' <= |text|
    ensures match res
            case Wrong => WordThen(text[start..], p - start) == None
            case Finished =>
              WordThen(text[start..], p - start) == Some([text[start..]]) && words' == words + [text[start..]]
              && AreStrings(line, starts + [start], words')
            case Going =>
              && start < p' <= |text| && words' == words + [text[start..p]]
              && WordThen(text[start..], p - start) == Before(text[start..p], Parameters(text[p'..]))
              && Between(line, text, starts + [start], words', p')
  {
    hide Parameters;
    Here(line, text, p);
    ghost var u, k := text[start..], p - start;
    assert u[k..] == text[p..] && u[..k] == text[start..p];
    TailNoNul(text, start);
    p', words', res := p, words + [u], Wrong;
    if line[p] == NUL || line[p] == COMMENT {
      res := Finished;
      OneMoreString(line, starts, words, start, u);
    } else if IsSpace(line[p]) {
      assert u[k + 1..] == text[p + 1..];
      words' := words + [text[start..p]];
      res, p' := Going, p + 1;
      CutWord(line, text, starts, words, start, p);
    }
  }

  /** The blank at `p` ends the word. */
  method CutWord(line: array<char>, ghost text: string, ghost starts: seq<int>, ghost words: seq<string>, ghost start: nat, p: nat)
    requires start < p < |text| && Uncut(line, text, start)
    requires AreStrings(line, starts, words) && EndBefore(starts, words, start)
    modifies line
    ensures Between(line, text, starts + [start], words + [text[start..p]], p + 1)
  {
    ghost var word := text[start..p];
    assert line[start..p] == line[start..|text|][..p - start] == text[start..][..p - start] == word;
    assert line[p + 1..|text|] == line[start..|text|][p + 1 - start..] == text[start..][p + 1 - start..] == text[p + 1..];
    forall j | 0 <= j < |words| ensures line[starts[j]..starts[j] + |words[j]|] == words[j] {
      assert IsString(line, starts[j], words[j]);
    }
    EndString(line, p);
    TailNoNul(text, start);
    forall j | 0 <= j < |words| ensures IsString(line, starts[j], words[j]) {
      assert old(IsString(line, starts[j], words[j]));
    }
    OneMoreString(line, starts, words, start, word);
  }

  /** A NUL in the place of a blank. */
  method EndString(line: array<char>, p: nat)
    requires p < line.Length
    modifies line
    ensures line[p] == NUL
    ensures forall i, k :: 0 <= i <= k <= p ==> line[i..k] == old(line[i..k])
    ensures forall i, k :: p < i <= k <= line.Length ==> line[i..k] == old(line[i..k])
    ensures forall i :: 0 <= i < line.Length && i != p ==> line[i] == old(line[i])
  {
    line[p] := NUL;
  }

  lemma TailNoNul(text: string, start: nat)
    requires NoNul(text) && start <= |text|
    ensures NoNul(text[start..]) && forall p :: start <= p <= |text| ==> NoNul(text[start..p])
  {
  }

  /** What is known between two words, behind the last one, or on a syntax error. */
  ghost predicate Progress(line: array<char>, text: string, starts: seq<int>, words: seq<string>, res: Outcome, p: nat)
    reads line
  {
    match res
    case Going => Between(line, text, starts, words, p) && Arguments(text) == After(words, Parameters(text[p..]))
    case Finished => Arguments(text) == Some(words) && AreStrings(line, starts, words)
    case Wrong => Arguments(text) == None
  }

  /** The end of the parameter that begins at `start`. */
  method FindEnd(line: array<char>, ghost text: string, start: nat) returns (ok: bool, q: nat)
    requires Uncut(line, text, start) && start < |text|
    ensures ParameterLength(text[start..]) == if ok then Some(q - start) else None
    ensures ok ==> start < q <= |text| && Uncut(line, text, q)
  {
    Here(line, text, start);
    ok := true;
    if line[start] == '"' {
      ok, q := String(line, text, start + 1);
    } else {
      q := Word(line, text, start + 1);
    }
  }

  lemma LastWord(text: string, words: seq<string>, starts: seq<int>, line: array<char>, p: nat, start: nat)
    requires Progress(line, text, starts, words, Going, p) && start <= |text|
    requires text[start..] == SkipBlanks(text[p..]) && AtEnd(text[start..])
    ensures Progress(line, text, starts, words, Finished, start)
  {
    Empty(words);
  }

  lemma WordDone(line: array<char>, text: string, starts: seq<int>, words: seq<string>, p: nat, start: nat, q: nat,
                 res: Outcome, p': nat)
    requires p <= |text| && Arguments(text) == After(words, Parameters(text[p..])) && start < q <= |text| && p' <= |text|
    requires text[start..] == SkipBlanks(text[p..]) && !AtEnd(text[start..]) && ParameterLength(text[start..]) == Some(q - start)
    requires match res
             case Wrong => WordThen(text[start..], q - start) == None
             case Finished =>
               WordThen(text[start..], q - start) == Some([text[start..]])
               && AreStrings(line, starts, words + [text[start..]])
             case Going =>
               WordThen(text[start..], q - start) == Before(text[start..q], Parameters(text[p'..]))
               && Between(line, text, starts, words + [text[start..q]], p')
    ensures var w := if res == Going then text[start..q] else text[start..];
            Progress(line, text, starts, words + [w], res, p')
  {
    hide WordThen, Arguments;
    assert Parameters(text[p..]) == WordThen(text[start..], q - start);
    if res == Going {
      AfterWord(words, text[start..q], Parameters(text[p'..]));
    }
  }

  /** next_param: one more parameter, a word or a string. */
  method NextWord(line: array<char>, ghost text: string, table: ArgTable, ghost words: seq<string>, p: nat)
    returns (res: Outcome, p': nat, ghost words': seq<string>)
    requires table.Valid() && Progress(line, text, table.Entries(), words, Going, p)
    modifies line, table, table.argv
    ensures table.Valid() && (table.argv == old(table.argv) || fresh(table.argv))
    ensures Progress(line, text, table.Entries(), words', res, p') && (res == Going ==> p < p')
    ensures old(table.Entries()) <= table.Entries()
  {
    hide Parameters, Arguments, WordThen, ParameterLength, AreStrings, SkipBlanks, After;
    ghost var starts := table.Entries();
    var start := Blanks(line, text, p);
    Here(line, text, start);
    p', words', res := start, words, Finished;
    if line[start] == NUL || line[start] == COMMENT {
      LastWord(text, words, starts, line, p, start);
      return;
    }
    table.NewArgv(start);
    var ok, q := FindEnd(line, text, start);
    if !ok {
      res := Wrong;
      NoWord(text, words, p, start);
      return;
    }
    assert EndBefore(starts, words, start);
    res, p', words' := CloseWord(line, text, starts, words, start, q);
    WordDone(line, text, starts + [start], words, p, start, q, res, p');
    if res == Wrong {
      words' := words + [text[start..]];
    }
  }

  lemma NoWord(text: string, words: seq<string>, p: nat, start: nat)
    requires p <= |text| && start <= |text| && Arguments(text) == After(words, Parameters(text[p..]))
    requires text[start..] == SkipBlanks(text[p..]) && !AtEnd(text[start..]) && ParameterLength(text[start..]) == None
    ensures Arguments(text) == None
  {
  }

  /** The command, at the head of the line. */
  method FirstWord(line: array<char>, table: ArgTable, ghost text: string)
    returns (res: Outcome, p: nat, ghost words: seq<string>)
    requires Uncut(line, text, 0) && table.Valid() && table.Entries() == []
    modifies line, table, table.argv
    ensures table.Valid() && (table.argv == old(table.argv) || fresh(table.argv))
    ensures Progress(line, text, table.Entries(), words, res, p)
    ensures if table.Entries() == [] then res != Going else table.Entries()[0] == |text| - |SkipBlanks(text)|
  {
    hide Parameters, WordThen;
    var start := Blanks(line, text, 0);
    Here(line, text, start);
    assert text[0..] == text;
    p, words, res := start, [], Finished;
    if line[start] == NUL || line[start] == COMMENT {
      return;
    }
    if !IsNameStart(line[start]) {
      res := Wrong;
      return;
    }
    table.NewArgv(start);
    var q := Name(line, text, start + 1);
    ghost var u := text[start..];
    res, p, words := CloseWord(line, text, [], [], start, q);
    Empty([start as int]);
    Empty([text[start..q]]);
    Empty([u]);
    CommandDone(text, start, q, res, p);
  }

  lemma CommandDone(text: string, start: nat, q: nat, res: Outcome, p: nat)
    requires start < q <= |text| && p <= |text| && text[start..] == SkipBlanks(text) && !AtEnd(text[start..])
    requires IsNameStart(text[start]) && q - start == 1 + NameLength(text[start + 1..])
    requires match res
             case Wrong => WordThen(text[start..], q - start) == None
             case Finished => WordThen(text[start..], q - start) == Some([text[start..]])
             case Going => WordThen(text[start..], q - start) == Before(text[start..q], Parameters(text[p..]))
    ensures match res
            case Wrong => Arguments(text) == None
            case Finished => Arguments(text) == Some([text[start..]])
            case Going => Arguments(text) == After([text[start..q]], Parameters(text[p..]))
  {
  }

  lemma StillInside(line: array<char>, text: string, starts: seq<int>, words: seq<string>, p: nat)
    requires Progress(line, text, starts, words, Going, p)
    ensures p <= |text|
  {
  }

  /** pdip_split_cmdline() of the string `text`: the entries of the table are the arguments, cut in the line. */
  method SplitCmdline(line: array<char>, table: ArgTable, ghost text: string) returns (rc: int, ghost words: seq<string>)
    requires Uncut(line, text, 0) && table.Valid() && table.Entries() == []
    modifies line, table, table.argv
    ensures table.Valid() && rc == if Arguments(text).Some? then 0 else -1
    ensures rc == 0 ==> Arguments(text) == Some(words) && AreStrings(line, table.Entries(), words)
    ensures rc == 0 && words != [] ==> table.Entries()[0] == |text| - |SkipBlanks(text)|
    ensures table.argv == old(table.argv) || fresh(table.argv)
  {
    var res, p;
    res, p, words := FirstWord(line, table, text);
    while res == Going
      invariant table.Valid() && Progress(line, text, table.Entries(), words, res, p)
      invariant table.argv == old(table.argv) || fresh(table.argv)
      invariant if table.Entries() == [] then res != Going else table.Entries()[0] == |text| - |SkipBlanks(text)|
      decreases res == Going, |text| - p
    {
      hide Progress, SkipBlanks;
      StillInside(line, text, table.Entries(), words, p);
      res, p, words := NextWord(line, text, table, words, p);
    }
    rc := if res == Wrong then -1 else 0;
  }

  // ------------------------------------------------------------------ round trip

  predicate IsName(s: string) {
    s != "" && IsNameStart(s[0]) && forall i :: 0 <= i < |s| ==> IsNameChar(s[i])
  }

  /** The quoted texts, each behind a blank. */
  function QuotedAll(texts: seq<string>): string {
    if texts == [] then "" else " " + Quote(texts[0]) + QuotedAll(texts[1..])
  }

  function Quotes(texts: seq<string>): seq<string> {
    if texts == [] then [] else [Quote(texts[0])] + Quotes(texts[1..])
  }

  lemma StringLengthStep(t: string)
    requires t != ""
    ensures StringLength(t) ==
            if t[0] == '"' then Some(1)
            else if t[0] != '\\' then Further(1, StringLength(t[1..]))
            else if |t| == 1 then None
            else Further(2, StringLength(t[2..]))
  {
  }

  lemma StringLengthChar(c: char, t: string)
    requires QuotedChar(c) <= t
    ensures StringLength(t) == Further(|QuotedChar(c)|, StringLength(t[|QuotedChar(c)|..]))
  {
    hide StringLength;
    StringLengthStep(t);
    assert |QuotedChar(c)| > 1 ==> t[1] == QuotedChar(c)[1];
  }

  lemma {:induction false} QuotedLength(s: string, tail: string)
    ensures StringLength(Quoted(s) + ['"'] + tail) == Some(|Quoted(s)| + 1)
  {
    var t := Quoted(s) + ['"'] + tail;
    if s == "" {
      assert t[0] == '"';
    } else {
      hide Quoted, QuotedChar, StringLength;
      QuotedFirst(s, tail);
      StringLengthChar(s[0], t);
      QuotedLength(s[1..], tail);
    }
  }

  lemma WordBefore(word: string, tail: string)
    requires word != "" && (tail == "" || IsSpace(tail[0]))
    ensures WordThen(word + tail, |word|) == Before(word, Parameters(tail))
  {
    var u, k := word + tail, |word|;
    assert u[k..] == tail && u[..k] == word;
    if tail == "" {
      Empty(word);
      Empty([word]);
      NoParameter();
    } else {
      assert u[k + 1..] == tail[1..] && u[k] == tail[0];
      BlankFirst(tail);
    }
  }

  lemma BlankFirst(t: string)
    requires t != "" && IsSpace(t[0])
    ensures Parameters(t) == Parameters(t[1..])
  {
  }

  lemma ParameterFirst(u: string, k: nat)
    requires u != "" && !IsSpace(u[0]) && u[0] != COMMENT && ParameterLength(u) == Some(k)
    ensures Parameters(u) == WordThen(u, k)
  {
  }

  lemma QuoteAhead(s: string, tail: string)
    ensures var u := Quote(s) + tail;
            u[0] == '"' && (" " + Quote(s) + tail)[1..] == u && ParameterLength(u) == Some(|Quote(s)|)
  {
    var u := Quote(s) + tail;
    assert u[1..] == Quoted(s) + ['"'] + tail;
    QuotedLength(s, tail);
  }

  lemma ParametersOfQuote(s: string, tail: string)
    requires tail == "" || IsSpace(tail[0])
    ensures Parameters(" " + Quote(s) + tail) == Before(Quote(s), Parameters(tail))
  {
    hide Parameters, WordThen, ParameterLength, Quote;
    QuoteAhead(s, tail);
    BlankFirst(" " + Quote(s) + tail);
    ParameterFirst(Quote(s) + tail, |Quote(s)|);
    WordBefore(Quote(s), tail);
  }

  lemma {:induction false} ParametersOfQuotes(texts: seq<string>)
    ensures Parameters(QuotedAll(texts)) == Some(Quotes(texts))
  {
    hide Parameters;
    if texts == [] {
      NoParameter();
    } else {
      var tail := QuotedAll(texts[1..]);
      ParametersOfQuote(texts[0], tail);
      ParametersOfQuotes(texts[1..]);
    }
  }

  lemma NoParameter()
    ensures Parameters("") == Some([])
  {
  }

  lemma {:induction false} NameLengthOf(name: string, tail: string)
    requires forall i :: 0 <= i < |name| ==> IsNameChar(name[i])
    requires tail == "" || !IsNameChar(tail[0])
    ensures NameLength(name + tail) == |name|
  {
    if name == "" {
      Empty(tail);
    } else {
      assert (name + tail)[1..] == name[1..] + tail;
      NameLengthOf(name[1..], tail);
    }
  }

  /**
   The line made of a command and of any quoted texts is cut into exactly this command and these quoted
   texts; and each of them is decoded to the text, whenever there is room for it.
   */
  lemma RoundTrip(name: string, texts: seq<string>)
    requires IsName(name)
    ensures Arguments(name + QuotedAll(texts)) == Some([name] + Quotes(texts))
    ensures |Quotes(texts)| == |texts|
    ensures forall j: nat, room: nat :: j < |texts| ==>
              Formatted(Quotes(texts)[j], room) == if |texts[j]| < room then Some(texts[j]) else None
  {
    hide Parameters, Arguments, Formatted, Quote;
    CommandFirst(name, QuotedAll(texts));
    ParametersOfQuotes(texts);
    QuotesLength(texts);
    forall j: nat, room: nat | j < |texts|
      ensures Formatted(Quotes(texts)[j], room) == if |texts[j]| < room then Some(texts[j]) else None {
      QuotesAt(texts, j);
      FormattedQuote(texts[j], room);
    }
  }

  lemma {:induction false} QuotesLength(texts: seq<string>)
    ensures |Quotes(texts)| == |texts|
  {
    if texts != [] {
      QuotesLength(texts[1..]);
    }
  }

  lemma CommandFirst(name: string, tail: string)
    requires IsName(name) && (tail == "" || IsSpace(tail[0]))
    ensures Arguments(name + tail) == Before(name, Parameters(tail))
  {
    var line := name + tail;
    assert line[0] == name[0] && !IsSpace(line[0]) && line[1..] == name[1..] + tail;
    NameLengthOf(name[1..], tail);
    WordBefore(name, tail);
  }

  lemma {:induction false} QuotesAt(texts: seq<string>, j: nat)
    requires j < |texts|
    ensures |Quotes(texts)| == |texts| && Quotes(texts)[j] == Quote(texts[j])
  {
    if |texts| > 1 {
      QuotesAt(texts[1..], if j == 0 then 0 else j - 1);
    }
  }
}
