/**
 The whole life of a connection: everything that the daemon sends to one client in a run, byte after byte,
 and everything that the successive calls of rsystem() make of it.
 */
module Session {
  import opened Bytes
  import opened DaemonSpec
  import opened World
  import opened RsysMsg
  import opened Rsystem
  import opened ShellStatus
  import opened EndToEnd

  // ------------------------------------------------------------------ the bytes of the connection

  /** What nobody sets in a message: a field, and the padding. */
  datatype Filler = Filler(unset: int, pad: string)

  predicate GoodFiller(f: Filler) {
    IsInt(f.unset) && |f.pad| == 8
  }

  /** A message of the daemon can be put into the fields of its header. */
  predicate Sendable(a: Act) {
    match a
    case Display(_, text, _) => NoNul(text) && IsSize(|text| + 1)
    case Eoc(_, status) => IsInt(status)
    case _ => true
  }

  /** The bytes of an action on the socket of the client `c`. */
  function Message(a: Act, c: nat, f: Filler): string
    requires Sendable(a) && GoodFiller(f)
  {
    match a
    case Display(x, text, _) => if x == c then OutBytes(Out(text, f.unset, f.pad)) else ""
    case Eoc(x, status) => if x == c then Pack(Fields(TYPE_EOC, 0, status), f.pad) else ""
    case Busy(x) => if x == c then Pack(Fields(TYPE_BUSY, 0, f.unset), f.pad) else ""
    case _ => ""
  }

  ghost predicate AllSendable(log: seq<Act>, c: nat) {
    forall j :: 0 <= j < |log| && About(log[j]) == Some(c) ==> Sendable(log[j])
  }

  /** All the bytes sent to the client so far; `fill` gives what is not set in each message. */
  ghost function Wired(log: seq<Act>, c: nat, fill: nat -> Filler): string
    requires AllSendable(log, c) && forall j :: GoodFiller(fill(j))
  {
    if log == [] then ""
    else
      var a := log[|log| - 1];
      Wired(log[..|log| - 1], c, fill) + if About(a) == Some(c) then Message(a, c, fill(|log| - 1)) else ""
  }

  // ------------------------------------------------------------------ what the calls must get

  /** What a call must give: the number told by the shell, -1 for none, and the text printed. */
  datatype Got = Got(code: int, text: string)

  /** The command under way: its place in the log. */
  function Open(log: seq<Act>, c: nat): Option<nat> {
    if log == [] then None
    else
      match log[|log| - 1]
      case Command(x, _, _) => if x == c then Some(|log| - 1) else Open(log[..|log| - 1], c)
      case Eoc(x, _) => if x == c then None else Open(log[..|log| - 1], c)
      case _ => Open(log[..|log| - 1], c)
  }

  /** What the end of a command that was submitted at `n` must give. */
  ghost function Due(log: seq<Act>, n: nat, c: nat, ans: Answers): Got
    requires n < |log|
  {
    if log[n].Command? && log[n].ok then
      Got(if NotAsked(log, n, |log| - 1, c) then -1 else ans(n).code, ans(n).out)
    else Got(-1, "")
  }

  /** The successive calls of the client: each command given to a shell gets its own output and status, a command
      refused by its shell and one told BUSY get -1 and print nothing. */
  ghost function Expected(log: seq<Act>, c: nat, ans: Answers): seq<Got> {
    if log == [] then []
    else
      var before := log[..|log| - 1];
      var gots := Expected(before, c, ans);
      match log[|log| - 1]
      case Eoc(x, _) =>
        if x == c && Open(before, c).Some? && Open(before, c).value < |before| then
          gots + [Due(log, Open(before, c).value, c, ans)]
        else gots
      case Busy(x) => if x == c then gots + [Got(-1, "")] else gots
      case _ => gots
  }

  // ------------------------------------------------------------------ the messages, put together

  /** Complete answers, and the pieces of the one under way. */
  datatype Sent = Sent(replies: seq<Served>, pieces: seq<Out>)

  function Add(s: Sent, a: Act, c: nat, f: Filler): Sent {
    match a
    case Display(x, text, _) => if x == c then s.(pieces := s.pieces + [Out(text, f.unset, f.pad)]) else s
    case Eoc(x, status) => if x == c then Sent(s.replies + [Served(s.pieces, status, f.pad)], []) else s
    case Busy(x) => if x == c then s.(replies := s.replies + [Turned(TYPE_BUSY, f.unset, f.pad)]) else s
    case _ => s
  }

  function SentTo(log: seq<Act>, c: nat, fill: nat -> Filler): Sent {
    if log == [] then Sent([], [])
    else Add(SentTo(log[..|log| - 1], c, fill), log[|log| - 1], c, fill(|log| - 1))
  }

  predicate ValidReplies(vs: seq<Served>) {
    forall i :: 0 <= i < |vs| ==> ValidServed(vs[i])
  }

  function Pieces(outs: seq<Out>): string
    requires ValidOuts(outs)
  {
    if outs == [] then "" else OutBytes(outs[0]) + Pieces(outs[1..])
  }

  ghost predicate ValidSent(s: Sent) {
    ValidReplies(s.replies) && ValidOuts(s.pieces)
  }

  function SentBytes(s: Sent): string
    requires ValidSent(s)
  {
    Wires(s.replies) + Pieces(s.pieces)
  }

  lemma {:induction false} PiecesSnoc(outs: seq<Out>, o: Out)
    requires ValidOuts(outs) && ValidOut(o)
    ensures ValidOuts(outs + [o]) && Pieces(outs + [o]) == Pieces(outs) + OutBytes(o)
  {
    hide ValidOut, OutBytes;
    if outs == [] {
      assert [] + [o] == [o] && [o][1..] == [];
      Empty(OutBytes(o));
      assert Pieces([o]) == OutBytes(o) + Pieces([]);
    } else {
      PiecesSnoc(outs[1..], o);
      assert (outs + [o])[0] == outs[0] && (outs + [o])[1..] == outs[1..] + [o];
      Assoc(OutBytes(outs[0]), Pieces(outs[1..]), OutBytes(o));
    }
  }

  lemma {:induction false} WiresSnoc(vs: seq<Served>, v: Served)
    requires ValidReplies(vs) && ValidServed(v)
    ensures ValidReplies(vs + [v]) && Wires(vs + [v]) == Wires(vs) + Sends(v)
  {
    hide ValidServed, Sends;
    if vs == [] {
      assert [] + [v] == [v] && [v][1..] == [];
      Empty(Sends(v));
      assert Wires([v]) == Sends(v) + Wires([]);
    } else {
      WiresSnoc(vs[1..], v);
      assert (vs + [v])[0] == vs[0] && (vs + [v])[1..] == vs[1..] + [v];
      Assoc(Sends(vs[0]), Wires(vs[1..]), Sends(v));
    }
  }

  /** The pieces, then the EOC: the answer to a command. */
  lemma {:induction false} WireIs(outs: seq<Out>, status: int, pad: string)
    requires ValidOuts(outs) && IsInt(status) && |pad| == 8
    ensures Wire(outs, status, pad) == Pieces(outs) + Pack(Fields(TYPE_EOC, 0, status), pad)
  {
    hide ValidOut, OutBytes, Pack;
    if outs == [] {
      Empty(Pack(Fields(TYPE_EOC, 0, status), pad));
    } else {
      WireIs(outs[1..], status, pad);
      Assoc(OutBytes(outs[0]), Pieces(outs[1..]), Pack(Fields(TYPE_EOC, 0, status), pad));
    }
  }

  /** One more message. A refusal comes between two answers. */
  lemma AddBytes(s: Sent, a: Act, c: nat, f: Filler)
    requires ValidSent(s) && GoodFiller(f) && About(a) == Some(c) && Sendable(a) && (a.Busy? ==> s.pieces == [])
    ensures ValidSent(Add(s, a, c, f)) && SentBytes(Add(s, a, c, f)) == SentBytes(s) + Message(a, c, f)
  {
    hide OutBytes, Pack, Wire;
    var vs, outs := s.replies, s.pieces;
    if a.Display? {
      var o := Out(a.text, f.unset, f.pad);
      PiecesSnoc(outs, o);
      Assoc(Wires(vs), Pieces(outs), OutBytes(o));
    } else if a.Eoc? {
      WireIs(outs, a.status, f.pad);
      WiresSnoc(vs, Served(outs, a.status, f.pad));
      Assoc(Wires(vs), Pieces(outs), Pack(Fields(TYPE_EOC, 0, a.status), f.pad));
      Empty(Wires(vs + [Served(outs, a.status, f.pad)]));
    } else if a.Busy? {
      WiresSnoc(vs, Turned(TYPE_BUSY, f.unset, f.pad));
      Empty(Wires(vs));
      Empty(Wires(vs + [Turned(TYPE_BUSY, f.unset, f.pad)]));
    } else {
      Empty(SentBytes(s));
    }
  }

  // ------------------------------------------------------------------ where the client stands

  /** What the log and the stage of the client say of the command under way. */
  ghost predicate OpenOk(log: seq<Act>, c: nat, ans: Answers, pieces: seq<Out>) {
    var t := Conversation(log, c, ans);
    match Open(log, c)
    case None => t == Idle && pieces == []
    case Some(n) =>
      && n < |log| && t != Idle
      && if log[n].Command? && log[n].ok then Called(log, n, |log|, c, ans) && Texts(pieces) == ShownTo(log[n..], c)
         else t == Stage.Refused && pieces == []
  }

  lemma NextElse(t: Stage, a: Act, c: nat, any: Answer)
    requires About(a) != Some(c)
    ensures Next(t, a, c, any) == t
  {
  }

  lemma OpenStep(log: seq<Act>, a: Act, c: nat)
    ensures Open(log + [a], c) ==
            match a
            case Command(x, _, _) => if x == c then Some(|log|) else Open(log, c)
            case Eoc(x, _) => if x == c then None else Open(log, c)
            case _ => Open(log, c)
  {
  }

  lemma ShownOn(log: seq<Act>, a: Act, n: nat, c: nat)
    requires n <= |log|
    ensures ShownTo((log + [a])[n..], c) == ShownTo(log[n..], c) + if a.Display? && a.client == c then a.text else ""
  {
    assert (log + [a])[n..] == log[n..] + [a] && (log[n..] + [a])[..|log| - n] == log[n..];
  }

  /** A call goes on. */
  lemma CalledOn(log: seq<Act>, a: Act, n: nat, c: nat, ans: Answers)
    requires Called(log, n, |log|, c, ans) && (a.Eoc? ==> a.client != c) && Right(Conversation(log + [a], c, ans))
    ensures Called(log + [a], n, |log| + 1, c, ans)
  {
    assert (log + [a])[..|log| + 1] == log + [a];
  }

  /** A call begins. */
  lemma CalledFirst(log: seq<Act>, a: Act, c: nat, ans: Answers)
    requires a.Command? && a.client == c && a.ok && Right(Conversation(log + [a], c, ans))
    ensures Called(log + [a], |log|, |log| + 1, c, ans) && ShownTo((log + [a])[|log|..], c) == ""
  {
    assert (log + [a])[..|log| + 1] == log + [a];
    ShownOn(log, a, |log|, c);
    assert log[|log|..] == [];
  }

  /** The step of the conversation that an action about the client makes. */
  lemma NextAbout(t: Stage, a: Act, c: nat, answer: Answer)
    requires About(a) == Some(c) && Right(t) && Right(Next(t, a, c, answer))
    ensures var t' := Next(t, a, c, answer);
            match a
            case Command(_, _, ok) => t == Idle && t' != Idle && (!ok ==> t' == Stage.Refused)
            case Display(_, _, _) => t.Running? && t'.Running?
            case StatusRequest(_, _, _) => t.Running? && t' != Idle
            case Eoc(_, status) => t' == Idle && (t == Stage.Refused ==> status == -1) && t != Idle
            case Busy(_) => t == Idle && t' == Idle
            case Oom(_) => true
  {
  }

  /** One more action. */
  lemma OpenNext(log: seq<Act>, a: Act, c: nat, ans: Answers, s: Sent, f: Filler)
    requires OpenOk(log, c, ans, s.pieces) && Right(Conversation(log, c, ans)) && Right(Conversation(log + [a], c, ans))
    ensures OpenOk(log + [a], c, ans, Add(s, a, c, f).pieces)
    ensures About(a) == Some(c) && a.Busy? ==> s.pieces == []
  {
    hide Conversation, Next, ShownTo, Called, Open, Texts, Right;
    var t, n := Conversation(log, c, ans), Open(log, c);
    ConversationStep(log, a, c, ans);
    OpenStep(log, a, c);
    if About(a) == Some(c) {
      NextAbout(t, a, c, ans(|log|));
    } else {
      NextElse(t, a, c, ans(|log|));
    }
    if a.Command? && a.client == c {
      if a.ok {
        CalledFirst(log, a, c, ans);
      }
      NoText();
    } else if n.Some? && !(a.Eoc? && a.client == c) {
      StillOpen(log, a, c, ans, n.value, s, f);
    }
  }

  lemma NoText()
    ensures Texts([]) == ""
  {
  }

  /** The call under way goes on. */
  lemma StillOpen(log: seq<Act>, a: Act, c: nat, ans: Answers, n: nat, s: Sent, f: Filler)
    requires OpenOk(log, c, ans, s.pieces) && Open(log, c) == Some(n) && Right(Conversation(log + [a], c, ans))
    requires !(About(a) == Some(c) && (a.Command? || a.Eoc? || a.Busy?))
    requires About(a) == Some(c) ==> Conversation(log, c, ans).Running?
    ensures var pieces := Add(s, a, c, f).pieces;
            if log[n].Command? && log[n].ok then
              Called(log + [a], n, |log| + 1, c, ans) && Texts(pieces) == ShownTo((log + [a])[n..], c)
            else pieces == s.pieces
  {
    hide Conversation, Next, ShownTo, Called, Open, Texts, Right;
    if log[n].Command? && log[n].ok {
      CalledOn(log, a, n, c, ans);
      ShownOn(log, a, n, c);
      if a.Display? && a.client == c {
        TextsSnoc(s.pieces, Out(a.text, f.unset, f.pad));
      } else {
        Empty(ShownTo(log[n..], c));
      }
    }
  }

  lemma {:induction false} TextsSnoc(outs: seq<Out>, o: Out)
    ensures Texts(outs + [o]) == Texts(outs) + o.text
  {
    if outs == [] {
      assert [] + [o] == [o] && [o][1..] == [];
      Empty(o.text);
      assert Texts([o]) == o.text + Texts([]);
    } else {
      TextsSnoc(outs[1..], o);
      assert (outs + [o])[0] == outs[0] && (outs + [o])[1..] == outs[1..] + [o];
      Assoc(outs[0].text, Texts(outs[1..]), o.text);
    }
  }

  // ------------------------------------------------------------------ the answers fit their messages

  /** Outputs and statuses fit the fields of a message. */
  ghost predicate Bounded(ans: Answers) {
    GoodAnswers(ans) && forall n :: IsSize(|ans(n).out| + 1) && IsInt(ans(n).code)
  }

  predicate GoodStage(t: Stage) {
    match t
    case Running(out, code) => NoNul(out) && IsSize(|out| + 1) && IsInt(code)
    case Asked(code) => IsInt(code)
    case _ => true
  }

  lemma GoodNext(t: Stage, a: Act, c: nat, answer: Answer)
    requires GoodStage(t) && Right(t) && Right(Next(t, a, c, answer))
    requires NoNul(answer.out) && IsSize(|answer.out| + 1) && IsInt(answer.code)
    ensures GoodStage(Next(t, a, c, answer)) && (About(a) == Some(c) ==> Sendable(a))
  {
    if a.Display? && a.client == c {
      assert forall x :: x in t.out[|a.text|..] ==> x in t.out;
    }
  }

  // ------------------------------------------------------------------ what has been sent is what is due

  ghost predicate Matches(vs: seq<Served>, gots: seq<Got>) {
    |vs| == |gots| && forall i :: 0 <= i < |vs| ==> StatusOf(vs[i]) == Encoded(gots[i].code) && TextOf(vs[i]) == gots[i].text
  }

  lemma MatchesSnoc(vs: seq<Served>, gots: seq<Got>, v: Served, g: Got)
    requires Matches(vs, gots) && StatusOf(v) == Encoded(g.code) && TextOf(v) == g.text
    ensures Matches(vs + [v], gots + [g])
  {
    hide StatusOf, TextOf;
  }

  /** The end of a command gives what is due. */
  lemma EocDue(log: seq<Act>, a: Act, c: nat, ans: Answers, s: Sent, f: Filler)
    requires OpenOk(log, c, ans, s.pieces) && Right(Conversation(log, c, ans)) && Right(Conversation(log + [a], c, ans))
    requires a.Eoc? && a.client == c
    ensures Open(log, c).Some? && Open(log, c).value < |log|
    ensures var v, g := Served(s.pieces, a.status, f.pad), Due(log + [a], Open(log, c).value, c, ans);
            StatusOf(v) == Encoded(g.code) && TextOf(v) == g.text
  {
    hide Conversation, Next, ShownTo, Called, Open, Texts, Right, NotAsked, Encoded;
    ConversationStep(log, a, c, ans);
    NextAbout(Conversation(log, c, ans), a, c, ans(|log|));
    var n, log' := Open(log, c).value, log + [a];
    assert log'[n] == log[n] && log'[|log|] == a;
    if log[n].Command? && log[n].ok {
      CalledIn(log, a, n, c, ans);
      assert log'[n..|log|] == log[n..] && log'[..|log| + 1] == log';
      CallAnswered(log', n, |log|, c, ans);
    } else {
      RefusedEncoded();
    }
  }

  lemma CalledIn(log: seq<Act>, a: Act, n: nat, c: nat, ans: Answers)
    requires Called(log, n, |log|, c, ans)
    ensures Called(log + [a], n, |log|, c, ans)
  {
    assert (log + [a])[..|log|] == log == log[..|log|];
  }

  lemma RefusedEncoded()
    ensures Encoded(-1) == -1 && Texts([]) == ""
  {
  }

  lemma ExpectedStep(log: seq<Act>, a: Act, c: nat, ans: Answers)
    ensures Expected(log + [a], c, ans) ==
            if a.Eoc? && a.client == c && Open(log, c).Some? && Open(log, c).value < |log| then
              Expected(log, c, ans) + [Due(log + [a], Open(log, c).value, c, ans)]
            else if a.Busy? && a.client == c then Expected(log, c, ans) + [Got(-1, "")]
            else Expected(log, c, ans)
  {
    hide Due, Open;
    assert (log + [a])[..|log|] == log;
  }

  lemma SentStep(log: seq<Act>, a: Act, c: nat, fill: nat -> Filler)
    ensures SentTo(log + [a], c, fill) == Add(SentTo(log, c, fill), a, c, fill(|log|))
  {
    hide Add;
    assert (log + [a])[..|log|] == log;
  }

  lemma WiredStep(log: seq<Act>, a: Act, c: nat, fill: nat -> Filler)
    requires AllSendable(log, c) && (About(a) == Some(c) ==> Sendable(a)) && forall j :: GoodFiller(fill(j))
    ensures AllSendable(log + [a], c)
    ensures Wired(log + [a], c, fill)
         == Wired(log, c, fill) + if About(a) == Some(c) then Message(a, c, fill(|log|)) else ""
  {
    hide Message, Sendable, About;
    assert (log + [a])[..|log|] == log;
  }

  lemma ReplyMatches(log: seq<Act>, a: Act, c: nat, ans: Answers, s: Sent, f: Filler)
    requires OpenOk(log, c, ans, s.pieces) && Right(Conversation(log, c, ans)) && Right(Conversation(log + [a], c, ans))
    requires Matches(s.replies, Expected(log, c, ans))
    ensures Matches(Add(s, a, c, f).replies, Expected(log + [a], c, ans))
  {
    hide Conversation, OpenOk, Open, Expected, Due, Matches, Right, Encoded;
    ExpectedStep(log, a, c, ans);
    if a.Eoc? && a.client == c {
      EocDue(log, a, c, ans, s, f);
      MatchesSnoc(s.replies, Expected(log, c, ans), Served(s.pieces, a.status, f.pad),
                  Due(log + [a], Open(log, c).value, c, ans));
    } else if a.Busy? && a.client == c {
      RefusedEncoded();
      MatchesSnoc(s.replies, Expected(log, c, ans), Turned(TYPE_BUSY, f.unset, f.pad), Got(-1, ""));
    }
  }

  /** All that holds of the connection of a client. */
  ghost predicate Kept(log: seq<Act>, c: nat, ans: Answers, fill: nat -> Filler)
    requires forall j :: GoodFiller(fill(j))
  {
    var s := SentTo(log, c, fill);
    && AllSendable(log, c) && GoodStage(Conversation(log, c, ans)) && OpenOk(log, c, ans, s.pieces)
    && ValidSent(s) && Wired(log, c, fill) == SentBytes(s) && Matches(s.replies, Expected(log, c, ans))
  }

  lemma KeptNext(log: seq<Act>, a: Act, c: nat, ans: Answers, fill: nat -> Filler)
    requires Bounded(ans) && (forall j :: GoodFiller(fill(j))) && Kept(log, c, ans, fill)
    requires Right(Conversation(log, c, ans)) && Right(Conversation(log + [a], c, ans))
    ensures Kept(log + [a], c, ans, fill)
  {
    AnswerBounded(ans, |log|);
    hide Conversation, Next, OpenOk, Expected, Matches, Right, GoodStage, Sendable, AllSendable, ValidSent, SentBytes,
         Message, Wired, SentTo, Add, GoodFiller, Bounded;
    var s, f := SentTo(log, c, fill), fill(|log|);
    assert GoodFiller(f);
    ConversationStep(log, a, c, ans);
    GoodNext(Conversation(log, c, ans), a, c, ans(|log|));
    SentStep(log, a, c, fill);
    WiredStep(log, a, c, fill);
    OpenNext(log, a, c, ans, s, f);
    ReplyMatches(log, a, c, ans, s, f);
    if About(a) == Some(c) {
      AddBytes(s, a, c, f);
    } else {
      AddElse(s, a, c, f);
      Empty(SentBytes(s));
    }
  }

  lemma AnswerBounded(ans: Answers, n: nat)
    requires Bounded(ans)
    ensures NoNul(ans(n).out) && IsSize(|ans(n).out| + 1) && IsInt(ans(n).code)
  {
  }

  lemma AddElse(s: Sent, a: Act, c: nat, f: Filler)
    requires About(a) != Some(c)
    ensures Add(s, a, c, f) == s
  {
  }

  lemma KeptFirst(c: nat, ans: Answers, fill: nat -> Filler)
    requires forall j :: GoodFiller(fill(j))
    ensures Kept([], c, ans, fill)
  {
    Empty("");
  }

  lemma {:induction false} KeptAlways(log: seq<Act>, c: nat, ans: Answers, fill: nat -> Filler)
    requires Bounded(ans) && (forall j :: GoodFiller(fill(j))) && Right(Conversation(log, c, ans))
    ensures Kept(log, c, ans, fill)
  {
    hide Bounded, Kept, Conversation, Right, GoodFiller;
    if log == [] {
      KeptFirst(c, ans, fill);
    } else {
      var before, a := log[..|log| - 1], log[|log| - 1];
      assert log == before + [a];
      StaysRight(log, |log| - 1, c, ans);
      KeptAlways(before, c, ans, fill);
      KeptNext(before, a, c, ans, fill);
    }
  }

  /** The value returned is the one that the number of the shell is encoded to, and it means this number. */
  predicate Returned(wait: int, code: int) {
    wait == Encoded(code) && Means(wait, code)
  }

  /**
   Over every run of the daemon where no message fails in the middle of an output, for every client to which all
   the messages are sent, whatever the other clients do: the bytes on its connection are complete answers, then
   the pieces of the one under way; and the successive calls of rsystem(), reading them in any pieces, each give
   what is due to their own command, up to the first one with a header cut by a read, which fails.
   */
  lemma SessionIsRight(ws: seq<World>, es: seq<Event>, ans: Answers, k: nat, c: nat, fill: nat -> Filler,
                       tail: string, cuts: nat -> Cut)
    requires SmoothRun(ws, es, ans) && Bounded(ans) && k < |ws| && AllSent(ws[k].d.log, c)
    requires (forall j :: GoodFiller(fill(j))) && forall j :: cuts(j).Gives?
    ensures var log := ws[k].d.log;
            && AllSendable(log, c)
            && var vs, gots, incoming := SentTo(log, c, fill).replies, Expected(log, c, ans), Wired(log, c, fill) + tail;
               var rs, n := Calls(|gots|, incoming, cuts, 0), WholeCalls(vs, incoming, cuts, 0);
               && n <= |vs| == |gots|
               && (forall i :: 0 <= i < n ==> Returned(rs[i].status, gots[i].code) && rs[i].printed == gots[i].text)
               && (n < |gots| ==> rs[n].status == -1 && rs[n].printed <= gots[n].text)
  {
    hide SmoothRun, GoodAnswers, Conversation, AllSent, Right, SentTo, Wired, Expected, GoodStage, OpenOk, Calls, WholeCalls,
         AllSendable, GoodFiller, Means, Encoded;
    var log := ws[k].d.log;
    BoundedGood(ans);
    NeverWrong(ws, es, ans, k, c);
    assert log[..|log|] == log;
    RightSoFar(log, |log|, c, ans);
    KeptAlways(log, c, ans, fill);
    var s := SentTo(log, c, fill);
    Assoc(Wires(s.replies), Pieces(s.pieces), tail);
    CallsAnswered(s.replies, Pieces(s.pieces) + tail, cuts, 0);
    forall i: int ensures Returned(Encoded(i), i) { EncodedMeans(i); }
  }

  lemma BoundedGood(ans: Answers)
    requires Bounded(ans)
    ensures GoodAnswers(ans)
  {
  }
}
