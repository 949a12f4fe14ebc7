/**
 From the shell to the caller of rsystem(): the daemon among its other clients, its messages on the
 socket, and the client that reads them in any pieces.
 */
module EndToEnd {
  import opened Bytes
  import opened DaemonSpec
  import opened World
  import opened RsysMsg
  import opened Rsystem
  import opened ShellStatus

  /** All the text of the DISPLAY messages to a client. */
  function ShownTo(acts: seq<Act>, c: nat): string {
    if acts == [] then ""
    else
      ShownTo(acts[..|acts| - 1], c)
      + match acts[|acts| - 1]
        case Display(x, text, _) => if x == c then text else ""
        case _ => ""
  }

  /** A client that gets what it must, and has not been cut off by the failure of a message to it. */
  ghost predicate Right(t: Stage) {
    t != Wrong && t != CutOff
  }

  /** What goes wrong stays wrong. */
  lemma {:induction false} StaysRight(log: seq<Act>, n: nat, c: nat, ans: Answers)
    requires n <= |log| && Right(Conversation(log, c, ans))
    ensures Right(Conversation(log[..n], c, ans))
  {
    if n == |log| {
      assert log[..n] == log;
    } else {
      StaysRight(log[..|log| - 1], n, c, ans);
      assert log[..|log| - 1][..n] == log[..n];
    }
  }

  /** Up to any point of a log without a wrong message, a client whose messages have been sent is right. */
  lemma {:induction false} RightSoFar(log: seq<Act>, n: nat, c: nat, ans: Answers)
    requires n <= |log| && Conversation(log, c, ans) != Wrong && AllSent(log[..n], c)
    ensures Right(Conversation(log[..n], c, ans))
  {
    NotCutOff(log[..n], c, ans);
    if n == |log| {
      assert log[..n] == log;
    } else {
      var before := log[..|log| - 1];
      assert before[..n] == log[..n];
      RightSoFar(before, n, c, ans);
    }
  }

  /** The call of a client between its command and the end of it: `n` is the place of the command. */
  ghost predicate Called(log: seq<Act>, n: nat, m: nat, c: nat, ans: Answers) {
    && n < m <= |log| && log[n].Command? && log[n].client == c && log[n].ok
    && (forall k :: n < k < m && log[k].Eoc? ==> log[k].client != c)
    && Right(Conversation(log[..m], c, ans))
  }

  /** What the client has got of the answer to its command, and where it stands. */
  ghost predicate GotSoFar(t: Stage, shown: string, a: Answer) {
    || (t.Running? && shown + t.out == a.out && t.code == a.code)
    || ((t == Asked(a.code) || t == Stage.Refused) && shown == a.out)
  }

  lemma GotNext(t: Stage, shown: string, act: Act, c: nat, any: Answer, a: Answer)
    requires GotSoFar(t, shown, a) && Right(Next(t, act, c, any)) && (act.Eoc? ==> act.client != c)
    requires act.Command? ==> act.client != c
    ensures GotSoFar(Next(t, act, c, any), shown + (if act.Display? && act.client == c then act.text else ""), a)
  {
  }

  lemma {:induction false} WhileRunning(log: seq<Act>, n: nat, m: nat, c: nat, ans: Answers)
    requires Called(log, n, m, c, ans)
    ensures GotSoFar(Conversation(log[..m], c, ans), ShownTo(log[n..m], c), ans(n))
  {
    hide ShownTo, GotSoFar, Conversation, Next;
    var before, act := log[..m - 1], log[m - 1];
    assert log[..m] == before + [act];
    ConversationStep(before, act, c, ans);
    ShownStep(log, n, m, c);
    if m == n + 1 {
      CallBegins(before, act, c, ans, m - 1);
    } else {
      StaysRight(log[..m], m - 1, c, ans);
      assert log[..m][..m - 1] == before;
      WhileRunning(log, n, m - 1, c, ans);
      NotAgain(Conversation(before, c, ans), ShownTo(log[n..m - 1], c), act, c, ans(m - 1), ans(n));
      GotNext(Conversation(before, c, ans), ShownTo(log[n..m - 1], c), act, c, ans(m - 1), ans(n));
    }
  }

  lemma ShownStep(log: seq<Act>, n: nat, m: nat, c: nat)
    requires n < m <= |log|
    ensures ShownTo(log[n..m], c)
         == ShownTo(log[n..m - 1], c) + if log[m - 1].Display? && log[m - 1].client == c then log[m - 1].text else ""
    ensures m == n + 1 ==> ShownTo(log[n..m - 1], c) == ""
  {
    assert log[n..m][..m - 1 - n] == log[n..m - 1] && log[n..m][m - 1 - n] == log[m - 1];
  }

  lemma CallBegins(before: seq<Act>, act: Act, c: nat, ans: Answers, n: nat)
    requires act.Command? && act.client == c && act.ok && Right(Next(Conversation(before, c, ans), act, c, ans(n)))
    ensures GotSoFar(Next(Conversation(before, c, ans), act, c, ans(n)), "", ans(n))
  {
    Empty(ans(n).out);
  }

  /** A second command in the middle of a call would be wrong. */
  lemma NotAgain(t: Stage, shown: string, act: Act, c: nat, any: Answer, a: Answer)
    requires GotSoFar(t, shown, a) && Right(Next(t, act, c, any))
    ensures act.Command? ==> act.client != c
  {
  }

  /** The status of the command could not be asked: the line with the request has been refused by the shell. */
  ghost predicate NotAsked(log: seq<Act>, n: nat, m: nat, c: nat) {
    m <= |log| && exists j :: n < j < m && log[j].StatusRequest? && log[j].client == c && !log[j].ok
  }

  lemma RefusedNext(t: Stage, act: Act, c: nat, any: Answer)
    requires t != Idle && Next(t, act, c, any) == Stage.Refused
    ensures t == Stage.Refused || (act.StatusRequest? && act.client == c && !act.ok)
  {
  }

  /** After its command a client is refused only behind a refused request. */
  lemma {:induction false} RefusedOnlyThen(log: seq<Act>, n: nat, m: nat, c: nat, ans: Answers)
    requires Called(log, n, m, c, ans) && Conversation(log[..m], c, ans) == Stage.Refused
    ensures NotAsked(log, n, m, c)
  {
    var before, act := log[..m - 1], log[m - 1];
    assert log[..m] == before + [act];
    ConversationStep(before, act, c, ans);
    if m > n + 1 {
      StaysRight(log[..m], m - 1, c, ans);
      assert log[..m][..m - 1] == before;
      WhileRunning(log, n, m - 1, c, ans);
      RefusedNext(Conversation(before, c, ans), act, c, ans(m - 1));
      if Conversation(before, c, ans) == Stage.Refused {
        RefusedOnlyThen(log, n, m - 1, c, ans);
      }
    }
  }

  lemma AtItsEnd(t: Stage, shown: string, act: Act, c: nat, any: Answer, a: Answer)
    requires GotSoFar(t, shown, a) && Right(Next(t, act, c, any)) && act.Eoc? && act.client == c
    ensures shown == a.out && if t == Stage.Refused then act.status == -1 else act.status == a.code
  {
  }

  /** The EOC of a command comes behind its whole output, with its status; it is -1 exactly when the status
      could not be asked. */
  lemma CallAnswered(log: seq<Act>, n: nat, m: nat, c: nat, ans: Answers)
    requires m < |log| && Called(log, n, m, c, ans) && log[m].Eoc? && log[m].client == c
    requires Right(Conversation(log[..m + 1], c, ans))
    ensures ShownTo(log[n..m], c) == ans(n).out
    ensures log[m].status == if NotAsked(log, n, m, c) then -1 else ans(n).code
  {
    WhileRunning(log, n, m, c, ans);
    if Conversation(log[..m], c, ans) == Stage.Refused {
      RefusedOnlyThen(log, n, m, c, ans);
    } else if NotAsked(log, n, m, c) {
      RefusedStays(log, n, m, c, ans);
    }
    hide Conversation, ShownTo, Called, GotSoFar, Next, NotAsked;
    assert log[..m + 1] == log[..m] + [log[m]];
    ConversationStep(log[..m], log[m], c, ans);
    AtItsEnd(Conversation(log[..m], c, ans), ShownTo(log[n..m], c), log[m], c, ans(m), ans(n));
  }

  lemma StaysRefused(t: Stage, act: Act, c: nat, any: Answer)
    requires Right(Next(t, act, c, any)) && !(act.Eoc? && act.client == c)
    requires t == Stage.Refused || (act.StatusRequest? && act.client == c && !act.ok)
    ensures Next(t, act, c, any) == Stage.Refused
  {
  }

  /** Behind a refused request the client is refused up to its EOC. */
  lemma {:induction false} RefusedStays(log: seq<Act>, n: nat, m: nat, c: nat, ans: Answers)
    requires Called(log, n, m, c, ans) && NotAsked(log, n, m, c)
    ensures Conversation(log[..m], c, ans) == Stage.Refused
  {
    var j :| n < j < m && log[j].StatusRequest? && log[j].client == c && !log[j].ok;
    var before, act := log[..m - 1], log[m - 1];
    assert log[..m] == before + [act];
    ConversationStep(before, act, c, ans);
    if j < m - 1 {
      StaysRight(log[..m], m - 1, c, ans);
      assert log[..m][..m - 1] == before;
      RefusedStays(log, n, m - 1, c, ans);
    }
    StaysRefused(Conversation(before, c, ans), act, c, ans(m - 1));
  }

  /** A command of the client `c`, at `n` in the log, and its EOC, at `m`; between them the daemon has sent the
      DISPLAY messages `outs`. */
  ghost predicate Exchange(log: seq<Act>, n: nat, m: nat, c: nat, outs: seq<Out>) {
    && n < m < |log| && log[n].Command? && log[n].client == c && log[n].ok
    && log[m].Eoc? && log[m].client == c && IsInt(log[m].status)
    && (forall j :: n < j < m && log[j].Eoc? ==> log[j].client != c)
    && ValidOuts(outs) && Texts(outs) == ShownTo(log[n..m], c)
  }

  /**
   The whole system: over every run of the daemon where no message fails in the middle of an output, with any
   number of shells and clients that come, go and share them, any chopping of what the shells print and any
   pieces of what the client reads: when the messages to this client are sent, rsystem() prints exactly the
   output of its own command, leaves what is sent behind it to the next call, and returns the status of its
   command, or -1 if and only if the shell has refused the line that asks for it; and if a header is cut by a
   read, it fails with a part of this output printed.
   */
  lemma RsystemIsRight(ws: seq<World>, es: seq<Event>, ans: Answers, k: nat, n: nat, m: nat, c: nat,
                       outs: seq<Out>, pad: string, tail: string, cuts: nat -> Cut)
    requires SmoothRun(ws, es, ans) && GoodAnswers(ans) && k < |ws|
    requires Exchange(ws[k].d.log, n, m, c, outs) && AllSent(ws[k].d.log[..m], c) && |pad| == 8 && forall j :: cuts(j).Gives?
    ensures var status := ws[k].d.log[m].status;
            var wire := Wire(outs, status, pad) + tail;
            && status == (if NotAsked(ws[k].d.log, n, m, c) then -1 else ans(n).code)
            && Delivers(Replies(wire, cuts, 0), HeadersWhole(outs, wire, cuts, 0), Encoded(status), ans(n).out, tail)
            && (HeadersWhole(outs, wire, cuts, 0) ==> Means(Replies(wire, cuts, 0).status, status))
  {
    hide SmoothRun, GoodAnswers, Conversation, ShownTo, HeadersWhole, Wire, Replies, Texts, NotAsked, Delivers, AllSent;
    var log := ws[k].d.log;
    NeverWrong(ws, es, ans, k, c);
    SentToEoc(log, m, c);
    RightSoFar(log, m, c, ans);
    RightSoFar(log, m + 1, c, ans);
    CallAnswered(log, n, m, c, ans);
    RoundTrip(outs, log[m].status, pad, tail, cuts, 0);
    StatusMeans(Replies(Wire(outs, log[m].status, pad) + tail, cuts, 0), log[m].status, ans(n).out, tail);
  }

  lemma StatusMeans(r: Reply, status: int, text: string, tail: string)
    ensures Delivers(r, true, Encoded(status), text, tail) ==> Means(r.status, status)
  {
    EncodedMeans(status);
  }

  lemma NeverWrong(ws: seq<World>, es: seq<Event>, ans: Answers, k: nat, c: nat)
    requires SmoothRun(ws, es, ans) && GoodAnswers(ans) && k < |ws|
    ensures Conversation(ws[k].d.log, c, ans) != Wrong
  {
    hide SmoothRun, GoodAnswers, Conversation, AllSent;
    NoCrossTalk(ws, es, ans, k);
  }

  lemma SentToEoc(log: seq<Act>, m: nat, c: nat)
    requires m < |log| && log[m].Eoc? && AllSent(log[..m], c)
    ensures AllSent(log[..m + 1], c)
  {
    assert log[..m + 1] == log[..m] + [log[m]];
  }
}
