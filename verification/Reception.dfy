/**
 What pdip_recv() promises, without its loop: the call ends at the first read that must end it, with the
 result that this read calls for; the data are cut exactly where the match ends.
 */
module Reception {
  import opened Bytes
  import opened StreamSpec

  /** The text matches; an empty one is not searched. */
  predicate Matches(re: Regex, text: string) {
    text != "" && re(text).Some?
  }

  /** What is given to the user: the text through the end of the match, or through the newline which begins
      the text when the match is empty and stands before it. */
  function MatchLength(re: Regex, text: string): (k: nat)
    requires Matches(re, text)
    ensures k <= |text|
  {
    if re(text) == Some(0) && text[0] == '\n' then 1 else re(text).value
  }

  /** What is outstanding behind the first `n` reads, when none of them has ended the call. */
  function TextAfter(out: string, evs: seq<ReadEvent>, n: nat): string
    requires n <= |evs|
  {
    out + BytesOf(evs[..n])
  }

  // ------------------------------------------------------------------ with a regular expression

  /** The read number `n` must end the call. */
  predicate MustEnd(re: Regex, timed: bool, onFlow: bool, out: string, evs: seq<ReadEvent>, n: nat)
    requires n < |evs|
  {
    match evs[n]
    case Interrupted => false
    case Silence => timed
    case Failed => true
    case Eof(_) => true
    case Chunk(_, elapsed) =>
      var text := TextAfter(out, evs, n + 1);
      Matches(re, text) || (timed && elapsed) || (onFlow && '\n' in text)
  }

  /** The result of a call ended by the read number `n`. */
  ghost predicate EndedBy(re: Regex, timed: bool, onFlow: bool, out: string, evs: seq<ReadEvent>, n: nat, o: Outcome)
    requires n < |evs|
  {
    var text := TextAfter(out, evs, n + 1);
    && o.Done? && o.rest == evs[n + 1..] && o.data + o.kept == text
    && match evs[n]
       case Interrupted => false
       case Silence => o.rc == Timeout && o.data == ""
       case Failed => o.rc == Error && o.data == ""
       case Eof(elapsed) => o.rc == (if timed && elapsed then Timeout else Abort) && o.data == ""
       case Chunk(_, elapsed) =>
         if Matches(re, text) then o.rc == Found && |o.data| == MatchLength(re, text)
         else if onFlow && text != "" then
           o.rc == Data && if timed && elapsed then o.kept == "" else EndsWithNewline(o.data) && '\n' !in o.kept
         else o.rc == Timeout && o.data == ""
  }

  /** `n` is the number of the first read that must end the call, or all of them must not. */
  ghost predicate FirstEnd(re: Regex, timed: bool, onFlow: bool, out: string, evs: seq<ReadEvent>, n: nat) {
    && n <= |evs| && (forall m :: 0 <= m < n ==> !MustEnd(re, timed, onFlow, out, evs, m))
    && (n < |evs| ==> MustEnd(re, timed, onFlow, out, evs, n))
  }

  lemma TextBehindFirst(out: string, evs: seq<ReadEvent>, n: nat)
    requires evs != [] && n < |evs|
    ensures TextAfter(out, evs, n + 1) == TextAfter(out + EventBytes(evs[0]), evs[1..], n)
  {
    assert evs[..n + 1][0] == evs[0] && evs[..n + 1][1..] == evs[1..][..n];
    Assoc(out, EventBytes(evs[0]), BytesOf(evs[1..][..n]));
  }

  /** The call seen from behind its first read. */
  lemma MustEndLater(re: Regex, timed: bool, onFlow: bool, out: string, evs: seq<ReadEvent>, m: nat)
    requires m + 1 < |evs|
    ensures MustEnd(re, timed, onFlow, out, evs, m + 1)
            == MustEnd(re, timed, onFlow, out + EventBytes(evs[0]), evs[1..], m)
  {
    TextBehindFirst(out, evs, m + 1);
  }

  lemma EndedLater(re: Regex, timed: bool, onFlow: bool, out: string, evs: seq<ReadEvent>, n: nat, o: Outcome)
    requires n + 1 < |evs| && EndedBy(re, timed, onFlow, out + EventBytes(evs[0]), evs[1..], n, o)
    ensures EndedBy(re, timed, onFlow, out, evs, n + 1, o)
  {
    TextBehindFirst(out, evs, n + 1);
    assert evs[1..][n + 1..] == evs[n + 2..];
  }

  lemma FirstEndLater(re: Regex, timed: bool, onFlow: bool, out: string, evs: seq<ReadEvent>, n: nat)
    requires FirstEnd(re, timed, onFlow, out, evs, n + 1)
    ensures FirstEnd(re, timed, onFlow, out + EventBytes(evs[0]), evs[1..], n)
  {
    hide MustEnd;
    forall m | 0 <= m < |evs| - 1
      ensures MustEnd(re, timed, onFlow, out, evs, m + 1)
              == MustEnd(re, timed, onFlow, out + EventBytes(evs[0]), evs[1..], m) {
      MustEndLater(re, timed, onFlow, out, evs, m);
    }
    forall m | 0 <= m < n ensures !MustEnd(re, timed, onFlow, out + EventBytes(evs[0]), evs[1..], m) {
      assert !MustEnd(re, timed, onFlow, out, evs, m + 1);
    }
  }

  lemma TextOfFirst(out: string, evs: seq<ReadEvent>)
    requires evs != []
    ensures TextAfter(out, evs, 1) == out + EventBytes(evs[0])
  {
    var first := evs[..1];
    assert first[0] == evs[0] && BytesOf(first[1..]) == "";
    Empty(EventBytes(evs[0]));
  }

  lemma HasLines(text: string)
    ensures LinesLength(text) > 0 <==> '\n' in text
  {
    hide LinesLength;
    var k := LinesLength(text);
    if k > 0 {
      assert text[..k][k - 1] == text[k - 1];
    } else {
      assert text[0..] == text;
    }
  }

  /** A read of data. */
  lemma DataRead(re: Regex, timed: bool, onFlow: bool, elapsed: bool, text: string)
    ensures var v := Examine(re, timed, onFlow, elapsed, text);
            && (v.Deliver? ==> v.data + v.kept == text)
            && if Matches(re, text) then v.Deliver? && v.rc == Found && |v.data| == MatchLength(re, text)
               else if timed && elapsed then
                 v.Deliver? && if onFlow && text != "" then v.rc == Data && v.kept == "" else v.rc == Timeout && v.data == ""
               else if onFlow && '\n' in text then
                 v.Deliver? && v.rc == Data && EndsWithNewline(v.data) && '\n' !in v.kept
               else v == KeepReading
  {
    ExamineConserves(re, timed, onFlow, elapsed, text);
    HasLines(text);
    hide LinesLength;
  }

  /** The first read ends the call or not. */
  lemma FirstRead(re: Regex, timed: bool, onFlow: bool, out: string, evs: seq<ReadEvent>)
    requires evs != []
    ensures var t := ReactionTo(re, timed, onFlow, out, evs[0]);
            if MustEnd(re, timed, onFlow, out, evs, 0) then
              t.Returns? && EndedBy(re, timed, onFlow, out, evs, 0, Done(t.rc, t.data, t.kept, evs[1..]))
            else t == GoesOn(out + EventBytes(evs[0]))
  {
    hide Examine, TextAfter, MatchLength, Matches;
    TextOfFirst(out, evs);
    Empty(out);
    if evs[0].Chunk? {
      DataRead(re, timed, onFlow, evs[0].elapsed, out + evs[0].data);
    }
  }

  lemma {:induction false} ReadsMean(re: Regex, timed: bool, onFlow: bool, out: string, evs: seq<ReadEvent>, n: nat)
    requires FirstEnd(re, timed, onFlow, out, evs, n)
    ensures var o := RecvRegexReads(re, timed, onFlow, out, evs);
            if n < |evs| then EndedBy(re, timed, onFlow, out, evs, n, o) else o == Waiting(out + BytesOf(evs))
    decreases |evs|
  {
    if evs == [] {
      Empty(out);
    } else {
      hide RecvRegexReads, ReactionTo, MustEnd, EndedBy;
      ReadsStep(re, timed, onFlow, out, evs);
      FirstRead(re, timed, onFlow, out, evs);
      if n > 0 {
        var out', rest := out + EventBytes(evs[0]), evs[1..];
        FirstEndLater(re, timed, onFlow, out, evs, n - 1);
        ReadsMean(re, timed, onFlow, out', rest, n - 1);
        if n < |evs| {
          EndedLater(re, timed, onFlow, out, evs, n - 1, RecvRegexReads(re, timed, onFlow, out', rest));
        } else {
          Assoc(out, EventBytes(evs[0]), BytesOf(rest));
        }
      }
    }
  }

  /**
   pdip_recv() with a regular expression, for every pattern, both modes of delivery, with and without timeout:
   FOUND at once when the outstanding data match; otherwise the call ends at the first read that completes a
   match, a line on the flow, the time, or fails; and the result is the one that this read calls for, the data
   being cut at the end of the match and nowhere else. While no read does, it waits and keeps everything.
   */
  lemma RecvMeans(re: Regex, timed: bool, onFlow: bool, out: string, evs: seq<ReadEvent>, n: nat)
    requires FirstEnd(re, timed, onFlow, out, evs, n)
    ensures var o := RecvRegex(re, timed, onFlow, out, evs);
            if Matches(re, out) then
              o.Done? && o.rc == Found && o.rest == evs && o.data + o.kept == out && |o.data| == MatchLength(re, out)
            else if n < |evs| then EndedBy(re, timed, onFlow, out, evs, n, o)
            else o == Waiting(out + BytesOf(evs))
  {
    hide RecvRegexReads, EndedBy, FirstEnd, LookForRegex, Matches, MatchLength;
    ReadsMean(re, timed, onFlow, out, evs, n);
    LookMeans(re, out);
  }

  lemma LookMeans(re: Regex, out: string)
    ensures var l := LookForRegex(re, out);
            && l.Match? == Matches(re, out)
            && (l.Match? ==> l.data + l.kept == out && |l.data| == MatchLength(re, out))
  {
  }

  /** There is always such a number. */
  lemma {:induction false} FirstEndExists(re: Regex, timed: bool, onFlow: bool, out: string, evs: seq<ReadEvent>, from: nat)
    returns (n: nat)
    requires from <= |evs| && forall m :: 0 <= m < from ==> !MustEnd(re, timed, onFlow, out, evs, m)
    ensures FirstEnd(re, timed, onFlow, out, evs, n)
    decreases |evs| - from
  {
    hide MustEnd;
    if from == |evs| || MustEnd(re, timed, onFlow, out, evs, from) {
      n := from;
    } else {
      n := FirstEndExists(re, timed, onFlow, out, evs, from + 1);
    }
  }

  /** One search in outstanding data: what is given and what is kept. */
  predicate Searched(re: Regex, text: string, found: bool, data: string, kept: string) {
    if Matches(re, text) then found && data == text[..MatchLength(re, text)] && kept == text[MatchLength(re, text)..]
    else !found && data == "" && kept == text
  }

  lemma NothingSearched(re: Regex, text: string)
    ensures !Matches(re, text) ==> Searched(re, text, false, "", text)
    ensures text == "" || re(text) == None ==> !Matches(re, text)
  {
  }

  lemma CutSearched(re: Regex, text: string, e: nat, data: string, kept: string)
    requires text != "" && re(text) == Some(e)
    requires var k := if e == 0 && text[0] == '\n' then 1 else e; k <= |text| && data == text[..k] && kept == text[k..]
    ensures Searched(re, text, true, data, kept)
  {
  }

  lemma SearchedIs(re: Regex, text: string, found: bool, data: string, kept: string)
    requires Searched(re, text, found, data, kept)
    ensures LookForRegex(re, text) == if found then Match(data, kept) else NoMatch
    ensures !found ==> data == "" && kept == text
  {
  }

  /** FOUND is never wrong: the data given and kept together match, and are cut at the end of this match. */
  lemma FoundCut(re: Regex, timed: bool, onFlow: bool, out: string, evs: seq<ReadEvent>)
    ensures var o := RecvRegex(re, timed, onFlow, out, evs);
            o.Done? && o.rc == Found ==> Matches(re, o.data + o.kept) && |o.data| == MatchLength(re, o.data + o.kept)
  {
    var n := FirstEndExists(re, timed, onFlow, out, evs, 0);
    RecvMeans(re, timed, onFlow, out, evs, n);
  }

  /** A call that fails, or whose time runs out, gives nothing and keeps everything. */
  lemma FailureGivesNothing(re: Regex, timed: bool, onFlow: bool, out: string, evs: seq<ReadEvent>)
    ensures var o := RecvRegex(re, timed, onFlow, out, evs); o.Done? && o.rc != Found && o.rc != Data ==> o.data == ""
  {
    var n := FirstEndExists(re, timed, onFlow, out, evs, 0);
    RecvMeans(re, timed, onFlow, out, evs, n);
    hide RecvRegex, FirstEnd, Matches, MatchLength;
    if n < |evs| {
      EndGivesNothing(re, timed, onFlow, out, evs, n, RecvRegex(re, timed, onFlow, out, evs));
    }
  }

  lemma EndGivesNothing(re: Regex, timed: bool, onFlow: bool, out: string, evs: seq<ReadEvent>, n: nat, o: Outcome)
    requires n < |evs|
    ensures EndedBy(re, timed, onFlow, out, evs, n, o) ==> o.Done? && (o.rc != Found && o.rc != Data ==> o.data == "")
  {
    hide Matches, MatchLength;
  }

  // ------------------------------------------------------------------ without regular expression

  /** A read that ends the call, when nothing is outstanding. */
  predicate PlainEnd(timed: bool, ev: ReadEvent) {
    ev.Chunk? || ev.Failed? || ev.Eof? || (ev.Silence? && timed)
  }

  /** FOUND is for the calls with a pattern. */
  lemma {:induction false} PlainNotFound(timed: bool, out: string, evs: seq<ReadEvent>)
    ensures var o := RecvPlain(timed, out, evs); o.Done? ==> o.rc != Found
    decreases |evs|
  {
    if out == "" && evs != [] {
      PlainNotFound(timed, "", evs[1..]);
    }
  }

  /** What is outstanding is given at once; otherwise the first read that is not an interruption, nor a silence
      without timeout, ends the call: its data are given, all of them, or it tells the timeout or the error. */
  lemma {:induction false} PlainMeans(timed: bool, out: string, evs: seq<ReadEvent>, n: nat)
    requires ValidEvents(evs)
    requires n <= |evs| && (forall m :: 0 <= m < n ==> !PlainEnd(timed, evs[m])) && (n < |evs| ==> PlainEnd(timed, evs[n]))
    ensures var o := RecvPlain(timed, out, evs);
            if out != "" then o == Done(Data, out, "", evs)
            else if n == |evs| then o == Waiting("")
            else
              && o.Done? && o.kept == "" && o.rest == evs[n + 1..] && o.data == EventBytes(evs[n])
              && o.rc == match evs[n]
                         case Chunk(_, _) => Data
                         case Failed => Error
                         case Eof(_) => if timed then Timeout else Abort
                         case _ => Timeout
    decreases |evs|
  {
    if out == "" && n > 0 {
      var rest := evs[1..];
      assert forall m :: 0 <= m < n - 1 ==> rest[m] == evs[m + 1];
      assert forall m :: 0 <= m < |rest| ==> rest[m] == evs[m + 1] && ValidEvent(evs[m + 1]);
      PlainMeans(timed, "", rest, n - 1);
      assert n < |evs| ==> rest[n..] == evs[n + 1..];
    }
  }
}
