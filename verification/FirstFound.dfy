/**
 What a `recv` waits for: the first line of the output, of those begun so far, in which the string is found
 when its control characters are left out.
 */
module FirstFound {
  import opened Bytes
  import opened StreamSpec
  import opened Synchro

  // ------------------------------------------------------------------ what is searched

  /** A line begins at `a`: it is the first one, or the one before is ended by a newline. */
  predicate BeginsAt(s: string, a: nat) {
    a < |s| && LineStart(s, a)
  }

  /** The string is found in the line that begins at `a`, with its newline if it has one. */
  predicate FoundAt(re: Regex, s: string, a: nat) {
    BeginsAt(s, a) && re(Kept(s[a..][..LineLength(s[a..])])).Some?
  }

  lemma SeenIs(s: string)
    ensures LineOf(s).text == Kept(s[..LineLength(s)])
  {
    ScanKeeps(s, LineLength(s));
  }

  /** A byte that is not printable, a tab nor a newline changes nothing to what is searched. */
  lemma {:induction false} ControlsIgnored(s: string, n: nat, c: char)
    requires n <= |s| && (c as int < 9 || 11 <= c as int < 32 || c as int > 126)
    ensures Kept(s[..n] + [c] + s[n..]) == Kept(s)
    decreases |s| - n
  {
    var t := s[..n] + [c] + s[n..];
    if n == |s| {
      assert t[..|t| - 1] == s;
      Empty(Kept(s));
    } else {
      var s' := s[..|s| - 1];
      assert s'[..n] == s[..n] && t[..|t| - 1] == s'[..n] + [c] + s'[n..] && t[|t| - 1] == s[|s| - 1];
      ControlsIgnored(s', n, c);
    }
  }

  /** The other bytes are all searched. */
  lemma {:induction false} TextSearched(s: string)
    requires forall i :: 0 <= i < |s| ==> s[i] as int == 9 || s[i] as int == 10 || 32 <= s[i] as int <= 126
    ensures Kept(s) == s
  {
    if s != "" {
      TextSearched(s[..|s| - 1]);
      assert s[..|s| - 1] + [s[|s| - 1]] == s;
    }
  }

  // ------------------------------------------------------------------ the first match

  lemma NoNewlineInside(s: string, n: nat, a: nat)
    requires 0 < a < n <= |s| && '\n' !in s[..n - 1]
    ensures s[a - 1] != '\n'
  {
    assert s[a - 1] == s[..n - 1][a - 1];
  }

  lemma CutTwice(s: string, n: nat, a: nat)
    requires n <= a <= |s|
    ensures s[n..][a - n..] == s[a..] && (a > n ==> s[n..][a - n - 1] == s[a - 1])
  {
  }

  /** Behind a complete first line of `n` characters. */
  lemma BeginsBehind(s: string, n: nat, a: nat)
    requires 0 < n <= |s| && s[n - 1] == '\n' && '\n' !in s[..n - 1]
    ensures BeginsAt(s, a) && a > 0 ==> a >= n
    ensures a >= n ==> BeginsAt(s, a) == BeginsAt(s[n..], a - n) && (a < |s| ==> s[n..][a - n..] == s[a..])
  {
    if 0 < a < n {
      NoNewlineInside(s, n, a);
    } else if n <= a < |s| {
      CutTwice(s, n, a);
    }
  }

  /** Without newline the only line begins at 0. */
  lemma OnlyFirst(s: string, a: nat)
    requires '\n' !in s && BeginsAt(s, a)
    ensures a == 0
  {
  }

  /** The first match is at `b`, and consumed; or there is none. */
  ghost predicate FirstAt(re: Regex, s: string, b: nat, r: Result) {
    match r.rc
    case 0 => FoundAt(re, s, b) && (forall a | 0 <= a < b :: !FoundAt(re, s, a)) && ConsumedExactly(re, s, b, r.written)
    case 1 => (forall a: nat :: !FoundAt(re, s, a)) && WholeLines(r.written) && '\n' !in r.rest
    case _ => false
  }

  lemma LinesJoin(a: string, b: string)
    ensures WholeLines(a) && WholeLines(b) ==> WholeLines(a + b)
  {
    if b == "" {
      Empty(a);
    } else {
      assert (a + b)[|a + b| - 1] == b[|b| - 1];
    }
  }

  /** The first line is passed. */
  lemma FirstBehind(re: Regex, s: string, b: nat, r: Result)
    requires s != "" && s[LineLength(s) - 1] == '\n' && !FoundAt(re, s, 0)
    requires FirstAt(re, s[LineLength(s)..], b, r)
    ensures FirstAt(re, s, LineLength(s) + b, r.(written := s[..LineLength(s)] + r.written))
  {
    hide FoundAt, ConsumedExactly, LineLength;
    var n, u := LineLength(s), s[LineLength(s)..];
    forall a: nat | a > 0 ensures FoundAt(re, s, a) == (a >= n && FoundAt(re, u, a - n)) { FoundBehind(re, s, a); }
    LinesJoin(s[..n], r.written);
    if r.rc == 0 {
      assert FoundAt(re, s, n + b);
      FoundLater(re, s, n, b, r.written);
    }
  }

  lemma RightlyStep(re: Regex, s: string)
    ensures s == "" ==> RightlyHandled(re, s) == Result(1, "", s) && Behind(re, s) == 0
    ensures s != "" ==>
            var t := RightTurn(re, s);
            && RightlyHandled(re, s) ==
               (if t.Matched? then Result(0, s[..t.length], s[t.length..])
                else if t.Passed? then
                  RightlyHandled(re, s[t.length..]).(written := s[..t.length] + RightlyHandled(re, s[t.length..]).written)
                else Result(1, "", s))
            && Behind(re, s) == if t.Passed? then t.length + Behind(re, s[t.length..]) else 0
  {
    hide RightTurn;
  }

  lemma {:induction false} RightlyFirst(re: Regex, s: string)
    ensures FirstAt(re, s, Behind(re, s), RightlyHandled(re, s))
    decreases |s|
  {
    hide *;
    RightlyStep(re, s);
    if s == "" {
      NothingFound(re);
      NoneAtAll(re, s);
    } else {
      FirstLineFound(re, s);
      var t := RightTurn(re, s);
      if t.Passed? {
        RightlyFirst(re, s[t.length..]);
        FirstBehind(re, s, Behind(re, s[t.length..]), RightlyHandled(re, s[t.length..]));
      } else if t.Matched? {
        FoundFirst(re, s);
      } else {
        NoneAtAll(re, s);
      }
    }
  }

  lemma NothingFound(re: Regex)
    ensures !FoundAt(re, "", 0)
  {
  }

  lemma FoundFirst(re: Regex, s: string)
    requires s != "" && RightTurn(re, s).Matched? && FoundAt(re, s, 0)
    ensures var n := RightTurn(re, s).length; FirstAt(re, s, 0, Result(0, s[..n], s[n..]))
  {
    FoundHere(re, s);
    hide RightTurn, FoundAt, ConsumedExactly;
  }

  lemma NoneAtAll(re: Regex, s: string)
    requires '\n' !in s && !FoundAt(re, s, 0)
    ensures FirstAt(re, s, 0, Result(1, "", s))
  {
    hide FoundAt;
    forall a: nat ensures !FoundAt(re, s, a) { NoneInTail(re, s, a); }
  }

  lemma FirstLineFound(re: Regex, s: string)
    requires s != ""
    ensures var t := RightTurn(re, s);
            && (FoundAt(re, s, 0) <==> t.Matched?)
            && (t.Passed? ==> t.length == LineLength(s) && s[t.length - 1] == '\n')
            && (t.Pending? ==> '\n' !in s)
  {
    SeenIs(s);
    NewlineCompletes(s);
    hide LineLength, Kept, Scan;
    assert s[0..] == s;
    if LineOf(s).complete {
      NewlineLast(s, LineLength(s));
    }
  }

  lemma FoundBehind(re: Regex, s: string, a: nat)
    requires s != "" && s[LineLength(s) - 1] == '\n' && a > 0
    ensures var n := LineLength(s); FoundAt(re, s, a) == (a >= n && FoundAt(re, s[n..], a - n))
  {
    hide LineLength, Kept;
    BeginsBehind(s, LineLength(s), a);
  }

  lemma NoneInTail(re: Regex, s: string, a: nat)
    requires '\n' !in s && !FoundAt(re, s, 0)
    ensures !FoundAt(re, s, a)
  {
    if BeginsAt(s, a) {
      OnlyFirst(s, a);
    }
  }

  /**
   The buffer of a `recv`, with at most 127 characters skipped in each line: the string is found exactly when
   it is in one of the lines begun so far, and in the first of them; what is written goes through the last
   character of this match. Otherwise all the complete lines are written.
   */
  lemma FirstMatch(re: Regex, s: string)
    requires Tame(s)
    ensures FirstAt(re, s, Behind(re, s), Handled(re, s))
  {
    TameHandled(re, s);
    RightlyFirst(re, s);
  }
}
