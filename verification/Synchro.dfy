/**
 pdip_handle_synchro(): the output of the program is searched line by line for the synchronization
 string, control characters being left out of the search; what is written out is raw. The offsets in the
 filtered line are mapped back by `line_skip`, whose entries are signed chars.
 */
module Synchro {
  import opened Bytes
  import opened StreamSpec

  // ------------------------------------------------------------------ the filtered line

  /** isprint() or isblank() */
  predicate IsShown(c: char) {
    c == '\t' || ' ' <= c <= '~'
  }

  predicate IsKept(c: char) {
    c == '\n' || IsShown(c)
  }

  /** A line without its control characters: how many of them come before each character, how many in all,
      and whether the line is ended by a newline. */
  datatype Line = Line(text: string, skips: seq<nat>, skipped: nat, complete: bool)

  function Add(l: Line, c: char): Line {
    if c == '\n' then Line(l.text + [c], l.skips + [l.skipped], l.skipped, true)
    else if IsShown(c) then Line(l.text + [c], l.skips + [l.skipped], l.skipped, l.complete)
    else l.(skipped := l.skipped + 1)
  }

  lemma AddCounts(l: Line, c: char)
    ensures |Add(l, c).text| == |l.text| + (if IsKept(c) then 1 else 0)
    ensures Add(l, c).skipped == l.skipped + (if IsKept(c) then 0 else 1)
    ensures Add(l, c).complete == (l.complete || c == '\n')
  {
  }

  /** Length of the first line, with its newline if any. */
  function LineLength(s: string): (n: nat)
    ensures n <= |s| && (s != "" ==> n > 0)
    ensures '\n' !in s[..if n == 0 then 0 else n - 1] && (n < |s| ==> s[n - 1] == '\n')
    ensures '\n' in s ==> n > 0 && s[n - 1] == '\n'
  {
    if s == "" then 0 else if s[0] == '\n' then 1
    else
      var n := 1 + LineLength(s[1..]);
      assert n > 1 ==> s[..n - 1] == [s[0]] + s[1..][..n - 2];
      n
  }

  /** The line after its first `n` characters. */
  function Scan(s: string, n: nat): (l: Line)
    requires n <= |s|
    ensures |l.text| == |l.skips| && |l.text| + l.skipped == n
  {
    if n == 0 then Line("", [], 0, false) else Add(Scan(s, n - 1), s[n - 1])
  }

  lemma NextScan(s: string, n: nat)
    requires n < |s|
    ensures Scan(s, n + 1) == Add(Scan(s, n), s[n])
  {
  }

  function LineOf(s: string): Line {
    Scan(s, LineLength(s))
  }

  // ------------------------------------------------------------------ the specification

  /** Conversion to a signed char. */
  function SignedChar(n: nat): int {
    (n + 128) % 256 - 128
  }

  /** Raw length up to the first `k` characters of the line, as the code computes it, and as it is. */
  function Computed(l: Line, k: nat): int
    requires k <= |l.text| == |l.skips|
  {
    if k == 0 then 0 else k + SignedChar(l.skips[k - 1])
  }

  function RawLength(l: Line, k: nat): nat
    requires k <= |l.text| == |l.skips|
  {
    if k == 0 then 0 else k + l.skips[k - 1]
  }

  /**
   What is done of the first line: the string is found, and `length` raw characters are consumed; or the
   complete line is; or more characters are needed. Lost: the length computed for a match is negative, or the
   one of a line is not positive, so that the loop goes out of its buffer or never ends.
   */
  datatype Turn = Matched(length: nat) | Passed(length: nat) | Pending | Lost

  function TurnOf(re: Regex, s: string): (t: Turn)
    requires s != ""
    ensures t.Matched? || t.Passed? ==> t.length <= |s|
    ensures t.Passed? ==> t.length > 0
  {
    var l := LineOf(s);
    match re(l.text)
    case Some(eo) =>
      ComputedBound(s, eo);
      if Computed(l, eo) < 0 then Lost else Matched(Computed(l, eo))
    case None =>
      if !l.complete then Pending
      else
        ComputedBound(s, |l.text|);
        if Computed(l, |l.text|) <= 0 then Lost else Passed(Computed(l, |l.text|))
  }

  datatype Result = Result(rc: int, written: string, rest: string)

  /** 0: found, 1: not found; 2 stands for Lost. */
  function Handled(re: Regex, s: string): Result
    decreases |s|
  {
    if s == "" then Result(1, "", "")
    else
      match TurnOf(re, s)
      case Matched(n) => Result(0, s[..n], s[n..])
      case Pending => Result(1, "", s)
      case Lost => Result(2, "", s)
      case Passed(n) =>
        var r := Handled(re, s[n..]);
        r.(written := s[..n] + r.written)
  }

  ghost predicate Growing(l: Line) {
    && (forall k :: 0 <= k < |l.skips| ==> l.skips[k] <= l.skipped)
    && (forall j, k :: 0 <= j <= k < |l.skips| ==> l.skips[j] <= l.skips[k])
  }

  lemma AddGrows(l: Line, c: char)
    requires Growing(l)
    ensures Growing(Add(l, c))
  {
  }

  lemma {:induction false} SkipsGrow(s: string, n: nat)
    requires n <= |s|
    ensures Growing(Scan(s, n))
  {
    if n > 0 {
      SkipsGrow(s, n - 1);
      AddGrows(Scan(s, n - 1), s[n - 1]);
    }
  }

  lemma ComputedBound(s: string, k: nat)
    requires k <= |LineOf(s).text|
    ensures Computed(LineOf(s), k) <= RawLength(LineOf(s), k) <= LineLength(s)
  {
    SkipsGrow(s, LineLength(s));
    assert k > 0 ==> LineOf(s).skips[k - 1] <= LineOf(s).skipped;
  }

  // ------------------------------------------------------------------ the code

  /** The first `n` characters are in the first line; it ends there when it is complete. */
  ghost predicate Open(s: string, n: nat, complete: bool)
    requires n <= |s|
  {
    if complete then n > 0 && s[n - 1] == '\n' && '\n' !in s[..n - 1] else '\n' !in s[..n]
  }

  lemma OpenNext(s: string, n: nat)
    requires n < |s| && Open(s, n, false)
    ensures Open(s, n + 1, s[n] == '\n')
  {
    assert s[..n + 1] == s[..n] + [s[n]];
  }

  class Synchroniser {
    var line: array<char>
    var lineSkip: array<int>
    var output: string

    constructor ()
      ensures Valid() && output == "" && fresh(line) && fresh(lineSkip)
    {
      line, lineSkip, output := new char[0], new int[0], "";
    }

    predicate Valid()
      reads this
    {
      line.Length == lineSkip.Length
    }

    /** The working buffers get one slot more than the data. */
    method Enlarge(size: nat)
      requires Valid()
      modifies this`line, this`lineSkip
      ensures Valid() && line.Length > size
      ensures (line == old(line) && lineSkip == old(lineSkip)) || (fresh(line) && fresh(lineSkip))
    {
      if size >= line.Length {
        var n := line.Length + (size - line.Length) + 1;
        line := new char[n];
        lineSkip := new int[n];
      }
    }

    /** The working buffers hold the line. */
    ghost predicate Holds(l: Line)
      requires Valid()
      reads this, line, lineSkip
    {
      && |l.text| == |l.skips| <= line.Length && line[..|l.text|] == l.text
      && forall k :: 0 <= k < |l.text| ==> lineSkip[k] == SignedChar(l.skips[k])
    }

    /** A character joins the line, with the count of those skipped before it. */
    method Put(i: nat, c: char, skipped: nat, ghost l: Line)
      requires Valid() && Holds(l) && i == |l.text| && skipped == l.skipped && i < line.Length && IsKept(c)
      modifies line, lineSkip
      ensures Holds(Add(l, c)) && |Add(l, c).text| == i + 1
    {
      line[i] := c;
      lineSkip[i] := SignedChar(skipped);
      assert line[..i + 1] == l.text + [c];
    }

    /** The first line of the buffer without its control characters. */
    method ReadLine(buffer: array<char>, lbuf: nat) returns (i: nat, skipped: nat, complete: bool)
      requires Valid() && 0 < lbuf <= buffer.Length && lbuf < line.Length && buffer != line
      modifies line, lineSkip
      ensures buffer[..lbuf] == old(buffer[..lbuf])
      ensures i < line.Length && line[i] == NUL && Holds(LineOf(buffer[..lbuf]))
      ensures LineOf(buffer[..lbuf]) == Line(line[..i], LineOf(buffer[..lbuf]).skips, skipped, complete)
    {
      ghost var s := buffer[..lbuf];
      var eol := 0;
      i, skipped, complete := 0, 0, false;
      while eol < lbuf && !complete
        invariant eol <= lbuf && i <= eol && buffer[..lbuf] == s
        invariant var l := Scan(s, eol); Holds(l) && |l.text| == i && l.skipped == skipped && l.complete == complete
        invariant Open(s, eol, complete)
        decreases lbuf - eol, !complete
      {
        hide Holds, Scan, Open, Add;
        OpenNext(s, eol);
        AddCounts(Scan(s, eol), s[eol]);
        assert i < line.Length - 1;
        ghost var l, c := Scan(s, eol), s[eol];
        assert s[..eol + 1] == s[..eol] + [c];
        NextScan(s, eol);
        if buffer[eol] == '\n' {
          Put(i, '\n', skipped, l);
          i := i + 1;
          complete := true;
        } else if IsShown(buffer[eol]) {
          Put(i, buffer[eol], skipped, l);
          i := i + 1;
        } else {
          SkipHolds(l, c);
          skipped := skipped + 1;
        }
        eol := eol + 1;
      }
      LineEnds(s, eol);
      line[i] := NUL;
      assert line[..i] == LineOf(s).text;
    }

    lemma SkipHolds(l: Line, c: char)
      requires Valid() && Holds(l) && !IsKept(c)
      ensures Holds(Add(l, c))
    {
    }

    /** memmove(buffer, buffer + from, n) */
    method Shift(buffer: array<char>, from: nat, n: nat)
      requires from + n <= buffer.Length
      modifies buffer
      ensures buffer[..n] == old(buffer[from..from + n])
    {
      var i := 0;
      while i < n
        invariant i <= n && buffer[..i] == old(buffer[from..from + i])
        invariant forall j :: from + i <= j < buffer.Length ==> buffer[j] == old(buffer[j])
      {
        buffer[i] := buffer[from + i];
        i := i + 1;
      }
    }

    /** Writes the first `n` characters and moves the others to the head of the buffer. */
    method Consume(buffer: array<char>, lbuf: nat, n: nat) returns (lbuf': nat)
      requires n <= lbuf <= buffer.Length
      modifies this`output, buffer
      ensures lbuf' == lbuf - n && buffer[..lbuf'] == old(buffer[..lbuf])[n..]
      ensures output == old(output) + old(buffer[..lbuf])[..n]
    {
      output := output + buffer[..n];
      assert buffer[..lbuf][..n] == buffer[..n];
      lbuf' := lbuf - n;
      Shift(buffer, n, lbuf');
    }

    /** The search in the filtered line, and the raw length to consume. */
    method Search(re: Regex, i: nat, skipped: nat, complete: bool, ghost s: string) returns (turn: Turn)
      requires Valid() && s != "" && i < line.Length && Holds(LineOf(s))
      requires LineOf(s) == Line(line[..i], LineOf(s).skips, skipped, complete)
      ensures turn == TurnOf(re, s)
    {
      hide LineOf;
      match re(line[..i]) {
        case Some(eo) =>
          if eo > 0 {
            var l := eo + lineSkip[eo - 1];
            turn := if l < 0 then Lost else Matched(l);
          } else {
            turn := Matched(0);
          }
        case None =>
          var l := if i > 0 then i + lineSkip[i - 1] else skipped;
          CompleteNotEmpty(s);
          turn := if !complete then Pending else if l <= 0 then Lost else Passed(l);
      }
    }

    /** The first line: searched, then consumed or kept. */
    method OneLine(re: Regex, buffer: array<char>, lbuf: nat) returns (turn: Turn, lbuf': nat)
      requires Valid() && 0 < lbuf <= buffer.Length && lbuf < line.Length && buffer != line
      modifies this`output, line, lineSkip, buffer
      ensures turn == TurnOf(re, old(buffer[..lbuf])) && line == old(line) && lineSkip == old(lineSkip)
      ensures var n := if turn.Matched? || turn.Passed? then turn.length else 0;
              && n <= lbuf && lbuf' == lbuf - n && buffer[..lbuf'] == old(buffer[..lbuf])[n..]
              && output == old(output) + old(buffer[..lbuf])[..n]
    {
      ghost var s := buffer[..lbuf];
      var i, skipped, complete := ReadLine(buffer, lbuf);
      turn := Search(re, i, skipped, complete, s);
      assert buffer[..lbuf] == s && s[..0] == "" && s[0..] == s;
      Empty(output);
      lbuf' := lbuf;
      if turn.Matched? || turn.Passed? {
        lbuf' := Consume(buffer, lbuf, turn.length);
      }
    }

    /** pdip_handle_synchro() */
    method Handle(re: Regex, buffer: array<char>, lbuf: nat) returns (rc: int, lbuf': nat)
      requires Valid() && lbuf <= buffer.Length && buffer != line
      modifies this, line, lineSkip, buffer
      ensures var r := Handled(re, old(buffer[..lbuf]));
              && rc == r.rc && output == old(output) + r.written
              && lbuf' <= lbuf && buffer[..lbuf'] == r.rest
      ensures Valid() && ((line == old(line) && lineSkip == old(lineSkip)) || (fresh(line) && fresh(lineSkip)))
    {
      Enlarge(lbuf);
      lbuf' := lbuf;
      ghost var s, done := buffer[..lbuf], "";
      Empty(output);
      while lbuf' > 0
        invariant Valid() && lbuf' <= lbuf < line.Length && buffer != line
        invariant (line == old(line) && lineSkip == old(lineSkip)) || (fresh(line) && fresh(lineSkip))
        invariant output == old(output) + done
        invariant var r := Handled(re, buffer[..lbuf']); Handled(re, s) == r.(written := done + r.written)
      {
        ghost var now := buffer[..lbuf'];
        var turn;
        turn, lbuf' := OneLine(re, buffer, lbuf');
        ghost var n := if turn.Matched? || turn.Passed? then turn.length else 0;
        Assoc(old(output), done, now[..n]);
        Assoc(done, now[..n], Handled(re, now[n..]).written);
        Empty(done);
        Empty(now);
        done := done + now[..n];
        match turn {
          case Matched(_) => return 0, lbuf';
          case Pending => return 1, lbuf';
          case Lost => return 2, lbuf';
          case Passed(_) =>
        }
      }
      Empty(done);
      rc := 1;
    }
  }

  lemma LineEnds(s: string, n: nat)
    requires n <= |s| && (n == |s| || (n > 0 && s[n - 1] == '\n'))
    requires '\n' !in s[..if n == 0 then 0 else n - 1]
    ensures n == LineLength(s)
  {
  }

  /** A complete line holds its newline. */
  lemma {:induction false} CompleteScan(s: string, n: nat)
    requires n <= |s|
    ensures Scan(s, n).complete ==> Scan(s, n).text != ""
  {
    if n > 0 {
      CompleteScan(s, n - 1);
    }
  }

  lemma CompleteNotEmpty(s: string)
    ensures LineOf(s).complete ==> LineOf(s).text != ""
  {
    CompleteScan(s, LineLength(s));
  }

  // ------------------------------------------------------------------ what is kept for any input

  /** Nothing is lost nor duplicated: what is written, then what stays in the buffer, is the buffer. */
  lemma {:induction false} HandledConserves(re: Regex, s: string)
    ensures var r := Handled(re, s); r.written + r.rest == s
    decreases |s|
  {
    hide TurnOf;
    Empty(s);
    if s != "" {
      var t := TurnOf(re, s);
      if t.Passed? {
        var u := s[t.length..];
        HandledConserves(re, u);
        Assoc(s[..t.length], Handled(re, u).written, Handled(re, u).rest);
        Cut(s, t.length);
      } else if t.Matched? {
        Cut(s, t.length);
      }
    }
  }

  lemma Cut(s: string, n: nat)
    requires n <= |s|
    ensures s[..n] + s[n..] == s
  {
  }

  /** When the string is not found, no complete line stays in the buffer. */
  lemma {:induction false} NotFoundKeepsNoLine(re: Regex, s: string)
    ensures var r := Handled(re, s); r.rc == 1 ==> '\n' !in r.rest
    decreases |s|
  {
    if s != "" {
      var t := TurnOf(re, s);
      if t.Passed? {
        NotFoundKeepsNoLine(re, s[t.length..]);
      } else if t.Pending? {
        NewlineCompletes(s);
      }
    }
  }

  lemma {:induction false} CompleteStays(s: string, n: nat, m: nat)
    requires n <= m <= |s| && n > 0 && s[n - 1] == '\n'
    ensures Scan(s, m).complete
  {
    if n < m {
      CompleteStays(s, n, m - 1);
    }
  }

  lemma NewlineCompletes(s: string)
    ensures '\n' in s ==> LineOf(s).complete
  {
  }

  // ------------------------------------------------------------------ the map of the offsets

  function Kept(s: string): string {
    if s == "" then "" else Kept(s[..|s| - 1]) + if IsKept(s[|s| - 1]) then [s[|s| - 1]] else ""
  }

  lemma {:induction false} ScanKeeps(s: string, n: nat)
    requires n <= |s|
    ensures Scan(s, n).text == Kept(s[..n])
  {
    if n > 0 {
      ScanKeeps(s, n - 1);
      assert s[..n][..n - 1] == s[..n - 1];
      Empty(Kept(s[..n - 1]));
    }
  }

  /** The filtered character `k` is the raw one at `k` plus the characters skipped before it, and these are
      all the others before it. */
  ghost predicate Mapped(l: Line, s: string, n: nat, k: nat) {
    && k < |l.text| == |l.skips| && k + l.skips[k] < n <= |s|
    && var r := k + l.skips[k];
       && s[r] == l.text[k] && IsKept(s[r])
       && Kept(s[..r]) == l.text[..k] && Kept(s[..r + 1]) == l.text[..k + 1]
  }

  lemma MappedStays(l: Line, s: string, n: nat, k: nat)
    requires n < |s| && Mapped(l, s, n, k)
    ensures Mapped(Add(l, s[n]), s, n + 1, k)
  {
  }

  lemma MappedLast(s: string, n: nat)
    requires n < |s| && IsKept(s[n])
    ensures Mapped(Scan(s, n + 1), s, n + 1, |Scan(s, n).text|)
  {
    ScanKeeps(s, n);
    ScanKeeps(s, n + 1);
    hide Kept;
    var l, l' := Scan(s, n), Scan(s, n + 1);
    NextScan(s, n);
    assert l'.text[..|l.text|] == l.text && l'.text[..|l.text| + 1] == l'.text;
  }

  lemma {:induction false} OffsetMap(s: string, n: nat, k: nat)
    requires n <= |s| && k < |Scan(s, n).text|
    ensures Mapped(Scan(s, n), s, n, k)
  {
    hide Scan, Mapped, Add, Kept, IsKept;
    assert n > 0;
    NextScan(s, n - 1);
    AddCounts(Scan(s, n - 1), s[n - 1]);
    if k < |Scan(s, n - 1).text| {
      OffsetMap(s, n - 1, k);
      MappedStays(Scan(s, n - 1), s, n - 1, k);
    } else {
      MappedLast(s, n - 1);
    }
  }

  /** The raw length of the first `k` characters of the line ends right behind the last of them. */
  lemma RawLengthExact(s: string, k: nat)
    requires 0 < k <= |LineOf(s).text|
    ensures var l := LineOf(s);
            var r := RawLength(l, k);
            0 < r <= |s| && Kept(s[..r]) == l.text[..k] && s[r - 1] == l.text[k - 1]
  {
    OffsetMap(s, LineLength(s), k - 1);
  }

  /** At most 127 characters are skipped before the last one that is kept. */
  predicate Gentle(l: Line)
    requires |l.text| == |l.skips|
  {
    l.text == "" || l.skips[|l.text| - 1] <= 127
  }

  /** The code computes the offsets right exactly when the counts fit a signed char. */
  lemma OffsetsExact(s: string)
    ensures Gentle(LineOf(s)) <==> forall k :: 0 <= k <= |LineOf(s).text| ==> Computed(LineOf(s), k) == RawLength(LineOf(s), k)
  {
    var l := LineOf(s);
    SkipsGrow(s, LineLength(s));
    if Gentle(l) {
      forall k | 0 <= k <= |l.text| ensures Computed(l, k) == RawLength(l, k) {
        assert k > 0 ==> l.skips[k - 1] <= l.skips[|l.text| - 1];
      }
    } else {
      assert Computed(l, |l.text|) != RawLength(l, |l.text|);
    }
  }

  // ------------------------------------------------------------------ with right offsets

  function RightTurn(re: Regex, s: string): (t: Turn)
    requires s != ""
    ensures t != Lost && (t.Matched? || t.Passed? ==> t.length <= |s|) && (t.Passed? ==> t.length > 0)
  {
    var l := LineOf(s);
    match re(l.text)
    case Some(eo) => ComputedBound(s, eo); Matched(RawLength(l, eo))
    case None => if l.complete then Passed(LineLength(s)) else Pending
  }

  /** The search that consumes whole raw lines, then the raw characters up to the end of the match. */
  function RightlyHandled(re: Regex, s: string): Result
    decreases |s|
  {
    if s == "" then Result(1, "", "")
    else
      match RightTurn(re, s)
      case Matched(n) => Result(0, s[..n], s[n..])
      case Passed(n) =>
        var r := RightlyHandled(re, s[n..]);
        r.(written := s[..n] + r.written)
      case _ => Result(1, "", s)
  }

  /** A complete line ends with its newline, which is kept. */
  lemma WholeLine(s: string)
    requires LineOf(s).complete
    ensures LineOf(s).text != "" && RawLength(LineOf(s), |LineOf(s).text|) == LineLength(s)
  {
    var n := LineLength(s);
    CompleteNotEmpty(s);
    NewlineLast(s, n);
    assert Scan(s, n) == Add(Scan(s, n - 1), s[n - 1]);
  }

  lemma {:induction false} NewlineLast(s: string, n: nat)
    requires 0 < n <= |s| && '\n' !in s[..n - 1] && Scan(s, n).complete
    ensures s[n - 1] == '\n'
  {
    assert Scan(s, n) == Add(Scan(s, n - 1), s[n - 1]);
    if s[n - 1] != '\n' {
      assert Scan(s, n - 1).complete;
      NotComplete(s, n - 1);
    }
  }

  lemma {:induction false} NotComplete(s: string, n: nat)
    requires n <= |s| && '\n' !in s[..n]
    ensures !Scan(s, n).complete
  {
    if n > 0 {
      assert s[n - 1] == s[..n][n - 1];
      assert forall c :: c in s[..n - 1] ==> c in s[..n] by {
        assert s[..n] == s[..n - 1] + [s[n - 1]];
      }
      NotComplete(s, n - 1);
    }
  }

  /** One turn is right for every pattern exactly when at most 127 characters are skipped. */
  lemma TurnExact(s: string)
    requires s != ""
    ensures Gentle(LineOf(s)) <==> forall re: Regex :: TurnOf(re, s) == RightTurn(re, s)
  {
    var l := LineOf(s);
    OffsetsExact(s);
    if Gentle(l) {
      forall re: Regex ensures TurnOf(re, s) == RightTurn(re, s) {
        GentleTurn(re, s);
      }
    } else {
      var re: Regex := (t: string) => if t == l.text then Some(|t|) else None;
      SkipsGrow(s, LineLength(s));
      assert TurnOf(re, s) != RightTurn(re, s);
    }
  }

  lemma GentleTurn(re: Regex, s: string)
    requires s != "" && Gentle(LineOf(s))
    ensures TurnOf(re, s) == RightTurn(re, s)
  {
    OffsetsExact(s);
    if LineOf(s).complete {
      WholeLine(s);
    }
  }

  /** In every line of the buffer. */
  predicate Tame(s: string)
    decreases |s|
  {
    s == "" || (Gentle(LineOf(s)) && Tame(s[LineLength(s)..]))
  }

  /** With at most 127 characters skipped in a line the code never loses its way and does what is right. */
  lemma {:induction false} TameHandled(re: Regex, s: string)
    requires Tame(s)
    ensures Handled(re, s) == RightlyHandled(re, s)
    decreases |s|
  {
    if s != "" {
      GentleTurn(re, s);
      var t := RightTurn(re, s);
      if t.Passed? {
        TameHandled(re, s[t.length..]);
      }
    }
  }

  /** Length of the lines passed before the one where the string is found. */
  function Behind(re: Regex, s: string): (b: nat)
    ensures b <= |s|
    decreases |s|
  {
    if s == "" then 0
    else
      var t := RightTurn(re, s);
      if t.Passed? then t.length + Behind(re, s[t.length..]) else 0
  }

  /** The `a` first characters are complete lines; in the line behind them the pattern matches, and what is
      written goes on exactly through the raw position of the last character of the match. */
  ghost predicate ConsumedExactly(re: Regex, s: string, a: nat, written: string) {
    && a <= |written| <= |s| && written == s[..|written|] && WholeLines(s[..a])
    && var text := LineOf(s[a..]).text;
       && re(text).Some? && Kept(written[a..]) == text[..re(text).value]
       && (|written| > a ==> IsKept(written[|written| - 1]))
  }

  lemma FoundHere(re: Regex, s: string)
    requires s != "" && RightTurn(re, s).Matched?
    ensures ConsumedExactly(re, s, 0, s[..RightTurn(re, s).length])
  {
    var eo := re(LineOf(s).text).value;
    assert s[0..] == s;
    var w := s[..RawLength(LineOf(s), eo)];
    assert w[0..] == w;
    if eo > 0 {
      RawLengthExact(s, eo);
      OffsetMap(s, LineLength(s), eo - 1);
    }
  }

  lemma FoundLater(re: Regex, s: string, n: nat, b: nat, written: string)
    requires n <= |s| && WholeLines(s[..n]) && ConsumedExactly(re, s[n..], b, written)
    ensures ConsumedExactly(re, s, n + b, s[..n] + written)
  {
    hide Kept, LineOf;
    var u, w := s[n..], s[..n] + written;
    assert s[n + b..] == u[b..] && w[n + b..] == written[b..];
    assert w == s[..|w|] && s[..n + b] == s[..n] + u[..b];
    assert b > 0 ==> s[n + b - 1] == u[..b][b - 1];
    assert n > 0 && b == 0 ==> s[..n + b] == s[..n];
  }

  lemma PassedIsLine(re: Regex, s: string)
    requires s != "" && RightTurn(re, s).Passed?
    ensures WholeLines(s[..RightTurn(re, s).length])
  {
    WholeLine(s);
    NewlineLast(s, LineLength(s));
  }

  lemma {:induction false} RightlyFound(re: Regex, s: string)
    requires RightlyHandled(re, s).rc == 0
    ensures ConsumedExactly(re, s, Behind(re, s), RightlyHandled(re, s).written)
    decreases |s|
  {
    hide ConsumedExactly, RightTurn;
    var t := RightTurn(re, s);
    if t.Passed? {
      var u := s[t.length..];
      PassedIsLine(re, s);
      RightlyFound(re, u);
      FoundLater(re, s, t.length, Behind(re, u), RightlyHandled(re, u).written);
    } else {
      FoundHere(re, s);
    }
  }

  /** A string found is consumed exactly through the raw position of its last character, behind complete
      lines where it is not. */
  lemma FoundExactly(re: Regex, s: string)
    requires Tame(s)
    ensures Handled(re, s).rc == 0 ==> ConsumedExactly(re, s, Behind(re, s), Handled(re, s).written)
  {
    TameHandled(re, s);
    if RightlyHandled(re, s).rc == 0 {
      RightlyFound(re, s);
    }
  }

  /** A signed char gives back minus `k` for counts that end a whole number of times 256 with it. */
  lemma SignedCancels(q: nat, k: nat)
    requires k > 0
    ensures k + SignedChar(q) == 0 <==> (k + q) % 256 == 0 && k <= 128
  {
  }

  /**
   The loop is endless: a complete line in which the string is not found leaves exactly the same buffer, if and
   only if its raw length is a multiple of 256 and at most 128 of its characters are kept by the filter.
   */
  lemma EndlessExact(re: Regex, s: string)
    requires s != "" && LineOf(s).complete && re(LineOf(s).text) == None
    ensures var l := LineOf(s);
            var n := Computed(l, |l.text|);
            && n <= |s|
            && (0 <= n && s[n..] == s <==> LineLength(s) % 256 == 0 && |l.text| <= 128)
            && (n == 0 ==> TurnOf(re, s) == Lost)
  {
    var l := LineOf(s);
    WholeLine(s);
    ComputedBound(s, |l.text|);
    SignedCancels(l.skips[|l.text| - 1], |l.text|);
    hide LineOf, LineLength, SignedChar;
    var n := Computed(l, |l.text|);
    if 0 < n {
      assert |s[n..]| < |s|;
    } else if n == 0 {
      assert s[n..] == s;
    }
  }

  /** 255 control characters before a newline: the length computed is 0 and the loop would never end. */
  lemma EndlessLine(s: string)
    requires |s| == 256 && s[255] == '\n' && forall i :: 0 <= i < 255 ==> s[i] == 1 as char
    ensures var re: Regex := (t: string) => None;
            LineOf(s).text == "\n" && Computed(LineOf(s), 1) == 0 && TurnOf(re, s) == Lost
  {
    ControlsOnly(s, 255);
    assert '\n' !in s[..255];
    LineEnds(s, 256);
  }

  lemma {:induction false} ControlsOnly(s: string, n: nat)
    requires n <= |s| && forall i :: 0 <= i < n ==> s[i] == 1 as char
    ensures Scan(s, n) == Line("", [], n, false)
  {
    if n > 0 {
      ControlsOnly(s, n - 1);
    }
  }
}
