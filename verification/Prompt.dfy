/**
 Framing by a shell prompt: the meaning of the pattern ^PROMPT$ compiled with
 REG_EXTENDED|REG_NEWLINE (IEEE Std 1003.1-2017, XBD section 9.4.9 and regcomp() in XSH), and what
 reception on the flow makes of the answer `out + PROMPT` of a shell, however it is chopped.
 */
module Prompt {
  import opened Bytes
  import opened StreamSpec

  /** What the daemon and isys rely on: a prompt is one non-empty piece of line that is not a number. */
  predicate IsPrompt(p: string) {
    p != "" && '\n' !in p && NoNul(p) && !('0' <= p[0] <= '9')
  }

  /** `^p$` matches at `i`: from a line start to a line end. */
  predicate MatchAt(p: string, s: string, i: nat)
    requires i <= |s|
  {
    && LineStart(s, i) && p <= s[i..]
    && (i + |p| == |s| || s[i + |p|] == '\n')
  }

  /** End of the leftmost match at or after `from`. */
  function FindPrompt(p: string, s: string, from: nat): (r: Option<nat>)
    requires from <= |s|
    ensures r.Some? ==> from + |p| <= r.value <= |s| && MatchAt(p, s, r.value - |p|)
    ensures forall i :: from <= i <= |s| && (r.Some? ==> i < r.value - |p|) ==> !MatchAt(p, s, i)
    decreases |s| - from
  {
    if MatchAt(p, s, from) then Some(from + |p|)
    else if from == |s| then None
    else FindPrompt(p, s, from + 1)
  }

  function PromptRegex(p: string): Regex {
    (s: string) => FindPrompt(p, s, 0)
  }

  /** The output of a command that can be framed: complete lines, none of which starts like the prompt. */
  ghost predicate Framed(p: string, out: string) {
    WholeLines(out) && forall i :: 0 <= i <= |out| && LineStart(out, i) ==> !(p <= out[i..])
  }

  // ------------------------------------------------------------ where the prompt can be seen

  lemma PrefixAt(p: string, s: string, j: nat, k: nat)
    requires j <= |s| && k < |p|
    ensures p <= s[j..] ==> j + k < |s| && s[j + k] == p[k]
  {
  }

  /** No line of the output looks like the prompt, even when the prompt follows it. */
  lemma NoPromptInside(p: string, out: string, j: nat)
    requires IsPrompt(p) && Framed(p, out) && j < |out| && LineStart(out, j)
    ensures !(p <= (out + p)[j..])
  {
    var full := out + p;
    if j + |p| <= |out| {
      assert full[j..][..|p|] == out[j..][..|p|];
    } else {
      assert full[|out| - 1] == '\n';
      PrefixAt(p, full, j, |out| - 1 - j);
    }
  }

  /** A block of the answer that starts at a line and does not reach the end of the prompt: no match. */
  lemma NoMatchYet(p: string, out: string, seen: string, later: string)
    requires IsPrompt(p) && Framed(p, out) && seen + later == out + p && later != ""
    ensures FindPrompt(p, seen, 0) == None
  {
    assert seen == (out + p)[..|seen|];
    forall i | 0 <= i <= |seen| ensures !MatchAt(p, seen, i) { NoMatchInPrefix(p, out, |seen|, i); }
  }

  lemma NoMatchInPrefix(p: string, out: string, n: nat, i: nat)
    requires IsPrompt(p) && Framed(p, out) && i <= n < |out + p|
    ensures !MatchAt(p, (out + p)[..n], i)
  {
    var full, seen := out + p, (out + p)[..n];
    if i + |p| <= n && LineStart(seen, i) {
      assert i > 0 ==> seen[i - 1] == full[i - 1] == out[i - 1];
      NoPromptInside(p, out, i);
      assert seen[i..][..|p|] == full[i..][..|p|];
    }
  }

  /** The whole answer: the match is the final prompt. */
  lemma MatchAtEnd(p: string, out: string)
    requires IsPrompt(p) && Framed(p, out)
    ensures FindPrompt(p, out + p, 0) == Some(|out + p|)
  {
    hide FindPrompt, MatchAt;
    EndMatches(p, out);
    forall i | 0 <= i < |out| ensures !MatchAt(p, out + p, i) { NoMatchInside(p, out, i); }
  }

  lemma EndMatches(p: string, out: string)
    requires WholeLines(out)
    ensures MatchAt(p, out + p, |out|)
  {
    var full := out + p;
    assert full[|out|..] == p;
    assert out != "" ==> full[|out| - 1] == out[|out| - 1];
  }

  lemma NoMatchInside(p: string, out: string, i: nat)
    requires IsPrompt(p) && Framed(p, out) && i < |out|
    ensures !MatchAt(p, out + p, i)
  {
    assert i > 0 ==> out[i - 1] == (out + p)[i - 1];
    if LineStart(out, i) {
      NoPromptInside(p, out, i);
    }
  }

  /** What is left of a framed output behind some of its lines is framed. */
  lemma FramedTail(p: string, out: string, k: nat)
    requires Framed(p, out) && k <= |out| && WholeLines(out[..k])
    ensures Framed(p, out[k..])
  {
  }

  /** One line that does not begin like the prompt. */
  lemma OneLineFramed(p: string, line: string)
    requires IsPrompt(p) && line != "" && line[0] != p[0] && '\n' !in line
    ensures Framed(p, line + "\n")
  {
  }

  // ------------------------------------------------------------ what the pattern means

  /** A text by its lines: the last one is not ended by a newline. */
  function Joined(lines: seq<string>): string
    requires lines != []
  {
    if |lines| == 1 then lines[0] else lines[0] + "\n" + Joined(lines[1..])
  }

  /** Where the line number `k` begins. */
  function Offset(lines: seq<string>, k: nat): nat
    requires k <= |lines|
  {
    if k == 0 then 0 else |lines[0]| + 1 + Offset(lines[1..], k - 1)
  }

  /** In the first line the pattern matches this whole line or nothing. */
  lemma MatchInFirst(p: string, line: string, tail: string, i: nat)
    requires IsPrompt(p) && '\n' !in line && i <= |line| && (tail == "" || tail[0] == '\n')
    ensures MatchAt(p, line + tail, i) <==> i == 0 && line == p
  {
    var s := line + tail;
    assert i > 0 ==> s[i - 1] == line[i - 1];
    assert s[..|line|] == line;
  }

  lemma MatchBehind(p: string, line: string, tail: string, i: nat)
    requires i <= |tail|
    ensures MatchAt(p, line + "\n" + tail, |line| + 1 + i) == MatchAt(p, tail, i)
  {
    var s := line + "\n" + tail;
    assert s[|line| + 1 + i..] == tail[i..];
    assert i > 0 ==> s[|line| + i] == tail[i - 1];
  }

  lemma NotFirst(p: string, line: string, tail: string)
    requires IsPrompt(p) && '\n' !in line && line != p
    ensures FindPrompt(p, line + "\n" + tail, 0) ==
            match FindPrompt(p, tail, 0) case None => None case Some(e) => Some(|line| + 1 + e)
  {
    hide MatchAt, FindPrompt;
    var s := line + "\n" + tail;
    assert s == line + ("\n" + tail);
    forall i | 0 <= i <= |line| ensures !MatchAt(p, s, i) { MatchInFirst(p, line, "\n" + tail, i); }
    forall i | 0 <= i <= |tail| ensures MatchAt(p, s, |line| + 1 + i) == MatchAt(p, tail, i) { MatchBehind(p, line, tail, i); }
    var r, r' := FindPrompt(p, s, 0), FindPrompt(p, tail, 0);
    if r'.Some? {
      assert MatchAt(p, s, |line| + 1 + (r'.value - |p|));
    }
    if r.Some? {
      assert MatchAt(p, s, r.value - |p|) && r.value - |p| > |line|;
      var i := r.value - |p| - |line| - 1;
      assert MatchAt(p, s, |line| + 1 + i) && MatchAt(p, tail, i);
    }
  }

  /** The pattern ^PROMPT$ matches exactly when one of the lines of the text, the last one included, is the prompt
      and nothing more; and it matches at the first of these lines, to its end. */
  lemma {:induction false} FirstPromptLine(p: string, lines: seq<string>, k: nat)
    requires IsPrompt(p) && lines != [] && forall i :: 0 <= i < |lines| ==> '\n' !in lines[i]
    requires k <= |lines| && (forall i :: 0 <= i < k ==> lines[i] != p) && (k < |lines| ==> lines[k] == p)
    ensures FindPrompt(p, Joined(lines), 0) == if k < |lines| then Some(Offset(lines, k) + |p|) else None
    decreases |lines|
  {
    hide FindPrompt, MatchAt;
    var line := lines[0];
    if |lines| == 1 {
      OnlyLine(p, line, "");
      Empty(line);
    } else {
      var tail := Joined(lines[1..]);
      if k == 0 {
        OnlyLine(p, line, "\n" + tail);
        Assoc(line, "\n", tail);
      } else {
        NotFirst(p, line, tail);
        FirstPromptLine(p, lines[1..], k - 1);
      }
    }
  }

  lemma OnlyLine(p: string, line: string, tail: string)
    requires IsPrompt(p) && '\n' !in line && (tail == "" || tail[0] == '\n')
    ensures line == p ==> FindPrompt(p, line + tail, 0) == Some(|p|)
    ensures tail == "" && line != p ==> FindPrompt(p, line + tail, 0) == None
  {
    hide MatchAt;
    forall i | 0 <= i <= |line| ensures MatchAt(p, line + tail, i) <==> i == 0 && line == p {
      MatchInFirst(p, line, tail, i);
    }
  }
}
