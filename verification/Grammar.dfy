/**
 The lines of a script: blanks, a name, parameters behind blanks, a comment. A parameter is a word or a
 quoted string. pdip_split_cmdline() takes exactly these lines, and gives exactly these parts of them.
 */
module Grammar {
  import opened Bytes
  import opened Decimal
  import opened Format
  import opened Split
  import opened Spelling

  // The characters, by their numbers.

  predicate IsBlank(c: char) {
    c as int == 32 || 9 <= c as int <= 13
  }

  predicate IsLetter(c: char) {
    65 <= c as int <= 90 || 97 <= c as int <= 122 || c as int == 95
  }

  /** A letter or an underscore, then letters, underscores and digits. */
  predicate IsCommand(s: string) {
    s != "" && IsLetter(s[0]) && forall i :: 0 <= i < |s| ==> IsLetter(s[i]) || 48 <= s[i] as int <= 57
  }

  /** The line is over: its end or a comment. */
  predicate IsOver(t: string) {
    t == "" || t[0] == '#'
  }

  predicate AllBlank(s: string) {
    forall i :: 0 <= i < |s| ==> IsBlank(s[i])
  }

  /** No blank and no comment in it, and it does not begin like a string. */
  predicate IsWord(s: string) {
    s != "" && s[0] != '"' && forall i :: 0 <= i < |s| ==> !IsBlank(s[i]) && s[i] != '#'
  }

  /** Every double quote is behind a backslash which is not itself behind another one, and none is left open. */
  predicate Inhibited(s: string) {
    if s == "" then true
    else if s[0] == '\\' then |s| > 1 && Inhibited(s[2..])
    else s[0] != '"' && Inhibited(s[1..])
  }

  predicate IsString(s: string) {
    |s| >= 2 && s[0] == '"' && s[|s| - 1] == '"' && Inhibited(s[1..|s| - 1])
  }

  predicate IsParameter(s: string) {
    IsWord(s) || IsString(s)
  }

  /** `t` begins with `n` blanks and no more. */
  predicate BlanksOf(t: string, n: nat) {
    n <= |t| && AllBlank(t[..n]) && (n < |t| ==> !IsBlank(t[n]))
  }

  /** A part of `n` characters at the head of `u`, then `words`: a comment that touches the part is glued to it. */
  ghost predicate HeadThen(u: string, n: nat, words: seq<string>)
    decreases |u|, 0
  {
    && 0 < n <= |u| && words != []
    && if IsOver(u[n..]) then words == [u]
       else IsBlank(u[n]) && words[0] == u[..n] && AreParameters(u[n + 1..], words[1..])
  }

  ghost predicate ParameterThen(u: string, words: seq<string>)
    decreases |u|, 1
  {
    exists n: nat :: 0 < n <= |u| && IsParameter(u[..n]) && HeadThen(u, n, words)
  }

  /** Blanks, then nothing or a comment; or a parameter and what follows. */
  ghost predicate AreParameters(t: string, words: seq<string>)
    decreases |t|, 2
  {
    exists i: nat :: BlanksOf(t, i) && if IsOver(t[i..]) then words == [] else ParameterThen(t[i..], words)
  }

  ghost predicate NameThen(u: string, words: seq<string>) {
    exists n: nat :: 0 < n <= |u| && IsCommand(u[..n]) && HeadThen(u, n, words)
  }

  /** A whole line; an empty one has no part. */
  ghost predicate IsLine(t: string, words: seq<string>) {
    exists i: nat :: BlanksOf(t, i) && if IsOver(t[i..]) then words == [] else NameThen(t[i..], words)
  }

  // ------------------------------------------------------------------ the parts of a line

  lemma {:induction false} BlanksSkipped(t: string, i: nat)
    requires BlanksOf(t, i)
    ensures SkipBlanks(t) == t[i..]
  {
    if i > 0 {
      assert t[..i][0] == t[0] && t[1..][..i - 1] == t[..i][1..] && t[1..][i - 1..] == t[i..];
      BlanksSkipped(t[1..], i - 1);
    } else {
      assert t[0..] == t;
    }
  }

  lemma {:induction false} SkippedBlanks(t: string) returns (i: nat)
    ensures BlanksOf(t, i) && SkipBlanks(t) == t[i..]
  {
    if t != "" && IsSpace(t[0]) {
      i := SkippedBlanks(t[1..]);
      assert t[1..][i..] == t[i + 1..] && t[..i + 1] == [t[0]] + t[1..][..i];
      i := i + 1;
    } else {
      i := 0;
      assert t[0..] == t;
    }
  }

  lemma {:induction false} WordLengthIs(u: string, n: nat)
    requires n <= |u| && (forall i :: 0 <= i < n ==> !IsSpace(u[i]) && u[i] != COMMENT)
    requires AtEnd(u[n..]) || IsSpace(u[n])
    ensures WordLength(u) == n
  {
    if n > 0 {
      assert u[1..][n - 1..] == u[n..];
      WordLengthIs(u[1..], n - 1);
    } else {
      assert u[0..] == u;
    }
  }

  lemma {:induction false} WordLengthOk(u: string)
    ensures forall i :: 0 <= i < WordLength(u) ==> !IsSpace(u[i]) && u[i] != COMMENT
  {
    if u != "" && !IsSpace(u[0]) && u[0] != COMMENT {
      WordLengthOk(u[1..]);
    }
  }

  /** The closing quote is the first one that is not inhibited. */
  lemma {:induction false} StringLengthIs(t: string, n: nat)
    requires n < |t| && Inhibited(t[..n]) && t[n] == '"'
    ensures StringLength(t) == Some(n + 1)
  {
    if n == 0 {
      StringLengthStep(t);
    } else {
      hide StringLength;
      var s := t[..n];
      StringLengthStep(t);
      assert s[0] == t[0];
      var k := if t[0] == '\\' then 2 else 1;
      assert t[k..][..n - k] == s[k..] && t[k..][n - k] == t[n];
      StringLengthIs(t[k..], n - k);
    }
  }

  lemma {:induction false} StringLengthOk(t: string)
    requires StringLength(t).Some?
    ensures var n := StringLength(t).value - 1; Inhibited(t[..n]) && t[n] == '"'
  {
    if t[0] != '"' {
      var n := StringLength(t).value - 1;
      var k := if t[0] == '\\' then 2 else 1;
      StringLengthOk(t[k..]);
      assert t[k..][..n - k] == t[..n][k..];
    }
  }

  lemma WordIs(u: string, n: nat)
    requires 0 < n <= |u| && IsWord(u[..n]) && (AtEnd(u[n..]) || IsSpace(u[n]))
    ensures ParameterLength(u) == Some(n)
  {
    var w := u[..n];
    hide StringLength, WordLength;
    assert forall i :: 0 <= i < n ==> u[i] == w[i];
    assert u[1..][n - 1..] == u[n..];
    WordLengthIs(u[1..], n - 1);
  }

  lemma StringIs(u: string, n: nat)
    requires 0 < n <= |u| && IsString(u[..n])
    ensures ParameterLength(u) == Some(n)
  {
    var w, t := u[..n], u[1..];
    hide StringLength, WordLength, Inhibited;
    assert w[1..n - 1] == t[..n - 2];
    assert t[n - 2] == w[n - 1] && u[0] == w[0];
    StringLengthIs(t, n - 2);
  }

  /** The code measures a parameter as the grammar does. */
  lemma ParameterIs(u: string, n: nat)
    requires 0 < n <= |u| && IsParameter(u[..n]) && (AtEnd(u[n..]) || IsSpace(u[n]))
    ensures ParameterLength(u) == Some(n)
  {
    hide IsWord, IsString, ParameterLength;
    if IsWord(u[..n]) {
      WordIs(u, n);
    } else {
      StringIs(u, n);
    }
  }

  lemma ParameterOk(u: string, n: nat)
    requires u != "" && !AtEnd(u) && !IsSpace(u[0]) && ParameterLength(u) == Some(n)
    ensures 0 < n <= |u| && IsParameter(u[..n])
  {
    var w := u[..n];
    hide StringLength, WordLength, Inhibited;
    if u[0] == '"' {
      StringLengthOk(u[1..]);
      assert w[1..n - 1] == u[1..][..n - 2] && w[n - 1] == u[1..][n - 2];
    } else {
      WordLengthOk(u[1..]);
      assert forall i :: 1 <= i < n ==> w[i] == u[1..][i - 1];
    }
  }

  lemma {:induction false} NameLengthIs(u: string, n: nat)
    requires n <= |u| && (forall i :: 0 <= i < n ==> IsNameChar(u[i])) && (n < |u| ==> !IsNameChar(u[n]))
    ensures NameLength(u) == n
  {
    if n > 0 {
      NameLengthIs(u[1..], n - 1);
    }
  }

  lemma {:induction false} NameLengthOk(u: string)
    ensures var n := NameLength(u); (forall i :: 0 <= i < n ==> IsNameChar(u[i])) && (n < |u| ==> !IsNameChar(u[n]))
  {
    if u != "" && IsNameChar(u[0]) {
      NameLengthOk(u[1..]);
    }
  }

  // ------------------------------------------------------------------ the parameters

  lemma WordThenStep(u: string, n: nat)
    requires 0 < n <= |u|
    ensures WordThen(u, n) ==
            if AtEnd(u[n..]) then Some([u]) else if !IsSpace(u[n]) then None else Before(u[..n], Parameters(u[n + 1..]))
  {
  }

  lemma HeadExact(u: string, n: nat, words: seq<string>)
    requires 0 < n <= |u|
    requires !AtEnd(u[n..]) && words != [] ==> (Parameters(u[n + 1..]) == Some(words[1..]) <==> AreParameters(u[n + 1..], words[1..]))
    ensures WordThen(u, n) == Some(words) <==> HeadThen(u, n, words)
  {
    hide Parameters, AreParameters;
    WordThenStep(u, n);
    assert words != [] ==> [words[0]] + words[1..] == words;
  }

  lemma HeadEnds(u: string, n: nat, words: seq<string>)
    requires HeadThen(u, n, words)
    ensures 0 < n <= |u| && (AtEnd(u[n..]) || IsSpace(u[n]))
  {
  }

  /** The parameters that the code finds are those of the grammar, and it finds no others. */
  lemma {:induction false} ParametersExact(t: string, words: seq<string>)
    ensures Parameters(t) == Some(words) <==> AreParameters(t, words)
    decreases |t|, 1
  {
    hide ParameterLength, WordThen, ParameterThen, SkipBlanks;
    var i := SkippedBlanks(t);
    forall j: nat | BlanksOf(t, j) ensures j == i {
      BlanksSkipped(t, j);
    }
    if !AtEnd(t[i..]) {
      ParameterExact(t[i..], words);
    }
  }

  lemma {:induction false} ParameterExact(u: string, words: seq<string>)
    requires !AtEnd(u) && !IsSpace(u[0])
    ensures ParameterLength(u).Some? && WordThen(u, ParameterLength(u).value) == Some(words) <==> ParameterThen(u, words)
    decreases |u|, 0
  {
    hide ParameterLength, WordThen, HeadThen, IsParameter;
    forall n: nat | 0 < n <= |u| ensures WordThen(u, n) == Some(words) <==> HeadThen(u, n, words) {
      if !AtEnd(u[n..]) && words != [] {
        ParametersExact(u[n + 1..], words[1..]);
      }
      HeadExact(u, n, words);
    }
    forall n: nat | 0 < n <= |u| && IsParameter(u[..n]) && HeadThen(u, n, words) ensures ParameterLength(u) == Some(n) {
      HeadEnds(u, n, words);
      ParameterIs(u, n);
    }
    if ParameterLength(u).Some? {
      ParameterOk(u, ParameterLength(u).value);
      assert IsParameter(u[..ParameterLength(u).value]);
    }
  }

  // ------------------------------------------------------------------ the line

  lemma NameEnds(u: string, n: nat)
    requires 0 < n <= |u| && IsName(u[..n]) && (AtEnd(u[n..]) || IsSpace(u[n]))
    ensures IsNameStart(u[0]) && n == 1 + NameLength(u[1..])
  {
    assert forall i :: 0 <= i < n ==> u[i] == u[..n][i];
    assert n < |u| ==> u[n..][0] == u[n];
    NameLengthIs(u[1..], n - 1);
  }

  lemma NameFound(u: string)
    requires u != "" && IsNameStart(u[0])
    ensures var n := 1 + NameLength(u[1..]); 0 < n <= |u| && IsName(u[..n])
  {
    NameLengthOk(u[1..]);
    var n := 1 + NameLength(u[1..]);
    assert forall i :: 1 <= i < n ==> u[..n][i] == u[1..][i - 1];
  }

  lemma CommandIs(s: string)
    ensures IsCommand(s) <==> IsName(s)
  {
  }

  lemma NameExact(u: string, words: seq<string>)
    requires !AtEnd(u)
    ensures IsNameStart(u[0]) && WordThen(u, 1 + NameLength(u[1..])) == Some(words) <==> NameThen(u, words)
  {
    hide WordThen, HeadThen, IsName, IsCommand, NameLength;
    forall n: nat | 0 < n <= |u| ensures IsCommand(u[..n]) <==> IsName(u[..n]) { CommandIs(u[..n]); }
    forall n: nat | 0 < n <= |u| ensures WordThen(u, n) == Some(words) <==> HeadThen(u, n, words) {
      if !AtEnd(u[n..]) && words != [] {
        ParametersExact(u[n + 1..], words[1..]);
      }
      HeadExact(u, n, words);
    }
    forall n: nat | 0 < n <= |u| && IsName(u[..n]) && HeadThen(u, n, words)
      ensures IsNameStart(u[0]) && n == 1 + NameLength(u[1..]) {
      HeadEnds(u, n, words);
      NameEnds(u, n);
    }
    if IsNameStart(u[0]) {
      NameFound(u);
      assert IsName(u[..1 + NameLength(u[1..])]);
    }
  }

  /** pdip_split_cmdline(), for all lines: it succeeds exactly on the lines of the grammar, and gives their parts. */
  lemma SplitExact(t: string, words: seq<string>)
    ensures Arguments(t) == Some(words) <==> IsLine(t, words)
  {
    hide WordThen, NameThen, SkipBlanks, NameLength;
    var i := SkippedBlanks(t);
    forall j: nat | BlanksOf(t, j) ensures j == i {
      BlanksSkipped(t, j);
    }
    if !AtEnd(t[i..]) {
      NameExact(t[i..], words);
    }
  }
}
