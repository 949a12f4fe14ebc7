/** Strings as the C code sees them: bytes, lines and NUL termination. */
module Bytes {

  datatype Option<+T> = None | Some(value: T)

  const NUL: char := '\0'

  predicate NoNul(s: string) {
    NUL !in s
  }

  predicate EndsWithNewline(s: string) {
    s != "" && s[|s| - 1] == '\n'
  }

  /** A text made of complete lines only (possibly none). */
  predicate WholeLines(s: string) {
    s == "" || EndsWithNewline(s)
  }

  /** A line starts at `i`: `i` is the beginning of the text or follows a newline. */
  predicate LineStart(s: string, i: nat)
    requires i <= |s|
  {
    i == 0 || s[i - 1] == '\n'
  }

  /** Length of the complete lines at the head of `s`: one past its last newline, 0 when it has none. */
  function LinesLength(s: string): (k: nat)
    ensures k <= |s|
    ensures WholeLines(s[..k])
    ensures '\n' !in s[k..]
  {
    if s == "" then 0
    else if s[|s| - 1] == '\n' then |s|
    else
      var k := LinesLength(s[..|s| - 1]);
      assert s[..|s| - 1][..k] == s[..k];
      assert s[k..] == s[..|s| - 1][k..] + [s[|s| - 1]];
      k
  }

  /** The only cut of a text into complete lines and a newline-free tail is at LinesLength. */
  lemma LinesLengthUnique(s: string, k: nat)
    requires k <= |s| && WholeLines(s[..k]) && '\n' !in s[k..]
    ensures k == LinesLength(s)
  {
  }

  lemma Empty<T>(a: seq<T>)
    ensures a + [] == a && [] + a == a
  {
  }

  lemma Assoc<T>(a: seq<T>, b: seq<T>, c: seq<T>)
    ensures (a + b) + c == a + (b + c)
  {
  }

  /** Slices of a prefix and of a concatenation. */
  lemma PrefixCut<T>(s: seq<T>, m: nat, g: nat)
    requires g <= m <= |s|
    ensures s[..m][..g] == s[..g] && s[..m][g..] == s[g..][..m - g]
  {
  }

  lemma CutJoined<T>(a: seq<T>, b: seq<T>, g: nat)
    requires g <= |a|
    ensures (a + b)[..g] == a[..g] && (a + b)[g..] == a[g..] + b
  {
  }

  lemma CutAt<T>(a: seq<T>, b: seq<T>)
    ensures (a + b)[..|a|] == a && (a + b)[|a|..] == b && (a + b)[..|a + b|] == a + b
  {
  }

  /** Concatenation of a sequence of strings. */
  function Concat(ss: seq<string>): string {
    if ss == [] then "" else ss[0] + Concat(ss[1..])
  }

  lemma {:induction false} ConcatAppend(a: seq<string>, b: seq<string>)
    ensures Concat(a + b) == Concat(a) + Concat(b)
  {
    if a == [] {
      assert a + b == b;
    } else {
      assert (a + b)[1..] == a[1..] + b;
      ConcatAppend(a[1..], b);
    }
  }

  /** The C string at the head of a buffer. */
  function CString(s: string): (t: string)
    ensures NoNul(t) && |t| <= |s| && t == s[..|t|] && (|t| < |s| ==> s[|t|] == NUL)
  {
    if s == "" || s[0] == NUL then "" else [s[0]] + CString(s[1..])
  }

  lemma CStringIs(s: string, n: nat)
    requires n <= |s| && NoNul(s[..n]) && (n < |s| ==> s[n] == NUL)
    ensures CString(s) == s[..n]
  {
  }
}
