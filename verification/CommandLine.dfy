/** A line of a script in the buffers of the interpreter: read, cut into arguments, decoded. */
module CommandLine {
  import opened Bytes
  import opened Format
  import opened Split
  import opened Terminal

  /** What comes before the first newline. */
  function FirstLine(raw: string): (l: string)
    ensures |l| <= |raw| && l == raw[..|l|] && '\n' !in l && (|l| < |raw| ==> raw[|l|] == '\n')
  {
    if raw == "" || raw[0] == '\n' then "" else [raw[0]] + FirstLine(raw[1..])
  }

  lemma LineIs(raw: string, n: nat)
    requires n <= |raw| && '\n' !in raw[..n] && (n < |raw| ==> raw[n] == '\n')
    ensures FirstLine(raw) == raw[..n]
  {
  }

  /** Nothing stands behind the only word of the line. */
  predicate Bare(line: string, word: string) {
    |SkipBlanks(line)| == |word|
  }

  const END_OF_LINE := "\"$\""

  class Command {
    const line: array<char>   // pdip_buf
    const text: array<char>   // pdip_buf1
    const table: ArgTable     // pdip_argv
    var end: nat              // where the line ends

    constructor (size: nat)
      requires size > 0
      ensures Valid() && line.Length == text.Length == size
      ensures fresh(line) && fresh(text) && fresh(table) && table.argv == null
    {
      line, text, end := new char[size], new char[size], 0;
      table := new ArgTable();
    }

    ghost predicate Valid()
      reads this, table, table.argv
    {
      line != text && line.Length == text.Length && table.Valid()
    }

    /** The keyword goes up to the end of the line. */
    ghost predicate Holding(args: seq<string>)
      requires Holds(args) && args != []
      reads this, table, table.argv, line
    {
      table.Entries()[0] + |args[0]| == end
    }

    /** The entries of the table are these strings. */
    ghost predicate Holds(args: seq<string>)
      reads this, table, table.argv, line
    {
      Valid() && AreStrings(line, table.Entries(), args)
    }

    /** A string is written at `at`. */
    method Put(at: nat, s: string)
      requires at + |s| < line.Length
      modifies line
      ensures (forall i :: at <= i < at + |s| ==> line[i] == s[i - at]) && line[at + |s|] == NUL
    {
      Store(line, at, s);
      assert forall i :: at <= i < at + |s| ==> line[i] == line[at..at + |s|][i - at];
      line[at + |s|] := NUL;
    }

    /** The line read becomes a string, without its newline. */
    method Load(raw: string)
      requires Valid() && NoNul(raw) && |raw| < line.Length
      modifies this`end, line
      ensures Valid() && end == |FirstLine(raw)| && Uncut(line, FirstLine(raw), 0)
    {
      Put(0, raw);
      assert forall i :: 0 <= i < |raw| ==> line[i] == raw[i] != NUL;
      var p := 0;
      while line[p] != NUL && line[p] != '\n'
        invariant p <= |raw| && '\n' !in raw[..p]
        decreases |raw| - p
      {
        p := p + 1;
      }
      LineIs(raw, p);
      line[p] := NUL;
      assert line[0..p] == raw[..p];
      end := p;
    }

    /** The string at `at` in the line. */
    method StringAt(at: nat, ghost s: string) returns (r: string)
      requires IsString(line, at, s)
      ensures r == s
    {
      assert forall i :: at <= i < at + |s| ==> line[i] == line[at..at + |s|][i - at] == s[i - at] != NUL;
      var q := at;
      while line[q] != NUL
        invariant at <= q <= at + |s|
        decreases at + |s| - q
      {
        q := q + 1;
      }
      assert q == at + |s|;
      r := line[at..q];
    }

    /** All the arguments. */
    method Collect(ghost words: seq<string>) returns (all: seq<string>)
      requires Holds(words)
      ensures all == words
    {
      hide IsString;
      all := [];
      var k := 0;
      while k < table.argc
        invariant k <= table.argc == |words| && all == words[..k]
      {
        assert IsString(line, table.Entries()[k], words[k]);
        StringStarts(line, table.Entries()[k], words[k]);
        var word := StringAt(table.argv[k], words[k]);
        all := all + [word];
        k := k + 1;
      }
      assert words[..|words|] == words;
    }

    /** The line is read and cut; None on a syntax error. */
    method Cut(raw: string) returns (args: Option<seq<string>>)
      requires Valid() && NoNul(raw) && |raw| < line.Length
      modifies this`end, line, table, table.argv
      ensures Valid() && (table.argv == old(table.argv) || fresh(table.argv))
      ensures args == Arguments(FirstLine(raw)) && end == |FirstLine(raw)|
      ensures args.Some? ==> Holds(args.value)
      ensures args.Some? && args.value != [] ==> table.Entries()[0] == end - |SkipBlanks(FirstLine(raw))|
    {
      hide Arguments, SkipBlanks, IsString, FirstLine, AreStrings;
      Load(raw);
      table.Reset();
      var rc;
      ghost var words;
      rc, words := SplitCmdline(line, table, FirstLine(raw));
      if rc != 0 {
        return None;
      }
      var all := Collect(words);
      args := Some(all);
    }

    /** pdip_format_params() of an argument, into the second buffer. */
    method Decoded(k: nat, ghost args: seq<string>) returns (r: Option<string>)
      requires Holds(args) && k < |args|
      modifies text
      ensures Holds(args) && r == Formatted(args[k], text.Length)
    {
      hide Formatted;
      assert IsString(line, table.Entries()[k], args[k]);
      var rc, length := FormatParams(line, table.argv[k], |args[k]|, text, text.Length);
      r := if rc == 0 then Some(text[..length]) else None;
    }

    /** The pattern of a `recv` without parameter is written behind the keyword, and taken behind the end of
        the line. None when these are not the same place, or without room: what the code compiles then is not
        what it has written. */
    method EndPattern(ghost args: seq<string>) returns (r: Option<string>)
      requires Holds(args) && args != []
      modifies line
      ensures Valid()
      ensures r == if old(Holding(args)) && end + |END_OF_LINE| + 2 <= line.Length then Some(END_OF_LINE) else None
    {
      assert IsString(line, table.Entries()[0], args[0]);
      var keyword := StringAt(table.argv[0], args[0]);
      var q := table.argv[0] + |keyword|;
      if q != end || end + |END_OF_LINE| + 2 > line.Length {
        return None;
      }
      r := WriteEnd();
    }

    method WriteEnd() returns (r: Option<string>)
      requires Valid() && end + |END_OF_LINE| + 2 <= line.Length
      modifies line
      ensures Valid() && r == Some(END_OF_LINE)
    {
      Put(end, " " + END_OF_LINE);
      line[end] := NUL;
      assert line[end + 1] == '"' && line[end + 2] == '$' && line[end + 3] == '"' && line[end + 4] == NUL;
      assert line[end + 1..end + 1 + 3] == [line[end + 1], line[end + 2], line[end + 3]];
      var s := StringAt(end + 1, END_OF_LINE);
      r := Some(s);
    }
  }

  lemma StringStarts(line: array<char>, at: int, s: string)
    requires IsString(line, at, s)
    ensures at >= 0
  {
  }
}
