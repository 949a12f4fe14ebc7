/** pdip_format_params(): the escapes of the quoted strings of a script. */
module Format {
  import opened Bytes

  /** PDIP_CTRL(): bit 6 is cleared. */
  function Control(c: char): char {
    if c as int / 64 % 2 == 1 then (c as int - 64) as char else c
  }

  /** What a backslash makes of the character behind it. */
  function Escape(c: char): char {
    match c
    case 'n' => '\n'
    case 't' => '\t'
    case 'b' => 8 as char
    case 'a' => 7 as char
    case 'f' => 12 as char
    case 'r' => '\r'
    case 'v' => 11 as char
    case '[' => 0x1b as char
    case ']' => 0x1d as char
    case _ => c
  }

  function Prepend(c: char, r: Option<string>): Option<string> {
    match r
    case None => None
    case Some(s) => Some([c] + s)
  }

  /** Meaning of a quoted string behind its opening quote; None when the closing one is missing. */
  function Decode(t: string): Option<string> {
    if t == "" then None
    else if t[0] == '"' then Some("")
    else if t[0] == '\\' then if |t| == 1 then None else Prepend(Escape(t[1]), Decode(t[2..]))
    else if t[0] == '^' then if |t| == 1 then None else Prepend(Control(t[1]), Decode(t[2..]))
    else Prepend(t[0], Decode(t[1..]))
  }

  /** The three states of the decoder: plain text, behind a backslash, behind a circumflex. */
  datatype Mode = Plain | Escaped | Controlled

  function DecodeIn(mode: Mode, t: string): Option<string> {
    match mode
    case Plain => Decode(t)
    case Escaped => if t == "" then None else Prepend(Escape(t[0]), Decode(t[1..]))
    case Controlled => if t == "" then None else Prepend(Control(t[0]), Decode(t[1..]))
  }

  function Joined(done: string, r: Option<string>): Option<string> {
    match r
    case None => None
    case Some(s) => Some(done + s)
  }

  /** The outcome for the whole parameter: an opening quote, a closing one, and room for the NUL. */
  function Formatted(params: string, room: nat): Option<string> {
    if params == "" || params[0] != '"' then None
    else
      match Decode(params[1..])
      case None => None
      case Some(s) => if |s| < room then Some(s) else None
  }

  /** The decoder between two characters: what is left of the parameter, what is written. */
  ghost predicate Decoding(params: string, i: nat, mode: Mode, done: string) {
    i <= |params| && params != "" && Decode(params[1..]) == Joined(done, DecodeIn(mode, params[i..]))
  }

  /** One character of the parameter. */
  lemma OneCharacter(params: string, i: nat, mode: Mode, done: string)
    requires Decoding(params, i, mode, done) && i < |params|
    ensures var c := params[i];
            match mode
            case Plain =>
              if c == '"' then Decode(params[1..]) == Some(done)
              else if c == '\\' then Decoding(params, i + 1, Escaped, done)
              else if c == '^' then Decoding(params, i + 1, Controlled, done)
              else Decoding(params, i + 1, Plain, done + [c])
            case Escaped => Decoding(params, i + 1, Plain, done + [Escape(c)])
            case Controlled => Decoding(params, i + 1, Plain, done + [Control(c)])
  {
    var c, t, u := params[i], params[i..], params[i + 1..];
    assert t[0] == c && t[1..] == u;
    assert u != "" ==> t[1] == u[0] && t[2..] == u[1..];
    Empty(done);
    JoinedTwice(done, c, Decode(u));
    JoinedTwice(done, Escape(c), Decode(u));
    JoinedTwice(done, Control(c), Decode(u));
  }

  lemma JoinedTwice(done: string, c: char, r: Option<string>)
    ensures Joined(done, Prepend(c, r)) == Joined(done + [c], r)
  {
    if r.Some? {
      Assoc(done, [c], r.value);
    }
  }

  /** No room any more: the whole string does not fit. */
  lemma TooLong(params: string, i: nat, mode: Mode, done: string)
    requires Decoding(params, i, mode, done) && i < |params|
    ensures var r := Decode(params[1..]); r.Some? ==> |r.value| >= |done|
  {
  }

  /** pdip_format_params() of the string of `size` characters at `at` in `params`; `lout` is the room in `out`. */
  method FormatParams(params: array<char>, at: nat, ghost size: nat, out: array<char>, lout: nat)
    returns (rc: int, length: nat)
    requires at + size < params.Length && params[at + size] == NUL && NoNul(params[at..at + size])
    requires params != out && lout <= out.Length
    modifies out
    ensures rc == (if Formatted(params[at..at + size], lout).Some? then 0 else -1)
    ensures rc == 0 ==>
              length < lout && Formatted(params[at..at + size], lout) == Some(out[..length]) && out[length] == NUL
    ensures rc == -1 ==> length == lout
    ensures out[lout..] == old(out[lout..])
  {
    ghost var text := params[at..at + size];
    rc, length := -1, lout;
    if params[at] != '"' {
      return;
    }
    var i, j, mode := 1, 0, Plain;
    DecodingStarts(text);
    while true
      invariant params[at..at + size] == text && 1 <= i <= size && j <= lout && out[lout..] == old(out[lout..])
      invariant Decoding(text, i, mode, out[..j]) && text[0] == '"'
      decreases size - i
    {
      hide Decode, Decoding, DecodeIn;
      if params[at + i] == NUL {
        assert i == size;
        Unfinished(text, mode, out[..j]);
        return;
      }
      if j >= lout {
        TooLong(text, i, mode, out[..j]);
        return;
      }
      OneCharacter(text, i, mode, out[..j]);
      ghost var done := out[..j];
      match mode {
        case Plain =>
          if params[at + i] == '"' {
            out[j] := NUL;
            assert out[..j] == done;
            return 0, j;
          } else if params[at + i] == '\\' {
            mode := Escaped;
          } else if params[at + i] == '^' {
            mode := Controlled;
          } else {
            out[j] := params[at + i];
            j := j + 1;
            assert out[..j] == done + [text[i]];
          }
        case Escaped =>
          out[j] := Escape(params[at + i]);
          j, mode := j + 1, Plain;
          assert out[..j] == done + [Escape(text[i])];
        case Controlled =>
          out[j] := Control(params[at + i]);
          j, mode := j + 1, Plain;
          assert out[..j] == done + [Control(text[i])];
      }
      i := i + 1;
    }
  }

  lemma DecodingStarts(text: string)
    requires text != ""
    ensures Decoding(text, 1, Plain, "")
  {
    if Decode(text[1..]).Some? {
      Empty(Decode(text[1..]).value);
    }
  }

  /** The closing quote is missing. */
  lemma Unfinished(text: string, mode: Mode, done: string)
    requires Decoding(text, |text|, mode, done)
    ensures Decode(text[1..]) == None
  {
    assert text[|text|..] == "";
  }

  // ------------------------------------------------------------------ quoting undone

  /** A character, then a text, made safe for a quoted string. */
  function QuotedChar(c: char): string {
    if c == '"' || c == '\\' || c == '^' then ['\\', c] else if c == '\n' then "\\n" else [c]
  }

  function Quoted(s: string): string {
    if s == "" then "" else QuotedChar(s[0]) + Quoted(s[1..])
  }

  /** The first character of a text, quoted. */
  lemma QuotedFirst(s: string, tail: string)
    requires s != ""
    ensures var t, h := Quoted(s) + ['"'] + tail, QuotedChar(s[0]);
            && 0 < |h| <= |t| && h <= t && t[|h|..] == Quoted(s[1..]) + ['"'] + tail
            && |Quoted(s)| == |h| + |Quoted(s[1..])|
  {
    var h, q := QuotedChar(s[0]), Quoted(s[1..]);
    hide Quoted, QuotedChar;
    assert |h| > 0 && Quoted(s) == h + q by { QuotedIs(s); }
    Assoc(h, q, ['"']);
    Assoc(h, q + ['"'], tail);
    CutAt(h, q + ['"'] + tail);
  }

  lemma QuotedIs(s: string)
    requires s != ""
    ensures Quoted(s) == QuotedChar(s[0]) + Quoted(s[1..]) && |QuotedChar(s[0])| > 0
  {
  }

  function Quote(s: string): string {
    ['"'] + Quoted(s) + ['"']
  }

  lemma DecodeChar(c: char, t: string)
    requires QuotedChar(c) <= t
    ensures Decode(t) == Prepend(c, Decode(t[|QuotedChar(c)|..]))
  {
    assert |QuotedChar(c)| > 1 ==> t[1] == QuotedChar(c)[1];
  }

  lemma {:induction false} DecodeOfQuoted(s: string, tail: string)
    ensures Decode(Quoted(s) + ['"'] + tail) == Some(s)
  {
    var t := Quoted(s) + ['"'] + tail;
    if s == "" {
      assert t[0] == '"';
    } else {
      hide Quoted, QuotedChar, Decode;
      QuotedFirst(s, tail);
      DecodeChar(s[0], t);
      DecodeOfQuoted(s[1..], tail);
      assert [s[0]] + s[1..] == s;
    }
  }

  /** Decoding undoes quoting exactly when there is room for the text and its NUL. */
  lemma FormattedQuote(s: string, room: nat)
    ensures Formatted(Quote(s), room) == if |s| < room then Some(s) else None
  {
    DecodeOfQuoted(s, "");
    assert Quote(s)[1..] == Quoted(s) + ['"'] + "";
  }

  lemma {:induction false} QuotedNoNul(s: string)
    requires NoNul(s)
    ensures NoNul(Quoted(s)) && '\n' !in Quoted(s)
  {
    if s != "" {
      assert NoNul(s[1..]) by { assert forall c :: c in s[1..] ==> c in s; }
      QuotedNoNul(s[1..]);
      assert s[0] in s;
    }
  }
}
