/**
 The quoted strings of a script by what they spell: the documented notations of the bytes, in numbers, and
 the exact set of strings that the decoder takes.
 */
module Spelling {
  import opened Bytes
  import opened Format

  /** The letters behind a backslash that stand for another byte. */
  const NAMED: map<char, int> :=
    map['n' := 10, 't' := 9, 'b' := 8, 'a' := 7, 'f' := 12, 'r' := 13, 'v' := 11, '[' := 27, ']' := 29]

  /** The byte 64 lower for the columns of the letters, small or not: "^C" is 3, "^a" is 33; the others stay. */
  function Lowered(x: int): int {
    if 64 <= x < 128 || 192 <= x < 256 then x - 64 else x
  }

  /** `piece` stands for the byte `c`: itself, a letter or itself behind a backslash, a control notation. */
  predicate Spells(piece: string, c: char) {
    if |piece| == 1 then piece[0] == c && c != '"' && c != '\\' && c != '^'
    else
      && |piece| == 2
      && if piece[0] == '\\' then c as int == if piece[1] in NAMED then NAMED[piece[1]] else piece[1] as int
         else piece[0] == '^' && piece[1] as int < 256 && c as int == Lowered(piece[1] as int)
  }

  ghost predicate SpelledAs(pieces: seq<string>, text: string) {
    |pieces| == |text| && forall i :: 0 <= i < |text| ==> Spells(pieces[i], text[i])
  }

  predicate IsBytes(t: string) {
    forall i :: 0 <= i < |t| ==> t[i] as int < 256
  }

  lemma DecodePiece(piece: string, c: char, t: string)
    requires Spells(piece, c)
    ensures Decode(piece + t) == Prepend(c, Decode(t))
  {
    var u := piece + t;
    assert u[0] == piece[0] && u[|piece|..] == t;
    if |piece| == 2 {
      assert u[1] == piece[1] && c == if piece[0] == '\\' then Escape(piece[1]) else Control(piece[1]);
    }
  }

  lemma SpelledFirst(pieces: seq<string>, text: string)
    requires SpelledAs(pieces, text) && text != ""
    ensures SpelledAs(pieces[1..], text[1..]) && Spells(pieces[0], text[0]) && [text[0]] + text[1..] == text
  {
  }

  /** Any text in any spelling is decoded to itself. */
  lemma {:induction false} DecodeSpelled(pieces: seq<string>, text: string, tail: string)
    requires SpelledAs(pieces, text)
    ensures Decode(Concat(pieces) + ['"'] + tail) == Some(text)
  {
    if text == "" {
      assert Concat(pieces) + ['"'] + tail == ['"'] + tail;
    } else {
      hide Decode, SpelledAs, Spells;
      SpelledFirst(pieces, text);
      var rest := Concat(pieces[1..]) + ['"'] + tail;
      assert Concat(pieces) + ['"'] + tail == pieces[0] + rest;
      DecodePiece(pieces[0], text[0], rest);
      DecodeSpelled(pieces[1..], text[1..], tail);
    }
  }

  /** And the decoder takes nothing else. */
  lemma {:induction false} DecodedIsSpelled(t: string) returns (pieces: seq<string>, tail: string)
    requires IsBytes(t) && Decode(t).Some?
    ensures t == Concat(pieces) + ['"'] + tail && SpelledAs(pieces, Decode(t).value)
    decreases |t|
  {
    if t[0] == '"' {
      pieces, tail := [], t[1..];
    } else {
      var piece := if t[0] == '\\' || t[0] == '^' then t[..2] else t[..1];
      FirstPiece(t, piece);
      var rest := t[|piece|..];
      var more;
      more, tail := DecodedIsSpelled(rest);
      pieces := [piece] + more;
      assert pieces[1..] == more;
      Assoc(piece, Concat(more), ['"']);
      Assoc(piece, Concat(more) + ['"'], tail);
      hide Decode, Spells;
    }
  }

  /** Every letter behind a backslash or a circumflex is a notation of what the decoder makes of it. */
  lemma NotationsOf(x: char)
    ensures Spells(['\\', x], Escape(x))
    ensures x as int < 256 ==> Spells(['^', x], Control(x))
  {
  }

  lemma FirstPiece(t: string, piece: string)
    requires IsBytes(t) && Decode(t).Some? && t[0] != '"'
    requires piece == if t[0] == '\\' || t[0] == '^' then t[..2] else t[..1]
    ensures |piece| <= |t| && t == piece + t[|piece|..] && Decode(t[|piece|..]).Some? && Decode(t).value != ""
    ensures Spells(piece, Decode(t).value[0]) && Decode(t).value[1..] == Decode(t[|piece|..]).value
  {
    hide Escape, Control;
    if |t| > 1 {
      NotationsOf(t[1]);
    }
    if t[0] == '\\' || t[0] == '^' {
      hide Spells;
      assert piece == [t[0], t[1]];
    }
  }

  /** A parameter of the decoder. */
  function Written(pieces: seq<string>, tail: string): string {
    ['"'] + Concat(pieces) + ['"'] + tail
  }

  /**
   pdip_format_params() for all parameters and texts: a parameter is decoded to a text exactly when it is an
   opening quote, a spelling of the text and a closing quote, whatever follows, and there is room for the text
   and its NUL.
   */
  lemma FormattedExact(params: string, text: string, room: nat)
    requires IsBytes(params)
    ensures Formatted(params, room) == Some(text) <==>
            |text| < room && exists pieces, tail :: params == Written(pieces, tail) && SpelledAs(pieces, text)
  {
    hide Decode, SpelledAs;
    if Formatted(params, room) == Some(text) {
      var t := params[1..];
      assert IsBytes(t) by { assert forall i :: 0 <= i < |t| ==> t[i] == params[i + 1]; }
      var pieces, tail := DecodedIsSpelled(t);
      assert params == Written(pieces, tail);
    }
    forall pieces, tail | params == Written(pieces, tail) && SpelledAs(pieces, text)
      ensures Formatted(params, room) == if |text| < room then Some(text) else None {
      DecodeSpelled(pieces, text, tail);
      assert params[1..] == Concat(pieces) + ['"'] + tail;
    }
  }

  /** All the control bytes are spelled by the letter 64 above them, and "^C" is the byte 3. */
  lemma ControlBytes(b: int)
    requires 0 <= b < 32
    ensures Spells(['^', (b + 64) as char], b as char)
    ensures Spells("^C", 3 as char)
  {
  }
}
