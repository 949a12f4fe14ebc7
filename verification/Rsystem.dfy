/** rsystem(): the client of the daemon, behind the writing of its command. */
module Rsystem {
  import opened Bytes
  import opened RsysMsg
  import opened ShellStatus
  import opened Terminal

  const BUFFER_SIZE := 4096

  /** Outcome of a read(): at most that many bytes, or an error. */
  datatype Cut = Gives(n: nat) | Breaks

  /** Number of bytes got by a read of `amount` > 0 bytes: none only at the end of the connection. */
  function Got(cut: Cut, amount: nat, incoming: string): (g: nat)
    requires cut.Gives?
    ensures g <= amount && g <= |incoming| && (g == 0 <==> amount == 0 || incoming == "")
  {
    Min(if cut.n == 0 then 1 else cut.n, Min(amount, |incoming|))
  }

  function Min(a: nat, b: nat): nat {
    if a < b then a else b
  }

  /** The connection of a client: what the daemon has sent or will send, cut by the reads in any way. */
  class Connection {
    var incoming: string
    var at: nat
    const cuts: nat -> Cut

    constructor (incoming: string, cuts: nat -> Cut)
      ensures this.incoming == incoming && this.cuts == cuts && at == 0
    {
      this.incoming, this.cuts, at := incoming, cuts, 0;
    }

    /** read() into the head of a buffer */
    method Read(buffer: array<char>, amount: nat) returns (rc: int)
      requires 0 < amount <= buffer.Length
      modifies this, buffer
      ensures at == old(at) + 1
      ensures cuts(old(at)).Breaks? ==> rc == -1 && incoming == old(incoming)
      ensures cuts(old(at)).Gives? ==>
                && rc == Got(cuts(old(at)), amount, old(incoming))
                && buffer[..rc] == old(incoming)[..rc] && incoming == old(incoming)[rc..]
    {
      match cuts(at) {
        case Breaks => rc := -1;
        case Gives(_) =>
          var g := Got(cuts(at), amount, incoming);
          var i := 0;
          while i < g
            invariant i <= g <= |incoming| && g <= buffer.Length && buffer[..i] == incoming[..i]
            invariant incoming == old(incoming) && at == old(at)
          {
            buffer[i] := incoming[i];
            i := i + 1;
          }
          incoming, rc := incoming[g..], g;
      }
      at := at + 1;
    }
  }

  // ------------------------------------------------------------------ the specification

  /** The data of a DISPLAY message: read to its end, or the connection is lost in it. What is left of the
      connection, and the number of the next read, come with it. */
  datatype Payload = Whole(printed: string, rest: string, at: nat) | Lost(printed: string, rest: string, at: nat)

  function Prefixed(p: string, x: Payload): Payload {
    x.(printed := p + x.printed)
  }

  function ReadPayload(remain: nat, incoming: string, cuts: nat -> Cut, at: nat): Payload
    decreases remain
  {
    if remain == 0 then Whole("", incoming, at)
    else if cuts(at).Breaks? || incoming == "" then Lost("", incoming, at + 1)
    else
      var g := Got(cuts(at), Min(BUFFER_SIZE, remain), incoming);
      Prefixed(CString(incoming[..g]), ReadPayload(remain - g, incoming[g..], cuts, at + 1))
  }

  lemma {:induction false} PayloadShrinks(remain: nat, incoming: string, cuts: nat -> Cut, at: nat)
    ensures var p := ReadPayload(remain, incoming, cuts, at); p.Whole? ==> |p.rest| + remain == |incoming| && p.at >= at
    decreases remain
  {
    if remain > 0 && cuts(at).Gives? && incoming != "" {
      var g := Got(cuts(at), Min(BUFFER_SIZE, remain), incoming);
      PayloadShrinks(remain - g, incoming[g..], cuts, at + 1);
    }
  }

  /** What the caller gets, what has been printed, and what the connection holds for the next call, whose first
      read is the one of number `at`. */
  datatype Reply = Reply(status: int, printed: string, rest: string, at: nat)

  /** A reply with more text before it. */
  function Behind(text: string, r: Reply): Reply {
    r.(printed := text + r.printed)
  }

  /** Number of bytes taken by the read of a header. */
  function Taken(cut: Cut, incoming: string): (g: nat)
    ensures g <= |incoming|
  {
    if cut.Breaks? then 0 else Got(cut, HEADER, incoming)
  }

  function Replies(incoming: string, cuts: nat -> Cut, at: nat): Reply
    decreases |incoming|
  {
    if Taken(cuts(at), incoming) != HEADER then Reply(-1, "", incoming[Taken(cuts(at), incoming)..], at + 1)
    else
      var f, body := Unpack(incoming[..HEADER]), incoming[HEADER..];
      if f.kind == TYPE_DISPLAY then
        PayloadShrinks(f.length, body, cuts, at + 1);
        match ReadPayload(f.length, body, cuts, at + 1)
        case Lost(printed, rest, next) => Reply(-1, printed, rest, next)
        case Whole(printed, rest, next) => Behind(printed, Replies(rest, cuts, next))
      else Reply(if f.kind == TYPE_EOC then Encoded(f.status) else -1, "", body, at + 1)
  }

  // One step of the specification.

  lemma PayloadStep(remain: nat, incoming: string, cuts: nat -> Cut, at: nat)
    requires remain > 0
    ensures ReadPayload(remain, incoming, cuts, at) ==
            if cuts(at).Breaks? || incoming == "" then Lost("", incoming, at + 1)
            else
              var g := Got(cuts(at), Min(BUFFER_SIZE, remain), incoming);
              Prefixed(CString(incoming[..g]), ReadPayload(remain - g, incoming[g..], cuts, at + 1))
  {
  }

  lemma DisplayStep(incoming: string, cuts: nat -> Cut, at: nat)
    requires Taken(cuts(at), incoming) == HEADER
    requires Unpack(incoming[..HEADER]).kind == TYPE_DISPLAY
    ensures Replies(incoming, cuts, at) ==
            match ReadPayload(Unpack(incoming[..HEADER]).length, incoming[HEADER..], cuts, at + 1)
            case Lost(printed, rest, next) => Reply(-1, printed, rest, next)
            case Whole(printed, rest, next) => Behind(printed, Replies(rest, cuts, next))
  {
  }

  lemma EndStep(incoming: string, cuts: nat -> Cut, at: nat)
    requires Taken(cuts(at), incoming) == HEADER && Unpack(incoming[..HEADER]).kind != TYPE_DISPLAY
    ensures var f := Unpack(incoming[..HEADER]);
            Replies(incoming, cuts, at)
            == Reply(if f.kind == TYPE_EOC then Encoded(f.status) else -1, "", incoming[HEADER..], at + 1)
  {
  }

  lemma HeaderCut(incoming: string, cuts: nat -> Cut, at: nat)
    requires Taken(cuts(at), incoming) != HEADER
    ensures Replies(incoming, cuts, at) == Reply(-1, "", incoming[Taken(cuts(at), incoming)..], at + 1)
  {
  }

  // ------------------------------------------------------------------ the code

  class Client {
    const socket: Connection
    const buffer: array<char>
    var printed: string

    constructor (socket: Connection)
      ensures this.socket == socket && printed == "" && fresh(buffer) && buffer.Length == BUFFER_SIZE + 1
    {
      this.socket, printed := socket, "";
      buffer := new char[BUFFER_SIZE + 1];
    }

    /** One read of the data, printed at once. */
    method Piece(remain: nat) returns (rc: int, ghost text: string)
      requires buffer.Length == BUFFER_SIZE + 1 && remain > 0
      modifies this, buffer, socket
      ensures rc <= remain && printed == old(printed) + text
      ensures ReadPayload(remain, old(socket.incoming), socket.cuts, old(socket.at)) ==
              if rc <= 0 then Lost(text, socket.incoming, socket.at)
              else Prefixed(text, ReadPayload(remain - rc, socket.incoming, socket.cuts, socket.at))
      ensures rc <= 0 ==> text == ""
    {
      hide ReadPayload, CString, Prefixed;
      PayloadStep(remain, socket.incoming, socket.cuts, socket.at);
      var amount := if remain > BUFFER_SIZE then BUFFER_SIZE else remain;
      rc := socket.Read(buffer, amount);
      text := "";
      Empty(printed);
      if rc > 0 {
        buffer[rc] := NUL;
        var piece := Terminated(buffer, rc);
        printed := printed + piece;
        assert buffer[..rc] == old(socket.incoming)[..rc];
        text := piece;
      }
    }

    /** The data of a DISPLAY message, piece by piece. */
    method Display(length: nat) returns (ok: bool)
      requires buffer.Length == BUFFER_SIZE + 1
      modifies this, buffer, socket
      ensures var p := ReadPayload(length, old(socket.incoming), socket.cuts, old(socket.at));
              && ok == p.Whole? && printed == old(printed) + p.printed && socket.incoming == p.rest && socket.at == p.at
    {
      var remain := length;
      ghost var text := "";
      Empty(printed);
      PrefixedNothing(ReadPayload(length, socket.incoming, socket.cuts, socket.at));
      while remain > 0
        invariant 0 <= remain <= length && printed == old(printed) + text
        invariant ReadPayload(length, old(socket.incoming), socket.cuts, old(socket.at))
                  == Prefixed(text, ReadPayload(remain, socket.incoming, socket.cuts, socket.at))
      {
        hide ReadPayload, Prefixed;
        var rc;
        ghost var piece;
        rc, piece := Piece(remain);
        if rc <= 0 {
          PrefixedLost(text, socket.incoming, socket.at);
          return false;
        }
        remain := remain - rc;
        PrefixedTwice(text, piece, ReadPayload(remain, socket.incoming, socket.cuts, socket.at));
        Assoc(old(printed), text, piece);
        text := text + piece;
      }
      Empty(text);
      ok := true;
    }

    /** One message: either it ends the command, or its text is printed. */
    method Message(msg: array<char>) returns (done: bool, status: int, ghost text: string)
      requires buffer.Length == BUFFER_SIZE + 1 && msg.Length == HEADER && msg != buffer
      modifies this, buffer, socket, msg
      ensures printed == old(printed) + text
      ensures var r, r' := Replies(old(socket.incoming), socket.cuts, old(socket.at)),
                           Replies(socket.incoming, socket.cuts, socket.at);
              r == if done then Reply(status, text, socket.incoming, socket.at) else Behind(text, r')
      ensures !done ==> |socket.incoming| < |old(socket.incoming)|
    {
      hide Replies, ReadPayload, Unpack;
      ghost var was, first := socket.incoming, socket.at;
      var rc := socket.Read(msg, HEADER);
      Empty(printed);
      text, done, status := "", true, -1;
      if rc != HEADER {
        HeaderCut(was, socket.cuts, first);
        return;
      }
      assert msg[..] == msg[..HEADER] == was[..HEADER];
      var f := Unpack(msg[..]);
      if f.kind == TYPE_DISPLAY {
        DisplayStep(was, socket.cuts, first);
        PayloadShrinks(f.length, socket.incoming, socket.cuts, socket.at);
        text := ReadPayload(f.length, socket.incoming, socket.cuts, socket.at).printed;
        var ok := Display(f.length);
        done := !ok;
      } else {
        EndStep(was, socket.cuts, first);
        if f.kind == TYPE_EOC {
          status := if f.status % 256 >= 128 then f.status else Wrapped(256 * f.status);
        }
      }
    }

    /** The response: messages up to the one that ends the command. */
    method Response() returns (status: int)
      requires buffer.Length == BUFFER_SIZE + 1
      modifies this, buffer, socket
      ensures var r := Replies(old(socket.incoming), socket.cuts, old(socket.at));
              && status == r.status && printed == old(printed) + r.printed
              && socket.incoming == r.rest && socket.at == r.at
    {
      ghost var text := "";
      Empty(printed);
      status := 1;
      var msg, done := new char[HEADER], false;
      while !done
        invariant printed == old(printed) + text
        invariant var r0, r := Replies(old(socket.incoming), socket.cuts, old(socket.at)),
                               Replies(socket.incoming, socket.cuts, socket.at);
                  r0 == if done then Reply(status, text, socket.incoming, socket.at) else Behind(text, r)
        decreases !done, |socket.incoming|
      {
        hide Replies;
        ghost var piece;
        done, status, piece := Message(msg);
        Assoc(old(printed), text, piece);
        Assoc(text, piece, Replies(socket.incoming, socket.cuts, socket.at).printed);
        text := text + piece;
      }
    }
  }

  lemma PrefixedNothing(x: Payload)
    ensures Prefixed("", x) == x
  {
  }

  lemma PrefixedLost(text: string, rest: string, at: nat)
    ensures Prefixed(text, Lost("", rest, at)) == Lost(text, rest, at)
  {
  }

  lemma PrefixedTwice(a: string, b: string, x: Payload)
    ensures Prefixed(a, Prefixed(b, x)) == Prefixed(a + b, x)
  {
  }

  // ------------------------------------------------------------------ round trip

  /** A piece of output sent by the daemon, with the bytes of the header that it does not set. */
  datatype Out = Out(text: string, unset: int, pad: string)

  predicate ValidOut(o: Out) {
    NoNul(o.text) && IsSize(|o.text| + 1) && IsInt(o.unset) && |o.pad| == 8
  }

  predicate ValidOuts(outs: seq<Out>) {
    forall i :: 0 <= i < |outs| ==> ValidOut(outs[i])
  }

  function OutBytes(o: Out): (s: string)
    requires ValidOut(o)
    ensures |s| == HEADER + |o.text| + 1
  {
    Pack(Fields(TYPE_DISPLAY, |o.text| + 1, o.unset), o.pad) + (o.text + [NUL])
  }

  /** What the daemon sends for a command: the output in any number of pieces, then the status. */
  function Wire(outs: seq<Out>, status: int, pad: string): string
    requires ValidOuts(outs) && IsInt(status) && |pad| == 8
  {
    if outs == [] then Pack(Fields(TYPE_EOC, 0, status), pad)
    else OutBytes(outs[0]) + Wire(outs[1..], status, pad)
  }

  function Texts(outs: seq<Out>): string {
    if outs == [] then "" else outs[0].text + Texts(outs[1..])
  }

  /** A read inside the text, or up to its NUL; the connection may be cut `m` bytes further on. */
  lemma Chunk(text: string, tail: string, m: nat, g: nat)
    requires NoNul(text) && g <= m <= |text| + 1 + |tail| && g <= |text| + 1
    ensures var incoming := (text + [NUL] + tail)[..m];
            if g <= |text| then
              CString(incoming[..g]) == text[..g] && incoming[g..] == (text[g..] + [NUL] + tail)[..m - g]
            else
              CString(incoming[..g]) == text && incoming[g..] == tail[..m - g]
  {
    hide CString;
    var whole := text + [NUL] + tail;
    PrefixCut(whole, m, g);
    if g <= |text| {
      Assoc(text, [NUL], tail);
      CutJoined(text, [NUL] + tail, g);
      Assoc(text[g..], [NUL], tail);
      CStringOfHead(text, g);
    } else {
      CutAt(text + [NUL], tail);
      CStringOfWhole(text);
    }
  }

  lemma CStringOfHead(text: string, g: nat)
    requires NoNul(text) && g <= |text|
    ensures CString(text[..g]) == text[..g]
  {
    hide CString;
    CStringIs(text[..g], g);
    assert text[..g][..g] == text[..g];
  }

  lemma CStringOfWhole(text: string)
    requires NoNul(text)
    ensures CString(text + [NUL]) == text
  {
    hide CString;
    CutAt(text, [NUL]);
    CStringIs(text + [NUL], |text|);
  }

  lemma Glue(text: string, g: nat, part: string)
    requires g <= |text| && part <= text[g..]
    ensures text[..g] + part <= text && (part == text[g..] ==> text[..g] + part == text)
  {
  }

  /** What a message of text of which `m` bytes come gives: at most the text, and all of it if it is read to
      its end. */
  ghost predicate PrintsPart(p: Payload, text: string, tail: string, m: nat, unbroken: bool) {
    && p.printed <= text
    && (p.Whole? ==> m > |text| && p.printed == text && |text| + 1 + |p.rest| == m && p.rest <= tail)
    && (unbroken && m > |text| ==> p.Whole?)
  }

  lemma PartGrows(p: Payload, text: string, tail: string, m: nat, g: nat, unbroken: bool)
    requires g <= |text| && g <= m && PrintsPart(p, text[g..], tail, m - g, unbroken)
    ensures PrintsPart(Prefixed(text[..g], p), text, tail, m, unbroken)
  {
    Glue(text, g, p.printed);
  }

  /** A message of text is printed up to where the connection is lost. */
  lemma {:induction false} PayloadPart(text: string, tail: string, m: nat, cuts: nat -> Cut, at: nat)
    requires NoNul(text) && m <= |text| + 1 + |tail|
    ensures PrintsPart(ReadPayload(|text| + 1, (text + [NUL] + tail)[..m], cuts, at), text, tail, m,
                       forall j :: cuts(j).Gives?)
    decreases |text|
  {
    hide CString, ReadPayload, PrintsPart, Min;
    var incoming := (text + [NUL] + tail)[..m];
    PayloadStep(|text| + 1, incoming, cuts, at);
    if cuts(at).Breaks? || incoming == "" {
      NothingPrinted(text, tail, m, incoming, cuts, at);
    } else {
      MinIs(BUFFER_SIZE, |text| + 1);
      var g := Got(cuts(at), Min(BUFFER_SIZE, |text| + 1), incoming);
      Chunk(text, tail, m, g);
      if g <= |text| {
        PayloadPart(text[g..], tail, m - g, cuts, at + 1);
        PartGrows(ReadPayload(|text[g..]| + 1, incoming[g..], cuts, at + 1), text, tail, m, g, forall j :: cuts(j).Gives?);
      } else {
        AllPrinted(text, tail, m, cuts, at + 1);
      }
    }
  }

  lemma MinIs(a: nat, b: nat)
    ensures Min(a, b) <= a && Min(a, b) <= b && (Min(a, b) == 0 <==> a == 0 || b == 0)
  {
  }

  lemma NothingPrinted(text: string, tail: string, m: nat, incoming: string, cuts: nat -> Cut, at: nat)
    requires |incoming| == m && (cuts(at).Breaks? || incoming == "")
    ensures PrintsPart(Lost("", incoming, at + 1), text, tail, m, forall j :: cuts(j).Gives?)
  {
  }

  lemma AllPrinted(text: string, tail: string, m: nat, cuts: nat -> Cut, at: nat)
    requires |text| < m <= |text| + 1 + |tail|
    ensures PrintsPart(Prefixed(text, ReadPayload(0, tail[..m - |text| - 1], cuts, at)), text, tail, m,
                       forall j :: cuts(j).Gives?)
  {
    Empty(text);
  }

  /** The data of a DISPLAY message give back its text, for all sizes of the reads. */
  lemma PayloadPrints(text: string, tail: string, cuts: nat -> Cut, at: nat)
    requires NoNul(text) && forall j :: cuts(j).Gives?
    ensures var p := ReadPayload(|text| + 1, text + [NUL] + tail, cuts, at);
            p.Whole? && p.printed == text && p.rest == tail
  {
    hide ReadPayload;
    var incoming := text + [NUL] + tail;
    PayloadPart(text, tail, |incoming|, cuts, at);
    CutAt(text + [NUL], tail);
  }

  /** No header is cut by the reads, when the output `outs` and then the status are received. */
  ghost predicate HeadersWhole(outs: seq<Out>, incoming: string, cuts: nat -> Cut, at: nat) {
    && cuts(at).Gives? && cuts(at).n >= HEADER
    && (outs != [] ==>
          && |incoming| >= HEADER
          && var p := ReadPayload(|outs[0].text| + 1, incoming[HEADER..], cuts, at + 1);
             p.Whole? && HeadersWhole(outs[1..], p.rest, cuts, p.at))
  }

  /** The whole reply to a command, with what is sent behind it left for the next call; or a failure with a
      part of the output printed. */
  ghost predicate Delivers(r: Reply, whole: bool, wait: int, texts: string, tail: string) {
    if whole then r.status == wait && r.printed == texts && r.rest == tail
    else r.status == -1 && r.printed <= texts
  }

  lemma DeliversBehind(r: Reply, whole: bool, wait: int, texts: string, tail: string, text: string)
    requires Delivers(r, whole, wait, texts, tail)
    ensures Delivers(Behind(text, r), whole, wait, text + texts, tail)
  {
  }

  lemma FailsBefore(rest: string, at: nat, wait: int, text: string, texts: string, tail: string)
    ensures Delivers(Reply(-1, "", rest, at), false, wait, text + texts, tail)
  {
  }

  /**
   The client undoes the framing of the daemon: whatever the number of the messages and the sizes of the
   reads, exactly the text of the output is printed, the caller gets the status, and what follows the EOC is
   left on the connection, neither less nor more. The one condition is that no header is cut; then the call
   fails with a part of the output printed.
   */
  lemma {:induction false} RoundTrip(outs: seq<Out>, status: int, pad: string, tail: string, cuts: nat -> Cut, at: nat)
    requires ValidOuts(outs) && IsInt(status) && |pad| == 8 && forall j :: cuts(j).Gives?
    ensures var wire := Wire(outs, status, pad) + tail;
            Delivers(Replies(wire, cuts, at), HeadersWhole(outs, wire, cuts, at), Encoded(status), Texts(outs), tail)
  {
    hide OutBytes, ReadPayload, Replies, Delivers, Encoded, ValidOut;
    if outs == [] {
      EocOnly(status, pad, tail, cuts, at);
    } else {
      var o, body := outs[0], Wire(outs[1..], status, pad) + tail;
      Assoc(OutBytes(o), Wire(outs[1..], status, pad), tail);
      DisplayFirst(o, body, cuts, at);
      var p := ReadPayload(|o.text| + 1, o.text + [NUL] + body, cuts, at + 1);
      RoundTrip(outs[1..], status, pad, tail, cuts, p.at);
      DeliversBehind(Replies(body, cuts, p.at), HeadersWhole(outs[1..], body, cuts, p.at), Encoded(status),
                    Texts(outs[1..]), tail, o.text);
      var wire := OutBytes(o) + body;
      FailsBefore(wire[Taken(cuts(at), wire)..], at + 1, Encoded(status), o.text, Texts(outs[1..]), tail);
    }
  }

  lemma EocOnly(status: int, pad: string, tail: string, cuts: nat -> Cut, at: nat)
    requires IsInt(status) && |pad| == 8 && cuts(at).Gives?
    ensures Delivers(Replies(Wire([], status, pad) + tail, cuts, at), HeadersWhole([], Wire([], status, pad) + tail, cuts, at),
                    Encoded(status), Texts([]), tail)
  {
    hide Unpack, Pack, Replies;
    var f := Fields(TYPE_EOC, 0, status);
    var wire := Pack(f, pad) + tail;
    CutAt(Pack(f, pad), tail);
    UnpackOfPack(f, pad);
    if Taken(cuts(at), wire) == HEADER {
      EndStep(wire, cuts, at);
    } else {
      HeaderCut(wire, cuts, at);
    }
  }

  /** The first message is a DISPLAY. */
  lemma DisplayFirst(o: Out, body: string, cuts: nat -> Cut, at: nat)
    requires ValidOut(o) && forall j :: cuts(j).Gives?
    ensures var wire, p := OutBytes(o) + body, ReadPayload(|o.text| + 1, o.text + [NUL] + body, cuts, at + 1);
            && |wire| >= HEADER && wire[HEADER..] == o.text + [NUL] + body
            && p.Whole? && p.printed == o.text && p.rest == body
            && Replies(wire, cuts, at) ==
               if cuts(at).n < HEADER then Reply(-1, "", wire[Taken(cuts(at), wire)..], at + 1)
               else Behind(o.text, Replies(body, cuts, p.at))
  {
    hide Unpack, ReadPayload, Replies, OutBytes;
    var wire := OutBytes(o) + body;
    HeaderOfOut(o, body, |wire|);
    CutAt(OutBytes(o), body);
    CutAt(o.text + [NUL], body);
    PayloadPrints(o.text, body, cuts, at + 1);
    if cuts(at).n < HEADER {
      HeaderCut(wire, cuts, at);
    } else {
      DisplayStep(wire, cuts, at);
    }
  }

  /** A refusal of the daemon, or any message that is not expected, is an error for the caller; nothing is printed,
      whatever the length told, and the connection can be used. */
  lemma Refused(kind: int, length: nat, unset: int, pad: string, tail: string, cuts: nat -> Cut, at: nat)
    requires kind != TYPE_DISPLAY && kind != TYPE_EOC
    requires IsInt(kind) && IsSize(length) && IsInt(unset) && |pad| == 8
    ensures var r := Replies(Pack(Fields(kind, length, unset), pad) + tail, cuts, at);
            && r.status == -1 && r.printed == ""
            && (cuts(at).Gives? && cuts(at).n >= HEADER ==> r.rest == tail)
  {
    hide Unpack, Pack;
    var f, wire := Fields(kind, length, unset), Pack(Fields(kind, length, unset), pad) + tail;
    CutAt(Pack(f, pad), tail);
    UnpackOfPack(f, pad);
  }

  // ------------------------------------------------------------------ calls one after the other

  /** What a call is answered: the output in pieces and the status of its command, or a refusal. */
  datatype Served =
    | Served(outs: seq<Out>, status: int, pad: string)
    | Turned(kind: int, unset: int, pad: string)

  predicate ValidServed(v: Served) {
    match v
    case Served(outs, status, pad) => ValidOuts(outs) && IsInt(status) && |pad| == 8
    case Turned(kind, unset, pad) => (kind == TYPE_BUSY || kind == TYPE_OOM) && IsInt(unset) && |pad| == 8
  }

  function Sends(v: Served): string
    requires ValidServed(v)
  {
    match v
    case Served(outs, status, pad) => Wire(outs, status, pad)
    case Turned(kind, unset, pad) => Pack(Fields(kind, 0, unset), pad)
  }

  /** What the caller must get. */
  function StatusOf(v: Served): int {
    if v.Served? then Encoded(v.status) else -1
  }

  function TextOf(v: Served): string {
    if v.Served? then Texts(v.outs) else ""
  }

  ghost predicate WholeHeaders(v: Served, incoming: string, cuts: nat -> Cut, at: nat) {
    HeadersWhole(if v.Served? then v.outs else [], incoming, cuts, at)
  }

  /** What the daemon sends for calls one after the other. */
  function Wires(vs: seq<Served>): string
    requires forall i :: 0 <= i < |vs| ==> ValidServed(vs[i])
  {
    if vs == [] then "" else Sends(vs[0]) + Wires(vs[1..])
  }

  /** `n` calls of rsystem() on one connection, each on what the one before has left. */
  function Calls(n: nat, incoming: string, cuts: nat -> Cut, at: nat): (rs: seq<Reply>)
    ensures |rs| == n
  {
    if n == 0 then []
    else
      var r := Replies(incoming, cuts, at);
      [r] + Calls(n - 1, r.rest, cuts, r.at)
  }

  /** How many calls, from the first, have no header cut. */
  ghost function WholeCalls(vs: seq<Served>, incoming: string, cuts: nat -> Cut, at: nat): (k: nat)
    ensures k <= |vs|
  {
    if vs == [] || !WholeHeaders(vs[0], incoming, cuts, at) then 0
    else
      var r := Replies(incoming, cuts, at);
      1 + WholeCalls(vs[1..], r.rest, cuts, r.at)
  }

  /** On one connection each call gets the output and the status of its own command, or its refusal, up to
      the first one with a header cut by a read; and that one fails. */
  lemma {:induction false} CallsAnswered(vs: seq<Served>, tail: string, cuts: nat -> Cut, at: nat)
    requires (forall i :: 0 <= i < |vs| ==> ValidServed(vs[i])) && forall j :: cuts(j).Gives?
    ensures var incoming := Wires(vs) + tail;
            var rs, k := Calls(|vs|, incoming, cuts, at), WholeCalls(vs, incoming, cuts, at);
            && (forall i :: 0 <= i < k ==> rs[i].status == StatusOf(vs[i]) && rs[i].printed == TextOf(vs[i]))
            && (if k < |vs| then rs[k].status == -1 && rs[k].printed <= TextOf(vs[k])
                else vs != [] ==> rs[k - 1].rest == tail)
  {
    hide Replies, WholeHeaders, Sends, StatusOf, TextOf, ValidServed;
    if vs != [] {
      var v, incoming := vs[0], Wires(vs) + tail;
      Assoc(Sends(v), Wires(vs[1..]), tail);
      FirstCall(v, Wires(vs[1..]) + tail, cuts, at);
      var r := Replies(incoming, cuts, at);
      if WholeHeaders(v, incoming, cuts, at) {
        CallsAnswered(vs[1..], tail, cuts, r.at);
        var rs := Calls(|vs| - 1, r.rest, cuts, r.at);
        assert Calls(|vs|, incoming, cuts, at) == [r] + rs;
        assert forall i :: 1 <= i < |vs| ==> ([r] + rs)[i] == rs[i - 1] && vs[i] == vs[1..][i - 1];
      }
    }
  }

  lemma FirstCall(v: Served, tail: string, cuts: nat -> Cut, at: nat)
    requires ValidServed(v) && forall j :: cuts(j).Gives?
    ensures var wire := Sends(v) + tail;
            Delivers(Replies(wire, cuts, at), WholeHeaders(v, wire, cuts, at), StatusOf(v), TextOf(v), tail)
  {
    hide Wire, Pack, Replies, Encoded, Texts, ValidOuts;
    match v {
      case Served(outs, status, pad) =>
        hide HeadersWhole, Delivers;
        RoundTrip(outs, status, pad, tail, cuts, at);
      case Turned(kind, unset, pad) => Refused(kind, 0, unset, pad, tail, cuts, at);
    }
  }

  // ------------------------------------------------------------------ connections that are lost

  /** A head of the output, and a status other than -1 only behind all of it. */
  ghost predicate Faithful(r: Reply, wait: int, texts: string) {
    r.printed <= texts && (r.status != -1 ==> r.status == wait && r.printed == texts)
  }

  lemma FaithfulBehind(r: Reply, wait: int, texts: string, text: string)
    requires Faithful(r, wait, texts)
    ensures Faithful(Behind(text, r), wait, text + texts)
  {
  }

  lemma FaithfulLost(printed: string, rest: string, at: nat, wait: int, text: string, texts: string)
    requires printed <= text
    ensures Faithful(Reply(-1, printed, rest, at), wait, text + texts)
  {
  }

  /** Whatever is lost of the connection and however its reads go, nothing but the head of the output is
      printed, and a status other than -1 is the one of the command, behind its whole output. */
  lemma {:induction false} NothingInvented(outs: seq<Out>, status: int, pad: string, m: nat, cuts: nat -> Cut, at: nat)
    requires ValidOuts(outs) && IsInt(status) && |pad| == 8 && m <= |Wire(outs, status, pad)|
    ensures var r := Replies(Wire(outs, status, pad)[..m], cuts, at);
            && r.printed <= Texts(outs)
            && (r.status != -1 ==> r.status == Encoded(status) && r.printed == Texts(outs))
  {
    hide Pack, Unpack, ReadPayload, Replies, Encoded, OutBytes, Taken, ValidOut, Faithful;
    var incoming := Wire(outs, status, pad)[..m];
    if Taken(cuts(at), incoming) != HEADER {
      HeaderCut(incoming, cuts, at);
    } else if outs == [] {
      CutAt(Pack(Fields(TYPE_EOC, 0, status), pad), "");
      assert incoming[..HEADER] == Pack(Fields(TYPE_EOC, 0, status), pad);
      UnpackOfPack(Fields(TYPE_EOC, 0, status), pad);
      EndStep(incoming, cuts, at);
    } else {
      var body := Wire(outs[1..], status, pad);
      forall m': nat, at': nat | m' <= |body| ensures Faithful(Replies(body[..m'], cuts, at'), Encoded(status), Texts(outs[1..])) {
        NothingInvented(outs[1..], status, pad, m', cuts, at');
        IsFaithful(Replies(body[..m'], cuts, at'), Encoded(status), Texts(outs[1..]));
      }
      DisplayLost(outs[0], body, m, cuts, at, Encoded(status), Texts(outs[1..]));
      FaithfulIs(Replies(incoming, cuts, at), Encoded(status), outs[0].text + Texts(outs[1..]));
    }
  }

  lemma IsFaithful(r: Reply, wait: int, texts: string)
    requires r.printed <= texts && (r.status != -1 ==> r.status == wait && r.printed == texts)
    ensures Faithful(r, wait, texts)
  {
  }

  lemma FaithfulIs(r: Reply, wait: int, texts: string)
    requires Faithful(r, wait, texts)
    ensures r.printed <= texts && (r.status != -1 ==> r.status == wait && r.printed == texts)
  {
  }

  /** A DISPLAY message on a connection lost after `m` bytes, with any such end behind it. */
  lemma DisplayLost(o: Out, body: string, m: nat, cuts: nat -> Cut, at: nat, wait: int, texts: string)
    requires ValidOut(o) && m <= |OutBytes(o) + body| && Taken(cuts(at), (OutBytes(o) + body)[..m]) == HEADER
    requires forall m': nat, at': nat | m' <= |body| :: Faithful(Replies(body[..m'], cuts, at'), wait, texts)
    ensures Faithful(Replies((OutBytes(o) + body)[..m], cuts, at), wait, o.text + texts)
  {
    hide Pack, Unpack, ReadPayload, Replies, OutBytes, Faithful, CString;
    var incoming := (OutBytes(o) + body)[..m];
    HeaderOfOut(o, body, m);
    PayloadPart(o.text, body, m - HEADER, cuts, at + 1);
    var p := ReadPayload(|o.text| + 1, incoming[HEADER..], cuts, at + 1);
    DisplayStep(incoming, cuts, at);
    if p.Whole? {
      assert p.rest == body[..|p.rest|];
      FaithfulBehind(Replies(p.rest, cuts, p.at), wait, texts, o.text);
    } else {
      FaithfulLost(p.printed, p.rest, p.at, wait, o.text, texts);
    }
  }

  lemma HeaderOfOut(o: Out, body: string, m: nat)
    requires ValidOut(o) && HEADER <= m <= |OutBytes(o) + body|
    ensures var s := (OutBytes(o) + body)[..m];
            && Unpack(s[..HEADER]) == Fields(TYPE_DISPLAY, |o.text| + 1, o.unset)
            && s[HEADER..] == (o.text + [NUL] + body)[..m - HEADER]
  {
    hide Pack, Unpack;
    var f := Fields(TYPE_DISPLAY, |o.text| + 1, o.unset);
    PrefixCut(OutBytes(o) + body, m, HEADER);
    Assoc(Pack(f, o.pad), o.text + [NUL], body);
    CutAt(Pack(f, o.pad), o.text + [NUL] + body);
    UnpackOfPack(f, o.pad);
  }
}
