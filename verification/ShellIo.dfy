/**
 The daemon reading one of its shells: the three ways to take what pdip_recv() gives, in the display
 buffer of the shell where a NUL is put in the place of the prompt, and the messages made of it.
 */
module ShellIo {
  import opened Bytes
  import opened StreamSpec
  import opened Prompt
  import opened Framing
  import opened Decimal
  import opened Terminal
  import opened PdipLib
  import opened RsysMsg
  import D = DaemonSpec
  import R = Rsystem

  class ShellReader {
    const pdip: PdipCtx
    const display: UserBuffer
    const socket: Sender      // the socket of the client
    var status: int

    constructor (pdip: PdipCtx, display: UserBuffer, socket: Sender)
      ensures this.pdip == pdip && this.display == display && this.socket == socket && status == -1
    {
      this.pdip, this.display, this.socket, status := pdip, display, socket, -1;
    }

    ghost predicate Valid()
      reads this, pdip, display, pdip.outstanding, pdip.pty
    {
      && pdip.Valid() && display.Honest() && display.Coherent()
      && pdip.onFlow && pdip.pty != null && pdip.pty.Valid()
      && (display.display != null ==> display.display != pdip.outstanding)
    }

    /** pdip_recv() with the prompt, without timeout. */
    method Receive() returns (res: Step, ghost evs: seq<ReadEvent>)
      requires Valid()
      modifies pdip, display, pdip.pty, pdip.outstanding, display.display
      ensures Valid() && display.Valid() && pdip.Owned(display) && res != Again
      ensures pdip.pty == old(pdip.pty) && pdip.pty.log == old(pdip.pty.log) + evs
      ensures Framing.Receive(D.PROMPT, old(pdip.Outstanding()), evs) ==
              if res.Return? then Done(res.rc, display.Text(), pdip.Outstanding(), []) else Waiting(pdip.Outstanding())
      ensures res.Return? ==> |display.Text()| <= old(Volume(pdip))
    {
      ghost var out, log, script := pdip.Outstanding(), pdip.pty.log, pdip.pty.script;
      res, evs := pdip.Recv(display, Some(PromptRegex(D.PROMPT)), false);
      Enough(PromptRegex(D.PROMPT), false, out, evs, log, script, pdip.pty.script);
    }

    /** A DISPLAY message of the first `n` characters of the display and the NUL behind them. */
    method SendText(n: nat, unset: int, pad: string) returns (ok: bool, ghost k: nat)
      requires display.display != null && n < display.display.Length && display.display[n] == NUL
      requires NoNul(display.display[..n]) && IsSize(n + 1) && IsInt(unset) && |pad| == 8
      modifies socket
      ensures var bytes := R.OutBytes(R.Out(display.display[..n], unset, pad));
              k <= |bytes| && socket.sent == old(socket.sent) + bytes[..k] && ok == (k == |bytes|)
    {
      var data := display.display[..n + 1];
      assert data == display.display[..n] + [NUL];
      var rc;
      rc, k := socket.SendData(TYPE_DISPLAY, data, unset, pad);
      ok := rc == 0;
    }

    /** What rsysd_read_shell_display() does of the display: the text goes to the client, all of it or a part. */
    method TakeDisplay(rc: RecvCode, unset: int, pad: string)
      returns (code: D.ReadCode, ok: bool, ghost k: nat)
      requires display.Valid() && IsSize(|display.Text()| + 1) && IsInt(unset) && |pad| == 8
      modifies socket, display.display
      ensures display.Honest()
      ensures var r := D.ReadDisplay(rc, old(display.Text()), ok);
              && code == r.code
              && (r.text == None ==> socket.sent == old(socket.sent))
              && (r.text.Some? ==>
                    && R.ValidOut(R.Out(r.text.value, unset, pad))
                    && var bytes := R.OutBytes(R.Out(r.text.value, unset, pad));
                       k <= |bytes| && socket.sent == old(socket.sent) + bytes[..k] && ok == (k == |bytes|))
    {
      hide R.OutBytes;
      ok, k := true, 0;
      match rc {
        case Found =>
          if display.dataSz < |D.PROMPT| {
            return D.ReadError, ok, k;
          }
          var n := display.dataSz - |D.PROMPT|;
          ghost var data := display.Text();
          if n > 0 {
            if display.display[n - 1] != '\n' {
              return D.ReadError, ok, k;
            }
            display.display[n] := NUL;
            assert display.display[..n] == data[..n];
            assert forall c :: c in data[..n] ==> c in data;
            ok, k := SendText(n, unset, pad);
          }
          code := if ok then D.PromptSeen else D.ReadError;
        case Data =>
          if display.dataSz > 0 {
            ok, k := SendText(display.dataSz, unset, pad);
          }
          code := if ok then D.MoreToCome else D.ReadError;
        case Abort => code := D.Crash;
        case _ => code := D.ReadError;
      }
    }

    /** rsysd_read_shell_display(): from the bytes of the shell to the bytes sent to the client. */
    method ReadDisplay(unset: int, pad: string) returns (code: Option<D.ReadCode>, ok: bool, ghost k: nat, ghost evs: seq<ReadEvent>)
      requires Valid() && IsSize(Volume(pdip) + 1) && IsInt(unset) && |pad| == 8
      modifies pdip, display, pdip.pty, pdip.outstanding, display.display, socket
      ensures Valid() && pdip.pty == old(pdip.pty) && pdip.pty.log == old(pdip.pty.log) + evs
      ensures match Framing.Receive(D.PROMPT, old(pdip.Outstanding()), evs)
              case Waiting(kept) => code == None && pdip.Outstanding() == kept && socket.sent == old(socket.sent)
              case Done(rc, data, kept, rest) =>
                var r := D.ReadDisplay(rc, data, ok);
                && code == Some(r.code) && pdip.Outstanding() == kept && rest == []
                && (r.text == None ==> socket.sent == old(socket.sent))
                && (r.text.Some? ==>
                      && R.ValidOut(R.Out(r.text.value, unset, pad))
                      && var bytes := R.OutBytes(R.Out(r.text.value, unset, pad));
                         k <= |bytes| && socket.sent == old(socket.sent) + bytes[..k] && ok == (k == |bytes|))
    {
      hide Framing.Receive, D.ReadDisplay, R.OutBytes, R.ValidOut;
      var res;
      res, evs := Receive();
      ok, k := true, 0;
      match res {
        case Return(rc) =>
          var c;
          c, ok, k := TakeDisplay(rc, unset, pad);
          code := Some(c);
        case _ => code := None;
      }
    }

    /** What rsysd_read_shell_status() does of the display. */
    method TakeStatus(rc: RecvCode) returns (code: D.ReadCode)
      requires display.Valid()
      modifies this`status, display.display
      ensures display.Honest()
      ensures D.ReadStatus(rc, old(display.Text()), old(status)) == D.StatusRead(code, status)
    {
      match rc {
        case Found =>
          if display.dataSz > |D.PROMPT| + 1 {
            code := Number(display.dataSz - |D.PROMPT| - 1);
            if code == D.MoreToCome { code := D.PromptSeen; }
          } else {
            code := if display.dataSz == |D.PROMPT| then D.PromptSeen else D.Crash;
          }
        case Data => code := if display.dataSz == 0 then D.Crash else D.MoreToCome;
          if display.dataSz > 0 {
            code := Number(display.dataSz - 1);
          }
        case Abort => code := D.Crash;
        case _ => code := D.ReadError;
      }
    }

    /** The number before the newline that must be at `n`. */
    method Number(n: nat) returns (code: D.ReadCode)
      requires display.Valid() && n < display.dataSz
      modifies this`status, display.display
      ensures display.Honest()
      ensures var data := old(display.Text());
              if data[n] != '\n' then code == D.ReadError && status == old(status)
              else code == D.MoreToCome && status == Atoi(data[..n])
    {
      ghost var data := display.Text();
      if display.display[n] != '\n' {
        return D.ReadError;
      }
      display.display[n] := NUL;
      var digits := Terminated(display.display, n);
      assert display.display[..n] == data[..n];
      assert forall c :: c in data[..n] ==> c in data;
      CStringIs(data[..n], n);
      assert data[..n][..n] == data[..n];
      status := Atoi(digits);
      code := D.MoreToCome;
    }

    /** rsysd_read_shell_status() */
    method ReadStatus() returns (code: Option<D.ReadCode>, ghost evs: seq<ReadEvent>)
      requires Valid()
      modifies this`status, pdip, display, pdip.pty, pdip.outstanding, display.display
      ensures Valid() && pdip.pty == old(pdip.pty) && pdip.pty.log == old(pdip.pty.log) + evs
      ensures match Framing.Receive(D.PROMPT, old(pdip.Outstanding()), evs)
              case Waiting(kept) => code == None && pdip.Outstanding() == kept && status == old(status)
              case Done(rc, data, kept, rest) =>
                && pdip.Outstanding() == kept && rest == [] && code.Some?
                && D.ReadStatus(rc, data, old(status)) == D.StatusRead(code.value, status)
    {
      hide Framing.Receive, D.ReadStatus;
      var res;
      res, evs := Receive();
      match res {
        case Return(rc) =>
          var c := TakeStatus(rc);
          code := Some(c);
        case _ => code := None;
      }
    }

    /** rsysd_flush_shell_display() */
    method FlushDisplay() returns (code: Option<D.ReadCode>, ghost evs: seq<ReadEvent>)
      requires Valid()
      modifies pdip, display, pdip.pty, pdip.outstanding, display.display
      ensures Valid() && pdip.pty == old(pdip.pty) && pdip.pty.log == old(pdip.pty.log) + evs
      ensures match Framing.Receive(D.PROMPT, old(pdip.Outstanding()), evs)
              case Waiting(kept) => code == None && pdip.Outstanding() == kept
              case Done(rc, _, kept, rest) => code == Some(D.ReadFlush(rc)) && pdip.Outstanding() == kept && rest == []
    {
      hide Framing.Receive;
      var res;
      res, evs := Receive();
      match res {
        case Return(Found) => code := Some(D.PromptSeen);
        case Return(Data) => code := Some(D.MoreToCome);
        case Return(Abort) => code := Some(D.Crash);
        case Return(_) => code := Some(D.ReadError);
        case _ => code := None;
      }
    }
  }
}
