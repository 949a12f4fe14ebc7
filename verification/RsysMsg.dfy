/** Messages between the daemon and its clients, as bytes on the socket (64-bit little-endian layout). */
module RsysMsg {
  import opened Bytes

  const TYPE_DISPLAY := 1
  const TYPE_EOC := 2
  const TYPE_BUSY := 3
  const TYPE_OOM := 4
  const HEADER := 24

  predicate IsInt(n: int) {
    -0x8000_0000 <= n < 0x8000_0000
  }

  predicate IsSize(n: nat) {
    n < 0x1_0000_0000_0000_0000
  }

  function Power(w: nat): (p: nat)
    ensures p > 0
  {
    if w == 0 then 1 else 256 * Power(w - 1)
  }

  /** `w` bytes of a number, the lowest first. */
  function Word(n: nat, w: nat): (s: string)
    ensures |s| == w
  {
    if w == 0 then "" else [(n % 256) as char] + Word(n / 256, w - 1)
  }

  function Value(s: string): nat {
    if s == "" then 0 else (s[0] as int) % 256 + 256 * Value(s[1..])
  }

  lemma {:induction false} ValueOfWord(n: nat, w: nat)
    requires n < Power(w)
    ensures Value(Word(n, w)) == n
  {
    if w > 0 {
      assert n / 256 < Power(w - 1);
      ValueOfWord(n / 256, w - 1);
      assert Word(n, w)[1..] == Word(n / 256, w - 1);
    }
  }

  /** An int in two's complement, and back. */
  function Unsigned(n: int): nat
    requires IsInt(n)
  {
    if n < 0 then n + 0x1_0000_0000 else n
  }

  function Signed(u: nat): int {
    if u < 0x8000_0000 then u else u - 0x1_0000_0000
  }

  /** Fields of rsys_msg_t. */
  datatype Fields = Fields(kind: int, length: nat, status: int)

  /** The bytes of the structure: the fields, and padding that nobody sets. */
  function Pack(f: Fields, pad: string): (s: string)
    requires IsInt(f.kind) && IsSize(f.length) && IsInt(f.status) && |pad| == 8
    ensures |s| == HEADER
  {
    Word(Unsigned(f.kind), 4) + pad[..4] + Word(f.length, 8) + Word(Unsigned(f.status), 4) + pad[4..]
  }

  function Unpack(s: string): Fields
    requires |s| == HEADER
  {
    Fields(Signed(Value(s[..4])), Value(s[8..16]), Signed(Value(s[16..20])))
  }

  lemma Powers()
    ensures Power(4) == 0x1_0000_0000 && Power(8) == 0x1_0000_0000_0000_0000
  {
  }

  /** The receiver of a header gets the fields that the sender has set, whatever the padding. */
  lemma UnpackOfPack(f: Fields, pad: string)
    requires IsInt(f.kind) && IsSize(f.length) && IsInt(f.status) && |pad| == 8
    ensures Unpack(Pack(f, pad)) == f
  {
    var s := Pack(f, pad);
    assert s[..4] == Word(Unsigned(f.kind), 4) && s[8..16] == Word(f.length, 8) && s[16..20] == Word(Unsigned(f.status), 4);
    Powers();
    ValueOfWord(Unsigned(f.kind), 4);
    ValueOfWord(f.length, 8);
    ValueOfWord(Unsigned(f.status), 4);
  }

  /** The byte number `k` of a number, the lowest first. */
  function ByteAt(n: nat, k: nat): nat {
    if k == 0 then n % 256 else ByteAt(n / 256, k - 1)
  }

  lemma {:induction false} WordAt(n: nat, w: nat, k: nat)
    requires k < w
    ensures Word(n, w)[k] as int == ByteAt(n, k)
  {
    if k > 0 {
      WordAt(n / 256, w - 1, k - 1);
    }
  }

  /** Where each field stands in the 24 bytes: the type at 0, the length at 8, the status at 16. */
  lemma HeaderBytes(f: Fields, pad: string)
    requires IsInt(f.kind) && IsSize(f.length) && IsInt(f.status) && |pad| == 8
    ensures var s := Pack(f, pad);
            && (forall k :: 0 <= k < 4 ==> s[k] as int == ByteAt(Unsigned(f.kind), k))
            && (forall k :: 0 <= k < 8 ==> s[8 + k] as int == ByteAt(f.length, k))
            && (forall k :: 0 <= k < 4 ==> s[16 + k] as int == ByteAt(Unsigned(f.status), k))
  {
    hide Word, ByteAt, Unsigned;
    forall k | 0 <= k < 4
      ensures Word(Unsigned(f.kind), 4)[k] as int == ByteAt(Unsigned(f.kind), k)
      ensures Word(Unsigned(f.status), 4)[k] as int == ByteAt(Unsigned(f.status), k) {
      WordAt(Unsigned(f.kind), 4, k);
      WordAt(Unsigned(f.status), 4, k);
    }
    forall k | 0 <= k < 8 ensures Word(f.length, 8)[k] as int == ByteAt(f.length, k) { WordAt(f.length, 8, k); }
  }

  /** A sending socket; the write of number `at` accepts at most accepts(at) bytes, or fails (None). */
  class Sender {
    var sent: string
    var at: nat
    const accepts: nat -> Option<nat>

    constructor (accepts: nat -> Option<nat>)
      ensures this.accepts == accepts && sent == "" && at == 0
    {
      this.accepts := accepts;
      sent, at := "", 0;
    }

    /** write() */
    method Write(data: string) returns (rc: int)
      modifies this
      ensures at == old(at) + 1 && if accepts(old(at)).Some? then 0 <= rc <= |data| else rc == -1
      ensures sent == old(sent) + if rc == -1 then "" else data[..rc]
      ensures accepts(old(at)).Some? && accepts(old(at)).value >= |data| ==> rc == |data|
    {
      match accepts(at) {
        case None =>
          rc := -1;
          Empty(sent);
        case Some(k) =>
          rc := if k < |data| then k else |data|;
          sent := sent + data[..rc];
      }
      at := at + 1;
    }

    /** rsys_send_msg() and rsys_send_eoc(): a header alone; `f` has what the caller does not set too. */
    method SendHeader(f: Fields, pad: string) returns (rc: int, ghost k: nat)
      requires IsInt(f.kind) && IsSize(f.length) && IsInt(f.status) && |pad| == 8
      modifies this
      ensures k <= HEADER && sent == old(sent) + Pack(f, pad)[..k] && rc == if k == HEADER then 0 else -1
      ensures at == old(at) + 1
      ensures accepts(old(at)).Some? && accepts(old(at)).value >= HEADER ==> rc == 0
    {
      var n := Write(Pack(f, pad));
      k := if n == -1 then 0 else n;
      rc := if n != HEADER then -1 else 0;
      assert Pack(f, pad)[..0] == "";
    }

    /** rsys_send_msg_data(): the header, then the data. Either everything is written, or a part and -1. */
    method SendData(kind: int, data: string, unset: int, pad: string) returns (rc: int, ghost k: nat)
      requires IsInt(kind) && IsSize(|data|) && IsInt(unset) && |pad| == 8
      modifies this
      ensures k <= HEADER + |data|
      ensures sent == old(sent) + (Pack(Fields(kind, |data|, unset), pad) + data)[..k]
      ensures data != "" ==> (rc == 0 <==> k == HEADER + |data|)
      ensures rc == if k == HEADER + |data| && at == old(at) + 2 && (data == "" ==> accepts(old(at) + 1).Some?) then 0 else -1
    {
      var header := Pack(Fields(kind, |data|, unset), pad);
      rc, k := SendHeader(Fields(kind, |data|, unset), pad);
      assert (header + data)[..k] == header[..k];
      if rc == 0 {
        var n := Write(data);
        Prefixes(header, data, if n == -1 then 0 else n);
        k := HEADER + if n == -1 then 0 else n;
        rc := if n != |data| then -1 else 0;
      }
    }
  }

  lemma Prefixes(a: string, b: string, n: nat)
    requires n <= |b|
    ensures (a + b)[..|a| + n] == a[..|a|] + b[..n] && a[..|a|] == a
  {
  }
}
