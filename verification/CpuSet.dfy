/** The bitmaps of CPUs of the library: one bit for each CPU, eight of them in a byte. */
module CpuSet {

  /** 1 << k */
  function Mask(k: nat): bv8
    requires k < 8
  {
    match k
    case 0 => 1
    case 1 => 2
    case 2 => 4
    case 3 => 8
    case 4 => 16
    case 5 => 32
    case 6 => 64
    case 7 => 128
  }

  predicate Bit(b: bv8, k: nat)
    requires k < 8
  {
    b & Mask(k) != 0
  }

  lemma OrBit(b: bv8, k: nat, j: nat)
    requires k < 8 && j < 8
    ensures Bit(b | Mask(k), j) <==> j == k || Bit(b, j)
  {
  }

  /** Number of bytes of a bitmap for `nb` CPUs. */
  function Size(nb: nat): nat {
    (nb + 7) / 8
  }

  predicate IsSet(cpu: seq<bv8>, nb: nat, n: nat)
    requires |cpu| == Size(nb)
  {
    n < nb && Bit(cpu[n / 8], n % 8)
  }

  /** The CPUs of a bitmap, as pdip_cpu_isset() tells them. */
  function Cpus(cpu: seq<bv8>, nb: nat): set<nat>
    requires |cpu| == Size(nb)
  {
    set n: nat | n < nb && IsSet(cpu, nb, n)
  }

  predicate InSpan(n: nat, a: nat, b: nat) {
    a <= n < b
  }

  function Span(a: nat, b: nat): set<nat> {
    set n: nat | n < b && InSpan(n, a, b)
  }

  function All(nb: nat): set<nat> {
    Span(0, nb)
  }

  /** The CPUs from `a` to `b`. */
  function Interval(a: nat, b: nat): set<nat> {
    Span(a, b + 1)
  }

  /** pdip_cpu_alloc() */
  method Alloc(nb: nat) returns (cpu: array<bv8>)
    ensures fresh(cpu) && cpu.Length == Size(nb) && Cpus(cpu[..], nb) == {}
  {
    cpu := new bv8[Size(nb)];
    Fill(cpu, nb, 0);
    assert forall n :: 0 <= n < cpu.Length ==> cpu[n] == 0;
  }

  /** memset() of the whole bitmap */
  method Fill(cpu: array<bv8>, nb: nat, b: bv8)
    requires cpu.Length == Size(nb)
    modifies cpu
    ensures forall i :: 0 <= i < cpu.Length ==> cpu[i] == b
  {
    var i := 0;
    while i < cpu.Length
      invariant i <= cpu.Length && forall j :: 0 <= j < i ==> cpu[j] == b
    {
      cpu[i] := b;
      i := i + 1;
    }
  }

  /** pdip_cpu_zero() */
  method Zero(cpu: array<bv8>, nb: nat)
    requires cpu.Length == Size(nb)
    modifies cpu
    ensures Cpus(cpu[..], nb) == {}
  {
    Fill(cpu, nb, 0);
  }

  /** pdip_cpu_all() */
  method SetAll(cpu: array<bv8>, nb: nat)
    requires cpu.Length == Size(nb)
    modifies cpu
    ensures Cpus(cpu[..], nb) == All(nb)
  {
    Fill(cpu, nb, 0xFF);
    forall n: nat | n < nb ensures IsSet(cpu[..], nb, n) {
      assert cpu[..][n / 8] == 0xFF;
      FullBit(n % 8);
    }
  }

  lemma FullBit(k: nat)
    requires k < 8
    ensures Bit(0xFF, k)
  {
  }

  /** pdip_cpu_set(); EINVAL outside the CPUs */
  method Set(cpu: array<bv8>, nb: nat, n: nat) returns (rc: int)
    requires cpu.Length == Size(nb)
    modifies cpu
    ensures rc == (if n < nb then 0 else -1)
    ensures Cpus(cpu[..], nb) == old(Cpus(cpu[..], nb)) + if n < nb then {n} else {}
  {
    if n >= nb {
      return -1;
    }
    ghost var was := cpu[..];
    cpu[n / 8] := cpu[n / 8] | Mask(n % 8);
    forall m: nat | m < nb ensures IsSet(cpu[..], nb, m) == (m == n || IsSet(was, nb, m)) {
      assert m / 8 == n / 8 && m % 8 == n % 8 ==> m == n;
      OrBit(was[n / 8], n % 8, m % 8);
    }
    rc := 0;
  }
}
