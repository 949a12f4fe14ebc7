/** The option that gives the shells and their CPUs: lists separated by colons, one for each shell. */
module Affinity {
  import opened Bytes
  import opened Decimal
  import opened CpuSet

  const WORD := 0x1_0000_0000

  /** Value of the digits at the head of `t`, in an unsigned int. */
  function NumberValue(t: string, acc: nat): nat {
    if t != "" && IsDigit(t[0]) then NumberValue(t[1..], (acc * 10 + (t[0] as int - '0' as int)) % WORD) else acc
  }

  function NumberRest(t: string): (u: string)
    ensures |u| <= |t| && (t != "" && IsDigit(t[0]) ==> |u| < |t|) && (u != "" ==> !IsDigit(u[0]))
  {
    if t != "" && IsDigit(t[0]) then NumberRest(t[1..]) else t
  }

  /** A number too big stands for the last CPU. */
  function Clamp(n: nat, nb: nat): nat
    requires nb > 0
  {
    if n >= nb then nb - 1 else n
  }

  /** The states: a new field, behind a number, behind a dash. */
  datatype Mode = Field | AfterNumber(start: nat) | AfterDash(start: nat)

  /** The outcome, what is left of the text, the CPUs set. */
  datatype Parsed = Parsed(ok: bool, left: string, cpus: set<nat>)

  predicate AtEnd(t: string) {
    t == "" || t[0] == ':'
  }

  function Parse(mode: Mode, t: string, nb: nat, cpus: set<nat>): Parsed
    requires nb > 0
    decreases |t|
  {
    match mode
    case Field =>
      if AtEnd(t) then Parsed(true, t, All(nb))
      else if IsDigit(t[0]) then Parse(AfterNumber(Clamp(NumberValue(t, 0), nb)), NumberRest(t), nb, cpus)
      else if t[0] == '-' then Parse(AfterDash(0), t[1..], nb, cpus)
      else if t[0] == ',' then Parse(Field, t[1..], nb, All(nb))
      else Parsed(false, t, cpus)
    case AfterNumber(start) =>
      if AtEnd(t) then Parsed(true, t, cpus + {start})
      else if t[0] == ',' then Parse(Field, t[1..], nb, cpus + {start})
      else if t[0] == '-' then Parse(AfterDash(start), t[1..], nb, cpus)
      else Parsed(false, t, cpus)
    case AfterDash(start) =>
      if AtEnd(t) then Parsed(true, t, cpus + Interval(start, nb - 1))
      else if IsDigit(t[0]) then
        var end, u := Clamp(NumberValue(t, 0), nb), NumberRest(t);
        if end < start then Parsed(false, u, cpus)
        else if u != "" && u[0] == ',' then Parse(Field, u, nb, cpus + Interval(start, end))
        else Parsed(AtEnd(u), u, cpus + Interval(start, end))
      else Parsed(false, t, cpus)
  }

  // ------------------------------------------------------------------ the code

  method ReadNumber(affinity: string, from: nat) returns (value: nat, p: nat)
    requires from < |affinity| && IsDigit(affinity[from])
    ensures from < p <= |affinity|
    ensures value == NumberValue(affinity[from..], 0) && affinity[p..] == NumberRest(affinity[from..])
  {
    value := affinity[from] as int - '0' as int;
    p := from + 1;
    assert affinity[from..][1..] == affinity[p..];
    while p < |affinity| && IsDigit(affinity[p])
      invariant from < p <= |affinity|
      invariant NumberValue(affinity[p..], value) == NumberValue(affinity[from..], 0)
      invariant NumberRest(affinity[p..]) == NumberRest(affinity[from..])
    {
      assert affinity[p..][1..] == affinity[p + 1..];
      value := (value * 10 + (affinity[p] as int - '0' as int)) % WORD;
      p := p + 1;
    }
  }

  method SetInterval(cpu: array<bv8>, nb: nat, start: nat, end: nat)
    requires cpu.Length == Size(nb) && end < nb
    modifies cpu
    ensures Cpus(cpu[..], nb) == old(Cpus(cpu[..], nb)) + Interval(start, end)
  {
    var i := start;
    while i <= end
      invariant start <= i && (i <= end + 1 || i == start)
      invariant Cpus(cpu[..], nb) == old(Cpus(cpu[..], nb)) + Span(start, i)
    {
      assert Span(start, i + 1) == Span(start, i) + {i};
      var _ := Set(cpu, nb, i);
      i := i + 1;
    }
    assert Span(start, i) == Interval(start, end);
  }

  /** rsysd_get_affinity() */
  method GetAffinity(affinity: string, cpu: array<bv8>, nb: nat) returns (rc: int, offset: nat)
    requires nb > 0 && cpu.Length == Size(nb)
    modifies cpu
    ensures offset <= |affinity|
    ensures var r := Parse(Field, affinity, nb, {});
            && rc == (if r.ok then 0 else -1) && affinity[offset..] == r.left
            && (r.ok ==> Cpus(cpu[..], nb) == r.cpus)
  {
    Zero(cpu, nb);
    var p, mode := 0, Field;
    assert affinity[0..] == affinity;
    while true
      invariant p <= |affinity| && (mode.Field? || mode.start < nb)
      invariant Parse(Field, affinity, nb, {}) == Parse(mode, affinity[p..], nb, Cpus(cpu[..], nb))
      decreases |affinity| - p
    {
      ghost var t := affinity[p..];
      assert p < |affinity| ==> t[0] == affinity[p] && t[1..] == affinity[p + 1..];
      var c := if p == |affinity| then NUL else affinity[p];
      match mode {
        case Field =>
          if p == |affinity| || c == ':' {
            SetAll(cpu, nb);
            return 0, p;
          } else if IsDigit(c) {
            var start;
            start, p := ReadNumber(affinity, p);
            mode := AfterNumber(if start >= nb then nb - 1 else start);
          } else if c == '-' {
            p, mode := p + 1, AfterDash(0);
          } else if c == ',' {
            SetAll(cpu, nb);
            p := p + 1;
          } else {
            return -1, p;
          }
        case AfterNumber(start) =>
          if p == |affinity| || c == ':' {
            var _ := Set(cpu, nb, start);
            return 0, p;
          } else if c == ',' {
            var _ := Set(cpu, nb, start);
            p, mode := p + 1, Field;
          } else if c == '-' {
            p, mode := p + 1, AfterDash(start);
          } else {
            return -1, p;
          }
        case AfterDash(start) =>
          if p == |affinity| || c == ':' {
            SetInterval(cpu, nb, start, nb - 1);
            return 0, p;
          } else if IsDigit(c) {
            var end;
            end, p := ReadNumber(affinity, p);
            if end >= nb {
              end := nb - 1;
            }
            if end < start {
              return -1, p;
            }
            SetInterval(cpu, nb, start, end);
            if p < |affinity| && affinity[p] == ',' {
              mode := Field;
            } else {
              return if p == |affinity| || affinity[p] == ':' then 0 else -1, p;
            }
          } else {
            return -1, p;
          }
      }
    }
  }

  // ------------------------------------------------------------------ the shells of the option

  /** The lists of the option, between the colons. */
  function Lists(t: string): (fs: seq<string>)
    ensures fs != []
  {
    if t == "" then [""]
    else
      var fs := Lists(t[1..]);
      if t[0] == ':' then [""] + fs else [[t[0]] + fs[0]] + fs[1..]
  }

  function Colons(t: string): nat {
    if t == "" then 0 else (if t[0] == ':' then 1 else 0) + Colons(t[1..])
  }

  lemma {:induction false} ListsCounted(t: string)
    ensures |Lists(t)| == Colons(t) + 1
  {
    if t != "" {
      ListsCounted(t[1..]);
    }
  }

  /** The first list, and what comes behind its colon. */
  lemma {:induction false} FirstList(t: string, n: nat)
    requires n <= |t| && ':' !in t[..n] && AtEnd(t[n..])
    ensures Lists(t) == [t[..n]] + if n == |t| then [] else Lists(t[n + 1..])
  {
    if n > 0 {
      assert t[0] == t[..n][0];
      assert t[1..][..n - 1] == t[..n][1..] && t[1..][n - 1..] == t[n..];
      FirstList(t[1..], n - 1);
      assert [t[0]] + t[1..][..n - 1] == t[..n];
      assert n < |t| ==> t[1..][n..] == t[n + 1..];
    } else if t != "" {
      assert t[..0] == "";
    }
  }

  lemma {:induction false} NumberRestSuffix(t: string)
    ensures var u := NumberRest(t); t[|t| - |u|..] == u && ':' !in t[..|t| - |u|]
  {
    if t != "" && IsDigit(t[0]) {
      var u := NumberRest(t[1..]);
      NumberRestSuffix(t[1..]);
      assert t[|t| - |u|..] == t[1..][|t| - 1 - |u|..];
      assert t[..|t| - |u|] == [t[0]] + t[1..][..|t| - 1 - |u|];
    } else {
      assert t[0..] == t && t[..0] == "";
    }
  }

  /** A list that is accepted is left exactly at the first colon or at the end. */
  ghost predicate Suffix(t: string, left: string, ok: bool) {
    && |left| <= |t| && t[|t| - |left|..] == left && ':' !in t[..|t| - |left|] && (ok ==> AtEnd(left))
  }

  lemma SuffixOf(t: string, n: nat, left: string, ok: bool)
    requires n <= |t| && ':' !in t[..n] && Suffix(t[n..], left, ok)
    ensures Suffix(t, left, ok)
  {
  }

  lemma {:induction false} ParseStops(mode: Mode, t: string, nb: nat, cpus: set<nat>)
    requires nb > 0
    ensures var r := Parse(mode, t, nb, cpus); Suffix(t, r.left, r.ok)
    decreases |t|
  {
    assert t[0..] == t && t[..0] == "";
    if !AtEnd(t) {
      var u := NumberRest(t);
      NumberRestSuffix(t);
      var n := |t| - |u|;
      assert ':' !in t[..1];
      match mode {
        case Field =>
          if IsDigit(t[0]) {
            var m := AfterNumber(Clamp(NumberValue(t, 0), nb));
            ParseStops(m, u, nb, cpus);
            SuffixOf(t, n, Parse(m, u, nb, cpus).left, Parse(m, u, nb, cpus).ok);
          } else if t[0] == '-' {
            ParseStops(AfterDash(0), t[1..], nb, cpus);
            SuffixOf(t, 1, Parse(AfterDash(0), t[1..], nb, cpus).left, Parse(AfterDash(0), t[1..], nb, cpus).ok);
          } else if t[0] == ',' {
            ParseStops(Field, t[1..], nb, All(nb));
            SuffixOf(t, 1, Parse(Field, t[1..], nb, All(nb)).left, Parse(Field, t[1..], nb, All(nb)).ok);
          }
        case AfterNumber(start) =>
          if t[0] == ',' {
            ParseStops(Field, t[1..], nb, cpus + {start});
            SuffixOf(t, 1, Parse(Field, t[1..], nb, cpus + {start}).left, Parse(Field, t[1..], nb, cpus + {start}).ok);
          } else if t[0] == '-' {
            ParseStops(AfterDash(start), t[1..], nb, cpus);
            SuffixOf(t, 1, Parse(AfterDash(start), t[1..], nb, cpus).left, Parse(AfterDash(start), t[1..], nb, cpus).ok);
          }
        case AfterDash(start) =>
          if IsDigit(t[0]) {
            var end := Clamp(NumberValue(t, 0), nb);
            if start <= end && u != "" && u[0] == ',' {
              ParseStops(Field, u, nb, cpus + Interval(start, end));
              SuffixOf(t, n, Parse(Field, u, nb, cpus + Interval(start, end)).left,
                       Parse(Field, u, nb, cpus + Interval(start, end)).ok);
            } else {
              assert u[0..] == u && u[..0] == "";
              SuffixOf(t, n, u, AtEnd(u));
            }
          }
      }
    }
  }

  // A list is read without what comes behind it.

  lemma {:induction false} NumberAlone(f: string, tail: string, acc: nat)
    requires AtEnd(tail)
    ensures NumberValue(f + tail, acc) == NumberValue(f, acc) && NumberRest(f + tail) == NumberRest(f) + tail
  {
    if f != "" {
      assert (f + tail)[1..] == f[1..] + tail;
      if IsDigit(f[0]) {
        NumberAlone(f[1..], tail, (acc * 10 + (f[0] as int - '0' as int)) % WORD);
      }
    } else {
      assert f + tail == tail;
    }
  }

  function With(r: Parsed, tail: string): Parsed {
    r.(left := r.left + tail)
  }

  lemma {:induction false} ParseLocal(mode: Mode, f: string, tail: string, nb: nat, cpus: set<nat>)
    requires nb > 0 && ':' !in f && AtEnd(tail)
    ensures Parse(mode, f + tail, nb, cpus) == With(Parse(mode, f, nb, cpus), tail)
    decreases |f|
  {
    var t := f + tail;
    NumberAlone(f, tail, 0);
    if f == "" {
      assert t == tail;
    } else {
      assert t[0] == f[0] != ':' && t[1..] == f[1..] + tail;
      NumberRestSuffix(f);
      var u := NumberRest(f);
      assert ':' !in u by { assert forall c :: c in u ==> c in f; }
      assert u != "" ==> (u + tail)[0] == u[0] && u[0] in u;
      match mode {
        case Field =>
          if IsDigit(f[0]) {
            ParseLocal(AfterNumber(Clamp(NumberValue(f, 0), nb)), u, tail, nb, cpus);
          } else if f[0] == '-' {
            ParseLocal(AfterDash(0), f[1..], tail, nb, cpus);
          } else if f[0] == ',' {
            ParseLocal(Field, f[1..], tail, nb, All(nb));
          }
        case AfterNumber(start) =>
          if f[0] == ',' {
            ParseLocal(Field, f[1..], tail, nb, cpus + {start});
          } else if f[0] == '-' {
            ParseLocal(AfterDash(start), f[1..], tail, nb, cpus);
          }
        case AfterDash(start) =>
          if IsDigit(f[0]) {
            var end := Clamp(NumberValue(f, 0), nb);
            if start <= end && u != "" && u[0] == ',' {
              ParseLocal(Field, u, tail, nb, cpus + Interval(start, end));
            }
          }
      }
    }
  }

  /** The first list of the rest of the option, as it is read there. */
  lemma FirstParsed(t: string, nb: nat)
    requires nb > 0
    ensures var r, f := Parse(Field, t, nb, {}), Lists(t)[0];
            var r' := Parse(Field, f, nb, {});
            && r'.ok == r.ok && r'.cpus == r.cpus
            && (r.ok ==> AtEnd(r.left) && Lists(t)[1..] == if r.left == "" then [] else Lists(r.left[1..]))
  {
    var n := FirstColon(t);
    FirstList(t, n);
    assert t[..n] + t[n..] == t;
    ParseLocal(Field, t[..n], t[n..], nb, {});
    var r' := Parse(Field, t[..n], nb, {});
    ParseStops(Field, t[..n], nb, {});
    if r'.ok {
      assert "" + t[n..] == t[n..];
      assert n < |t| ==> t[n..][1..] == t[n + 1..];
    }
  }

  function FirstColon(t: string): (n: nat)
    ensures n <= |t| && ':' !in t[..n] && AtEnd(t[n..])
  {
    if AtEnd(t) then 0
    else
      var n := 1 + FirstColon(t[1..]);
      assert t[..n] == [t[0]] + t[1..][..n - 1];
      n
  }

  /** The counting of the shells. */
  method CountShells(shells: string) returns (n: nat)
    ensures n == |Lists(shells)|
  {
    var p := 0;
    n := 0;
    assert shells[0..] == shells;
    while p < |shells|
      invariant p <= |shells| && n + Colons(shells[p..]) == Colons(shells)
    {
      assert shells[p..][1..] == shells[p + 1..];
      if shells[p] == ':' {
        n := n + 1;
      }
      p := p + 1;
    }
    n := n + 1;
    ListsCounted(shells);
  }

  /** The list has been accepted, and these are the CPUs of its shell. */
  ghost predicate Given(cpu: array?<bv8>, f: string, nb: nat)
    requires nb > 0
    reads cpu
  {
    && cpu != null && cpu.Length == Size(nb)
    && Parse(Field, f, nb, {}).ok && Cpus(cpu[..], nb) == Parse(Field, f, nb, {}).cpus
  }

  /** The bitmap of one shell. */
  method OneList(shells: string, nb: nat) returns (rc: int, cpu: array<bv8>, offset: nat)
    requires nb > 0
    ensures fresh(cpu) && offset <= |shells| && (rc == 0 || rc == -1)
    ensures rc == 0 ==>
              && Given(cpu, Lists(shells)[0], nb) && AtEnd(shells[offset..])
              && Lists(shells)[1..] == if offset == |shells| then [] else Lists(shells[offset..][1..])
    ensures rc == -1 ==> !Parse(Field, Lists(shells)[0], nb, {}).ok
  {
    cpu := Alloc(nb);
    rc, offset := GetAffinity(shells, cpu, nb);
    FirstParsed(shells, nb);
  }

  /**
   The part of rsysd_create_shells() that reads the option: the table has one entry for each list, the walk
   stays inside it and ends on its last entry, and each shell gets the CPUs of its own list; or else a list
   is refused.
   */
  method CreateTable(shells: string, nb: nat) returns (rc: int, table: seq<array?<bv8>>)
    requires nb > 0
    ensures |table| == |Lists(shells)| && (rc == 0 || rc == -1)
    ensures rc == 0 ==> forall j :: 0 <= j < |table| ==> Given(table[j], Lists(shells)[j], nb)
    ensures rc == -1 ==> exists j :: 0 <= j < |Lists(shells)| && !Parse(Field, Lists(shells)[j], nb, {}).ok
  {
    hide Parse, Lists, Given;
    var n := CountShells(shells);
    table := seq(n, _ => null);
    var i, p := 0, 0;
    ghost var lists := Lists(shells);
    assert shells[0..] == shells && lists[0..] == lists;
    while true
      invariant p <= |shells| && i < n == |table| == |lists| && Lists(shells[p..]) == lists[i..]
      invariant forall j :: 0 <= j < i ==> Given(table[j], lists[j], nb)
      decreases |shells| - p
    {
      var cpu, offset;
      assert lists[i..][0] == lists[i] && lists[i..][1..] == lists[i + 1..];
      rc, cpu, offset := OneList(shells[p..], nb);
      if rc != 0 {
        return;
      }
      assert shells[p..][offset..] == shells[p + offset..];
      table := table[i := cpu];
      p := p + offset;
      if p < |shells| && shells[p] == ':' {
        assert shells[p..][1..] == shells[p + 1..];
        p, i := p + 1, i + 1;
      } else {
        break;
      }
    }
    assert i == n - 1;
    rc := 0;
  }

  // ------------------------------------------------------------------ what a list means

  /** A field: a number, an interval whose ends can be missing, or nothing; the numbers are digits. */
  datatype Item = Number(n: string) | Range(from: string, to: string) | Nothing

  predicate IsNumber(s: string) {
    forall i :: 0 <= i < |s| ==> IsDigit(s[i])
  }

  predicate ValidItem(x: Item) {
    match x
    case Number(n) => n != "" && IsNumber(n)
    case Range(a, b) => IsNumber(a) && IsNumber(b)
    case Nothing => true
  }

  function Render(x: Item): string {
    match x
    case Number(n) => n
    case Range(a, b) => a + "-" + b
    case Nothing => ""
  }

  function RenderAll(xs: seq<Item>): string
    requires xs != []
  {
    if |xs| == 1 then Render(xs[0]) else Render(xs[0]) + "," + RenderAll(xs[1..])
  }

  function Start(x: Item, nb: nat): nat
    requires x.Range? && nb > 0
  {
    if x.from == "" then 0 else Clamp(NumberValue(x.from, 0), nb)
  }

  function End(x: Item, nb: nat): nat
    requires x.Range? && nb > 0
  {
    if x.to == "" then nb - 1 else Clamp(NumberValue(x.to, 0), nb)
  }

  /** An interval given with its end must not be empty. */
  predicate ItemOk(x: Item, nb: nat)
    requires nb > 0
  {
    x.Range? && x.to != "" ==> Start(x, nb) <= End(x, nb)
  }

  /** The CPUs of a field: an empty one stands for all of them. */
  function ItemCpus(x: Item, nb: nat): set<nat>
    requires nb > 0
  {
    match x
    case Number(n) => {Clamp(NumberValue(n, 0), nb)}
    case Range(_, _) => Interval(Start(x, nb), End(x, nb))
    case Nothing => All(nb)
  }

  /** The fields that a list may hold before its last one: not an interval without end. */
  predicate Accepted(xs: seq<Item>, nb: nat)
    requires nb > 0
  {
    && (forall i :: 0 <= i < |xs| ==> ItemOk(xs[i], nb))
    && forall i :: 0 <= i < |xs| - 1 ==> !(xs[i].Range? && xs[i].to == "")
  }

  /** All the CPUs are given when a field is empty, and also when an interval is not the last field. */
  predicate Unbounded(xs: seq<Item>) {
    exists i :: 0 <= i < |xs| && (xs[i].Nothing? || (xs[i].Range? && i < |xs| - 1))
  }

  function Union(xs: seq<Item>, nb: nat): set<nat>
    requires nb > 0
  {
    if xs == [] then {} else ItemCpus(xs[0], nb) + Union(xs[1..], nb)
  }

  lemma {:induction false} DigitsThen(n: string, tail: string, acc: nat)
    requires IsNumber(n) && (tail == "" || !IsDigit(tail[0]))
    ensures NumberValue(n + tail, acc) == NumberValue(n, acc) && NumberRest(n + tail) == tail
  {
    if n == "" {
      assert n + tail == tail;
    } else {
      assert (n + tail)[1..] == n[1..] + tail;
      DigitsThen(n[1..], tail, (acc * 10 + (n[0] as int - '0' as int)) % WORD);
    }
  }

  /** A number at the head of a field. */
  lemma ParseNumber(n: string, tail: string, nb: nat, cpus: set<nat>)
    requires nb > 0 && n != "" && IsNumber(n) && (tail == "" || !IsDigit(tail[0]))
    ensures Parse(Field, n + tail, nb, cpus) == Parse(AfterNumber(Clamp(NumberValue(n, 0), nb)), tail, nb, cpus)
  {
    DigitsThen(n, tail, 0);
    assert (n + tail)[0] == n[0];
  }

  /** An interval up to its dash. */
  lemma ParseFrom(x: Item, tail: string, nb: nat, cpus: set<nat>)
    requires nb > 0 && x.Range? && ValidItem(x)
    ensures Parse(Field, Render(x) + tail, nb, cpus) == Parse(AfterDash(Start(x, nb)), x.to + tail, nb, cpus)
  {
    var t := "-" + (x.to + tail);
    assert t[1..] == x.to + tail;
    if x.from == "" {
      assert Render(x) + tail == t;
    } else {
      assert Render(x) + tail == x.from + t;
      ParseNumber(x.from, t, nb, cpus);
    }
  }

  /** The last field. */
  lemma LastItem(x: Item, nb: nat, cpus: set<nat>)
    requires nb > 0 && ValidItem(x) && cpus <= All(nb)
    ensures var r := Parse(Field, Render(x), nb, cpus);
            r.ok == ItemOk(x, nb) && (r.ok ==> r.left == "" && r.cpus == cpus + ItemCpus(x, nb))
  {
    assert Render(x) + "" == Render(x);
    match x {
      case Number(n) => ParseNumber(n, "", nb, cpus);
      case Range(a, b) =>
        ParseFrom(x, "", nb, cpus);
        assert b + "" == b;
        DigitsThen(b, "", 0);
        assert End(x, nb) + 1 <= nb;
      case Nothing =>
    }
  }

  /** A field with a comma behind it. */
  lemma InnerItem(x: Item, rest: string, nb: nat, cpus: set<nat>)
    requires nb > 0 && ValidItem(x)
    ensures var r := Parse(Field, Render(x) + "," + rest, nb, cpus);
            if !ItemOk(x, nb) || (x.Range? && x.to == "") then !r.ok
            else r == Parse(Field, rest, nb, if x.Number? then cpus + ItemCpus(x, nb) else All(nb))
  {
    var tail := "," + rest;
    assert tail[1..] == rest;
    assert Render(x) + "," + rest == Render(x) + tail;
    match x {
      case Number(n) => ParseNumber(n, tail, nb, cpus);
      case Range(a, b) =>
        ParseFrom(x, tail, nb, cpus);
        DigitsThen(b, tail, 0);
        assert b == "" ==> b + tail == tail;
        assert b != "" ==> (b + tail)[0] == b[0];
      case Nothing => assert "" + tail == tail;
    }
  }

  /** The CPUs of the list behind those already set. */
  ghost predicate MeansFrom(xs: seq<Item>, nb: nat, cpus: set<nat>, r: Parsed)
    requires nb > 0
  {
    && r.ok == Accepted(xs, nb)
    && (r.ok ==> r.left == "" && r.cpus == if Unbounded(xs) then All(nb) else cpus + Union(xs, nb))
  }

  lemma Behind(xs: seq<Item>, nb: nat)
    requires nb > 0 && |xs| > 1
    ensures Accepted(xs, nb) <==>
            ItemOk(xs[0], nb) && !(xs[0].Range? && xs[0].to == "") && Accepted(xs[1..], nb)
    ensures Unbounded(xs) <==> !xs[0].Number? || Unbounded(xs[1..])
    ensures Union(xs, nb) == ItemCpus(xs[0], nb) + Union(xs[1..], nb)
  {
  }

  lemma {:induction false} UnionInside(xs: seq<Item>, nb: nat)
    requires nb > 0
    ensures Union(xs, nb) <= All(nb)
  {
    if xs != [] {
      UnionInside(xs[1..], nb);
      assert ItemCpus(xs[0], nb) <= All(nb);
    }
  }

  lemma {:induction false} ListMeansFrom(xs: seq<Item>, nb: nat, cpus: set<nat>)
    requires nb > 0 && xs != [] && (forall i :: 0 <= i < |xs| ==> ValidItem(xs[i])) && cpus <= All(nb)
    ensures MeansFrom(xs, nb, cpus, Parse(Field, RenderAll(xs), nb, cpus))
    decreases |xs|
  {
    UnionInside(xs, nb);
    if |xs| == 1 {
      LastItem(xs[0], nb, cpus);
      assert Union(xs[1..], nb) == {};
      assert Unbounded(xs) <==> xs[0].Nothing?;
    } else {
      var x, ys := xs[0], xs[1..];
      InnerItem(x, RenderAll(ys), nb, cpus);
      Behind(xs, nb);
      UnionInside(ys, nb);
      var cpus' := if x.Number? then cpus + ItemCpus(x, nb) else All(nb);
      assert ItemCpus(x, nb) <= All(nb);
      ListMeansFrom(ys, nb, cpus');
    }
  }

  /**
   What a list of fields gives, for all fields: it is accepted exactly when no interval given with its end
   is empty (after the numbers have been brought to the last CPU) and no interval without end has a field
   behind it; it gives all the CPUs when a field is empty or when an interval has a field behind it, and
   otherwise the CPUs of its fields.
   */
  lemma ListMeans(xs: seq<Item>, nb: nat)
    requires nb > 0 && xs != [] && forall i :: 0 <= i < |xs| ==> ValidItem(xs[i])
    ensures var r := Parse(Field, RenderAll(xs), nb, {});
            && r.ok == Accepted(xs, nb)
            && (r.ok ==> r.left == "" && r.cpus == if Unbounded(xs) then All(nb) else Union(xs, nb))
  {
    ListMeansFrom(xs, nb, {});
  }

  /** The digits at the head of a text. */
  lemma {:induction false} LeadingDigits(t: string) returns (n: string)
    ensures t == n + NumberRest(t) && IsNumber(n) && (t != "" && IsDigit(t[0]) ==> n != "")
  {
    if t != "" && IsDigit(t[0]) {
      n := LeadingDigits(t[1..]);
      assert t == [t[0]] + t[1..];
      n := [t[0]] + n;
    } else {
      n := "";
    }
  }

  /** Behind a dash. */
  lemma IntervalRead(from: string, start: nat, t: string, nb: nat, cpus: set<nat>) returns (x: Item, rest: string, cpus': set<nat>)
    requires nb > 0 && ':' !in t && IsNumber(from) && Parse(AfterDash(start), t, nb, cpus).ok
    ensures ValidItem(x) && from + "-" + t == Render(x) + rest && |rest| <= |t|
    ensures rest != "" ==> rest[0] == ',' && Parse(Field, rest[1..], nb, cpus').ok
  {
    cpus' := cpus;
    if t == "" {
      x, rest := Range(from, ""), "";
    } else {
      var to := LeadingDigits(t);
      x, rest := Range(from, to), NumberRest(t);
      cpus' := All(nb);
      NoColonBehind(t, to, rest);
      assert from + "-" + t == Render(x) + rest;
    }
  }

  lemma NoColonBehind(t: string, n: string, rest: string)
    requires t == n + rest && ':' !in t
    ensures ':' !in rest && (rest != "" ==> ':' !in rest[1..])
  {
  }

  /** The first field of a list that is accepted. */
  lemma FirstItem(t: string, nb: nat, cpus: set<nat>) returns (x: Item, rest: string, cpus': set<nat>)
    requires nb > 0 && ':' !in t && Parse(Field, t, nb, cpus).ok
    ensures ValidItem(x) && t == Render(x) + rest && |rest| <= |t|
    ensures rest != "" ==> rest[0] == ',' && Parse(Field, rest[1..], nb, cpus').ok
  {
    cpus' := cpus;
    if t == "" || t[0] == ',' {
      x, rest, cpus' := Nothing, t, All(nb);
    } else if t[0] == '-' {
      NoColonBehind(t, "", t);
      x, rest, cpus' := IntervalRead("", 0, t[1..], nb, cpus);
      assert t == "" + "-" + t[1..];
    } else {
      var n := LeadingDigits(t);
      var start, u := Clamp(NumberValue(t, 0), nb), NumberRest(t);
      NoColonBehind(t, n, u);
      x, rest, cpus' := Number(n), u, cpus + {start};
      if u != "" && u[0] == '-' {
        x, rest, cpus' := IntervalRead(n, start, u[1..], nb, cpus);
        assert t == n + "-" + u[1..];
      }
    }
  }

  /** Only a list of fields is accepted. */
  lemma {:induction false} AcceptedIsList(t: string, nb: nat, cpus: set<nat>) returns (xs: seq<Item>)
    requires nb > 0 && ':' !in t && Parse(Field, t, nb, cpus).ok
    ensures xs != [] && (forall i :: 0 <= i < |xs| ==> ValidItem(xs[i])) && t == RenderAll(xs)
    decreases |t|
  {
    var x, rest, cpus' := FirstItem(t, nb, cpus);
    if rest == "" {
      xs := [x];
      Empty(Render(x));
    } else {
      hide Parse;
      NoColonBehind(t, Render(x), rest);
      var ys := AcceptedIsList(rest[1..], nb, cpus');
      xs := [x] + ys;
      assert xs[1..] == ys && rest == "," + rest[1..];
      Assoc(Render(x), ",", rest[1..]);
    }
  }

  /** A list is accepted exactly when it is made of fields that are. */
  lemma ListExact(t: string, nb: nat)
    requires nb > 0 && ':' !in t
    ensures Parse(Field, t, nb, {}).ok <==>
            exists xs :: xs != [] && (forall i :: 0 <= i < |xs| ==> ValidItem(xs[i])) && t == RenderAll(xs) && Accepted(xs, nb)
  {
    hide Parse, ValidItem, RenderAll, Accepted;
    if Parse(Field, t, nb, {}).ok {
      var xs := AcceptedIsList(t, nb, {});
      ListMeans(xs, nb);
    }
    forall xs | xs != [] && (forall i :: 0 <= i < |xs| ==> ValidItem(xs[i])) && t == RenderAll(xs) && Accepted(xs, nb)
      ensures Parse(Field, t, nb, {}).ok {
      ListMeans(xs, nb);
    }
  }

  lemma TimesTen(acc: nat, d: nat)
    ensures (acc % WORD * 10 + d) % WORD == (acc * 10 + d) % WORD
  {
    var q := acc / WORD;
    assert acc * 10 + d == (acc % WORD * 10 + d) + q * 10 * WORD;
    ModuloAdds(acc % WORD * 10 + d, q * 10);
  }

  lemma {:induction false} ModuloAdds(a: nat, k: nat)
    ensures (a + k * WORD) % WORD == a % WORD
  {
    if k > 0 {
      ModuloAdds(a, k - 1);
      assert a + k * WORD == (a + (k - 1) * WORD) + WORD;
    }
  }

  lemma {:induction false} NumberIsDigits(n: string, acc: nat)
    requires IsNumber(n)
    ensures NumberValue(n, acc % WORD) == Digits(n, acc) % WORD
  {
    if n != "" {
      var d: nat := n[0] as int - '0' as int;
      TimesTen(acc, d);
      NumberIsDigits(n[1..], 10 * acc + d);
    }
  }

  /** A decimal number is read modulo 2^32. */
  lemma NumberMeans(n: nat)
    ensures NumberValue(Show(n), 0) == n % WORD
  {
    NumberIsDigits(Show(n), 0);
    DigitsOfShow(n);
  }

  const INTERVAL_FIRST := [Range("0", "1"), Number("2")]

  /** The input where a list gives more than its fields: "0-1,2" gives all the CPUs, not these three. */
  lemma IntervalThenNumber(nb: nat)
    requires nb > 3
    ensures var r := Parse(Field, "0-1,2", nb, {});
            r.ok && r.left == "" && r.cpus == All(nb) && 3 in r.cpus
    ensures Union(INTERVAL_FIRST, nb) == {0, 1, 2}
  {
    ItsFields(nb);
    ItsCpus(nb);
    hide Parse, Accepted, Unbounded, RenderAll, Union;
    ListMeans(INTERVAL_FIRST, nb);
    assert 3 in All(nb);
  }

  lemma ItsFields(nb: nat)
    requires nb > 3
    ensures RenderAll(INTERVAL_FIRST) == "0-1,2" && Accepted(INTERVAL_FIRST, nb) && Unbounded(INTERVAL_FIRST)
    ensures forall i :: 0 <= i < |INTERVAL_FIRST| ==> ValidItem(INTERVAL_FIRST[i])
  {
    ThreeDigits();
    var xs := INTERVAL_FIRST;
    assert xs[1..] == [Number("2")];
    assert RenderAll(xs) == "0-1" + "," + RenderAll([Number("2")]) == "0-1,2";
    assert xs[0].Range?;
  }

  lemma ItsCpus(nb: nat)
    requires nb > 3
    ensures Union(INTERVAL_FIRST, nb) == {0, 1, 2}
  {
    ThreeDigits();
    var xs := INTERVAL_FIRST;
    assert xs[1..] == [Number("2")] && [Number("2")][1..] == [];
    assert Interval(0, 1) == {0, 1};
    assert Union(xs, nb) == ItemCpus(xs[0], nb) + (ItemCpus(Number("2"), nb) + Union([], nb));
  }

  lemma ThreeDigits()
    ensures NumberValue("0", 0) == 0 && NumberValue("1", 0) == 1 && NumberValue("2", 0) == 2
    ensures IsNumber("0") && IsNumber("1") && IsNumber("2")
  {
  }
}
