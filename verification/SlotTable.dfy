/** The fixed-size allocation table of the KRAKEN runtime and its usage counter. */
module SlotTable {

  const MAX_ALLOC_ENTRIES := 4096
  const MB := 1024 * 1024

  /** Pointers as numbers; 0 is the null pointer and marks a free slot. */
  datatype Slot = Slot(ptr: nat, size: nat)

  /** The slots in use so far and the counter of used bytes. */
  datatype Table = Table(slots: seq<Slot>, used: int)

  /** First slot holding this pointer, or the end. */
  function Find(slots: seq<Slot>, p: nat): (k: nat)
    ensures k <= |slots|
    ensures k < |slots| ==> slots[k].ptr == p
    ensures forall j :: 0 <= j < k ==> slots[j].ptr != p
  {
    if slots == [] then 0 else if slots[0].ptr == p then 0 else 1 + Find(slots[1..], p)
  }

  predicate Room(slots: seq<Slot>, cap: nat) {
    Find(slots, 0) < |slots| || |slots| < cap
  }

  function Record(slots: seq<Slot>, e: Slot, cap: nat): seq<Slot> {
    var k := Find(slots, 0);
    if k < |slots| then slots[k := e] else if |slots| < cap then slots + [e] else slots
  }

  function AfterAlloc(t: Table, p: nat, bytes: nat, cap: nat): Table {
    if p == 0 || bytes == 0 then t else Table(Record(t.slots, Slot(p, bytes), cap), t.used + bytes)
  }

  function AfterFree(t: Table, p: nat): Table {
    var k := Find(t.slots, p);
    if p == 0 || k == |t.slots| then t
    else Table(t.slots[k := Slot(0, 0)], t.used - t.slots[k].size)
  }

  // ---- What the two operations do, slot by slot ----

  predicate FirstAt(slots: seq<Slot>, p: nat, k: nat) {
    k < |slots| && slots[k].ptr == p && forall j :: 0 <= j < k ==> slots[j].ptr != p
  }

  /** All slots but one are as they were. */
  predicate OnlyAt(slots: seq<Slot>, slots': seq<Slot>, k: nat) {
    |slots'| == |slots| && forall j :: 0 <= j < |slots| && j != k ==> slots'[j] == slots[j]
  }

  lemma FoundFirst(slots: seq<Slot>, p: nat)
    ensures forall k: nat :: FirstAt(slots, p, k) <==> k < |slots| && k == Find(slots, p)
  {
    var f := Find(slots, p);
    forall k: nat | FirstAt(slots, p, k) ensures k == f {
      assert f < |slots|;
    }
  }

  /** Freeing a pointer that is recorded empties the first slot that holds it and lowers the counter by the size
      recorded there; freeing any other pointer, or null, does nothing. */
  lemma FreeMeans(t: Table, p: nat)
    ensures var t' := AfterFree(t, p);
            && (p == 0 || (forall k :: 0 <= k < |t.slots| ==> t.slots[k].ptr != p) ==> t' == t)
            && forall k: nat :: p != 0 && FirstAt(t.slots, p, k) ==>
                 && OnlyAt(t.slots, t'.slots, k) && t'.slots[k].ptr == 0 && t'.slots[k].size == 0
                 && t'.used == t.used - t.slots[k].size
  {
    FoundFirst(t.slots, p);
  }

  /** A block is recorded in the first free slot, or behind all others if there is none and the table is not full,
      and counted in any case; a null pointer or an empty block is neither. */
  lemma AllocMeans(t: Table, p: nat, bytes: nat, cap: nat)
    ensures var t' := AfterAlloc(t, p, bytes, cap);
            && (p == 0 || bytes == 0 ==> t' == t)
            && (p != 0 && bytes != 0 ==>
                  && t'.used == t.used + bytes
                  && (forall k: nat :: FirstAt(t.slots, 0, k) ==>
                        OnlyAt(t.slots, t'.slots, k) && t'.slots[k].ptr == p && t'.slots[k].size == bytes)
                  && ((forall k :: 0 <= k < |t.slots| ==> t.slots[k].ptr != 0) ==>
                        t'.slots == t.slots + if |t.slots| < cap then [Slot(p, bytes)] else []))
  {
    FoundFirst(t.slots, 0);
  }

  // ---- The counter against the table ----

  function Sizes(slots: seq<Slot>): nat {
    if slots == [] then 0 else slots[0].size + Sizes(slots[1..])
  }

  lemma {:induction false} SizesUpdate(slots: seq<Slot>, k: nat, e: Slot)
    requires k < |slots|
    ensures Sizes(slots[k := e]) == Sizes(slots) - slots[k].size + e.size
  {
    if k == 0 {
      assert slots[k := e][1..] == slots[1..];
    } else {
      assert slots[k := e][1..] == slots[1..][k - 1 := e];
      SizesUpdate(slots[1..], k - 1, e);
    }
  }

  lemma {:induction false} SizesAppend(slots: seq<Slot>, e: Slot)
    ensures Sizes(slots + [e]) == Sizes(slots) + e.size
  {
    if slots != [] {
      assert (slots + [e])[1..] == slots[1..] + [e];
      SizesAppend(slots[1..], e);
    }
  }

  /** Free slots hold no size. */
  ghost predicate Clean(slots: seq<Slot>) {
    forall k :: 0 <= k < |slots| && slots[k].ptr == 0 ==> slots[k].size == 0
  }

  datatype Op = Alloc(p: nat, bytes: nat) | Free(p: nat)

  function Apply(t: Table, op: Op, cap: nat): Table {
    match op
    case Alloc(p, bytes) => AfterAlloc(t, p, bytes, cap)
    case Free(p) => AfterFree(t, p)
  }

  /** Bytes this operation counts without recording them. */
  function Leaked(t: Table, op: Op, cap: nat): nat {
    if op.Alloc? && op.p != 0 && !Room(t.slots, cap) then op.bytes else 0
  }

  function Run(t: Table, ops: seq<Op>, cap: nat): Table
    decreases |ops|
  {
    if ops == [] then t else Run(Apply(t, ops[0], cap), ops[1..], cap)
  }

  function LeakedRun(t: Table, ops: seq<Op>, cap: nat): nat
    decreases |ops|
  {
    if ops == [] then 0 else Leaked(t, ops[0], cap) + LeakedRun(Apply(t, ops[0], cap), ops[1..], cap)
  }

  lemma CounterStep(t: Table, op: Op, cap: nat)
    requires Clean(t.slots)
    ensures var t' := Apply(t, op, cap);
            Clean(t'.slots) && t'.used - Sizes(t'.slots) == t.used - Sizes(t.slots) + Leaked(t, op, cap)
  {
    match op
    case Alloc(p, bytes) =>
      if p != 0 && bytes != 0 {
        var k := Find(t.slots, 0);
        if k < |t.slots| { SizesUpdate(t.slots, k, Slot(p, bytes)); } else { SizesAppend(t.slots, Slot(p, bytes)); }
      }
    case Free(p) =>
      var k := Find(t.slots, p);
      if p != 0 && k < |t.slots| { SizesUpdate(t.slots, k, Slot(0, 0)); }
  }

  /** Over every run the counter is the recorded total plus exactly the allocations made while the table
      was full. */
  lemma {:induction false} CounterLeaksOnlyWhenFull(t: Table, ops: seq<Op>, cap: nat)
    requires Clean(t.slots) && t.used == Sizes(t.slots)
    ensures var e := Run(t, ops, cap); e.used == Sizes(e.slots) + LeakedRun(t, ops, cap)
  {
    CounterRun(t, ops, cap);
  }

  lemma {:induction false} CounterRun(t: Table, ops: seq<Op>, cap: nat)
    requires Clean(t.slots)
    ensures var e := Run(t, ops, cap); e.used - Sizes(e.slots) == t.used - Sizes(t.slots) + LeakedRun(t, ops, cap)
    decreases |ops|
  {
    if ops != [] {
      CounterStep(t, ops[0], cap);
      CounterRun(Apply(t, ops[0], cap), ops[1..], cap);
    }
  }

  /** Freeing a fresh allocation restores the counter exactly when the table had room for it. */
  lemma AllocFreeRestoresIff(t: Table, p: nat, bytes: nat, cap: nat)
    requires p != 0 && bytes != 0 && Find(t.slots, p) == |t.slots|
    ensures AfterFree(AfterAlloc(t, p, bytes, cap), p).used == t.used <==> Room(t.slots, cap)
  {
    var k := Find(t.slots, 0);
    var slots := Record(t.slots, Slot(p, bytes), cap);
    if Room(t.slots, cap) {
      assert slots[k].ptr == p && Find(slots, p) == k;
    }
  }

  // ---- The leak is reached ----

  lemma {:induction false} RunAppend(t: Table, xs: seq<Op>, ys: seq<Op>, cap: nat)
    ensures Run(t, xs + ys, cap) == Run(Run(t, xs, cap), ys, cap)
    decreases |xs|
  {
    if xs == [] {
      assert xs + ys == ys;
    } else {
      assert (xs + ys)[1..] == xs[1..] + ys;
      RunAppend(Apply(t, xs[0], cap), xs[1..], ys, cap);
    }
  }

  /** n allocations of one byte, at the addresses 1 to n. */
  function Fill(n: nat): (ops: seq<Op>)
    ensures |ops| == n && forall k :: 0 <= k < n ==> ops[k] == Alloc(k + 1, 1)
  {
    if n == 0 then [] else Fill(n - 1) + [Alloc(n, 1)]
  }

  /** None of these slots is free or holds an address above n. */
  predicate Taken(slots: seq<Slot>, n: nat) {
    |slots| == n && forall k :: 0 <= k < n ==> 1 <= slots[k].ptr <= n
  }

  lemma NoneFound(slots: seq<Slot>, n: nat, p: nat)
    requires Taken(slots, n) && (p == 0 || p > n)
    ensures Find(slots, p) == n
  {
  }

  lemma {:induction false} Filled(n: nat, cap: nat)
    requires n <= cap
    ensures Taken(Run(Table([], 0), Fill(n), cap).slots, n)
  {
    if n > 0 {
      Filled(n - 1, cap);
      var t := Run(Table([], 0), Fill(n - 1), cap);
      RunAppend(Table([], 0), Fill(n - 1), [Alloc(n, 1)], cap);
      NoneFound(t.slots, n - 1, 0);
      assert [Alloc(n, 1)][1..] == [];
    }
  }

  /** A table without room records nothing and gives nothing back. */
  lemma FullLeaks(t: Table, p: nat, bytes: nat, cap: nat)
    requires !Room(t.slots, cap) && p != 0 && bytes > 0 && Find(t.slots, p) == |t.slots|
    ensures Run(t, [Alloc(p, bytes), Free(p)], cap) == Table(t.slots, t.used + bytes)
  {
    var ops := [Alloc(p, bytes), Free(p)];
    var u := Apply(t, ops[0], cap);
    assert u == Table(t.slots, t.used + bytes);
    assert Apply(u, ops[1], cap) == u;
    assert ops[1..] == [Free(p)] && ops[1..][1..] == [] && ops[1..][0] == ops[1];
    assert Run(u, ops[1..], cap) == Run(u, [], cap);
  }

  /** For every table size, 4096 among them: from the empty table, as many live allocations as there are
      slots fill it, and then allocating and freeing one more block leaves its bytes in the counter for good. */
  lemma LeakReached(bytes: nat, cap: nat)
    requires bytes > 0
    ensures var full := Run(Table([], 0), Fill(cap), cap);
            var t := Run(full, [Alloc(cap + 1, bytes), Free(cap + 1)], cap);
            && full.used == Sizes(full.slots) && !Room(full.slots, cap)
            && t.slots == full.slots && t.used == Sizes(t.slots) + bytes
  {
    Filled(cap, cap);
    FillLeaksNothing(cap, cap);
    var full := Run(Table([], 0), Fill(cap), cap);
    NoneFound(full.slots, cap, 0);
    NoneFound(full.slots, cap, cap + 1);
    FullLeaks(full, cap + 1, bytes, cap);
  }

  lemma {:induction false} FillLeaksNothing(n: nat, cap: nat)
    requires n <= cap
    ensures var t := Run(Table([], 0), Fill(n), cap); Clean(t.slots) && t.used == Sizes(t.slots)
  {
    if n > 0 {
      FillLeaksNothing(n - 1, cap);
      Filled(n - 1, cap);
      var t := Run(Table([], 0), Fill(n - 1), cap);
      RunAppend(Table([], 0), Fill(n - 1), [Alloc(n, 1)], cap);
      NoneFound(t.slots, n - 1, 0);
      assert [Alloc(n, 1)][1..] == [];
      CounterStep(t, Alloc(n, 1), cap);
    }
  }

  // ---- The quota ----

  /** The counter respects the quota; none or a non-positive one is no limit. */
  predicate Within(used: int, quotaMb: int) {
    quotaMb <= 0 || used <= quotaMb * MB
  }

  /** Whatever address the driver returns, counting the block keeps the counter within the quota. */
  ghost predicate Admits(t: Table, bytes: nat, quotaMb: int, cap: nat) {
    forall p: nat :: Within(AfterAlloc(t, p, bytes, cap).used, quotaMb)
  }

  /** vmem_check_alloc, with the quota in megabytes. */
  predicate Fits(used: int, bytes: nat, quotaMb: int) {
    quotaMb <= 0 || used + bytes <= quotaMb * MB
  }

  /** The test foresees exactly what tracking would do to the counter. */
  lemma FitsIsAdmits(t: Table, bytes: nat, quotaMb: int, cap: nat)
    ensures Fits(t.used, bytes, quotaMb) <==> Admits(t, bytes, quotaMb, cap)
  {
    assert AfterAlloc(t, 1, bytes, cap).used == t.used + bytes;
  }

  /** The allocation hook: check, allocate, track. The driver returns p, or 0 if it fails. */
  function AfterRequest(t: Table, p: nat, bytes: nat, quotaMb: int, cap: nat): Table {
    if Fits(t.used, bytes, quotaMb) then AfterAlloc(t, p, bytes, cap) else t
  }

  function Requested(t: Table, ops: seq<Op>, quotaMb: int, cap: nat): Table
    decreases |ops|
  {
    if ops == [] then t else
      var u := match ops[0]
        case Alloc(p, bytes) => AfterRequest(t, p, bytes, quotaMb, cap)
        case Free(p) => AfterFree(t, p);
      Requested(u, ops[1..], quotaMb, cap)
  }

  /** With every allocation checked first, the counter stays within the quota over every run of requests
      and frees, and so do the blocks recorded in the table. */
  lemma {:induction false} QuotaKept(t: Table, ops: seq<Op>, quotaMb: int, cap: nat)
    requires Within(t.used, quotaMb) && Clean(t.slots) && Sizes(t.slots) <= t.used
    ensures var e := Requested(t, ops, quotaMb, cap);
            Within(e.used, quotaMb) && Within(Sizes(e.slots), quotaMb)
    decreases |ops|
  {
    if ops != [] {
      CounterStep(t, ops[0], cap);
      var u := match ops[0]
        case Alloc(p, bytes) => AfterRequest(t, p, bytes, quotaMb, cap)
        case Free(p) => AfterFree(t, p);
      assert Within(u.used, quotaMb) && Clean(u.slots) && Sizes(u.slots) <= u.used;
      QuotaKept(u, ops[1..], quotaMb, cap);
    }
  }

  // ---- The object ----

  class VirtualMemory {
    const table: array<Slot>
    var size: nat
    var used: int

    ghost predicate Valid()
      reads this
    {
      table.Length == MAX_ALLOC_ENTRIES && size <= table.Length
    }

    ghost function Contents(): Table
      reads this, table
      requires Valid()
    {
      Table(table[..size], used)
    }

    constructor ()
      ensures Valid() && fresh(table) && table.Length == 4096 && Contents() == Table([], 0)
    {
      table := new Slot[MAX_ALLOC_ENTRIES](_ => Slot(0, 0));
      size, used := 0, 0;
    }

    method CheckAlloc(bytes: nat, quotaMb: int) returns (ok: bool)
      requires Valid()
      ensures ok <==> Admits(Contents(), bytes, quotaMb, MAX_ALLOC_ENTRIES)
      ensures ok <==> quotaMb <= 0 || used + bytes <= quotaMb * 1024 * 1024
    {
      FitsIsAdmits(Contents(), bytes, quotaMb, MAX_ALLOC_ENTRIES);
      if quotaMb <= 0 {
        return true;
      }
      ok := used + bytes <= quotaMb * MB;
    }

    /** The allocation hook. `p` is what the driver would return, or 0 if it would fail. */
    method Allocate(p: nat, bytes: nat, quotaMb: int) returns (got: nat)
      requires Valid()
      modifies this, table
      ensures Valid() && Contents() == AfterRequest(old(Contents()), p, bytes, quotaMb, MAX_ALLOC_ENTRIES)
      ensures got == if Admits(old(Contents()), bytes, quotaMb, MAX_ALLOC_ENTRIES) then p else 0
    {
      FitsIsAdmits(Contents(), bytes, quotaMb, MAX_ALLOC_ENTRIES);
      var ok := CheckAlloc(bytes, quotaMb);
      if !ok {
        return 0;
      }
      TrackAlloc(p, bytes);
      got := p;
    }

    method TrackAlloc(ptr: nat, bytes: nat)
      requires Valid()
      modifies this, table
      ensures Valid() && Contents() == AfterAlloc(old(Contents()), ptr, bytes, MAX_ALLOC_ENTRIES)
    {
      if ptr == 0 || bytes == 0 {
        return;
      }
      var i := 0;
      while i < size
        invariant 0 <= i <= size
        invariant forall j :: 0 <= j < i ==> table[j].ptr != 0
      {
        if table[i].ptr == 0 {
          assert Find(table[..size], 0) == i;
          table[i] := Slot(ptr, bytes);
          used := used + bytes;
          return;
        }
        i := i + 1;
      }
      assert Find(table[..size], 0) == size;
      if size < MAX_ALLOC_ENTRIES {
        table[size] := Slot(ptr, bytes);
        size := size + 1;
      }
      used := used + bytes;
    }

    method TrackFree(ptr: nat)
      requires Valid()
      modifies this, table
      ensures Valid() && Contents() == AfterFree(old(Contents()), ptr)
    {
      if ptr == 0 {
        return;
      }
      var i := 0;
      while i < size
        invariant 0 <= i <= size
        invariant forall j :: 0 <= j < i ==> table[j].ptr != ptr
      {
        if table[i].ptr == ptr {
          assert Find(table[..size], ptr) == i;
          used := used - table[i].size;
          table[i] := Slot(0, 0);
          return;
        }
        i := i + 1;
      }
      assert Find(table[..size], ptr) == size;
    }
  }
}
