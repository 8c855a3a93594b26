/**
 Copy-on-write virtual memory: page tables, map counts, and the operations on them.

 A page table is kept flat here, one entry per virtual page; `VmKernel` keeps it as the
 two-level table of the machine and refines these functions. `memory` is the content of
 each frame, which the simulator leaves out: the copy of a frame is where its fault handler
 gives the writer a frame of its own.
 */
module VmModel {
  const NR_PTES: nat := 16
  const NR_PAGES: nat := 256
  const NR_FRAMES: nat := 128

  const RW_READ: nat := 1
  const RW_WRITE: nat := 2

  datatype Pte = Pte(valid: bool, writable: bool, pfn: nat, priv: nat)

  const ZERO_PTE := Pte(false, false, 0, 0)

  type Table = seq<Pte>

  datatype Proc = Proc(pid: nat, table: Table)

  datatype Kernel = Kernel(current: Proc, others: seq<Proc>, mapcounts: seq<nat>, memory: seq<int>)

  ghost predicate Sized(k: Kernel) {
    && |k.mapcounts| == |k.memory| == NR_FRAMES
    && |k.current.table| == NR_PAGES
    && forall i :: 0 <= i < |k.others| ==> |k.others[i].table| == NR_PAGES
  }

  ghost predicate PteOk(e: Pte) {
    && e.pfn < NR_FRAMES
    && e.priv <= 1
    && (!e.valid ==> e == ZERO_PTE)
    && (e.writable ==> e.priv == 1)
  }

  ghost predicate TableOk(t: Table) {
    |t| == NR_PAGES && forall v :: 0 <= v < |t| ==> PteOk(t[v])
  }

  /* ---------- The machine's walk and the operations ---------- */

  predicate Translates(t: Table, rw: nat, v: nat)
    requires v < |t|
  {
    t[v].valid && (rw == RW_WRITE ==> t[v].writable)
  }

  // The smallest frame nobody maps, or the number of frames when memory is full.
  function FirstFree(counts: seq<nat>): (f: nat)
    ensures f <= |counts|
    ensures f < |counts| ==> counts[f] == 0
    ensures forall i :: 0 <= i < f ==> counts[i] != 0
  {
    FirstFreeFrom(counts, 0)
  }

  function FirstFreeFrom(counts: seq<nat>, i: nat): (f: nat)
    requires i <= |counts|
    ensures i <= f <= |counts|
    ensures f < |counts| ==> counts[f] == 0
    ensures forall j :: i <= j < f ==> counts[j] != 0
    decreases |counts| - i
  {
    if i == |counts| || counts[i] == 0 then i else FirstFreeFrom(counts, i + 1)
  }

  predicate HasFree(counts: seq<nat>) {
    exists f :: 0 <= f < |counts| && counts[f] == 0
  }

  function SetPte(k: Kernel, v: nat, e: Pte): Kernel
    requires v < |k.current.table|
  {
    k.(current := k.current.(table := k.current.table[v := e]))
  }

  // `content` is what the new page holds before its first write.
  function Alloc(k: Kernel, v: nat, rw: nat, content: int): Kernel
    requires Sized(k) && v < NR_PAGES
  {
    var f := FirstFree(k.mapcounts);
    var w := rw != RW_READ;
    var e := Pte(true, w, if f < NR_FRAMES then f else k.current.table[v].pfn, if w then 1 else 0);
    if f < NR_FRAMES then SetPte(k, v, e).(mapcounts := k.mapcounts[f := 1], memory := k.memory[f := content])
    else SetPte(k, v, e)
  }

  function Free(k: Kernel, v: nat): Kernel
    requires Sized(k) && v < NR_PAGES
    requires k.current.table[v].pfn < NR_FRAMES && k.mapcounts[k.current.table[v].pfn] > 0
  {
    var f := k.current.table[v].pfn;
    SetPte(k, v, ZERO_PTE).(mapcounts := k.mapcounts[f := k.mapcounts[f] - 1])
  }

  // A write to the page must first get a frame of its own.
  predicate NeedsCopy(k: Kernel, v: nat)
    requires Sized(k) && v < NR_PAGES && TableOk(k.current.table)
  {
    var e := k.current.table[v];
    e.valid && e.priv == 1 && !e.writable && k.mapcounts[e.pfn] != 1
  }

  function Fault(k: Kernel, v: nat, rw: nat): (Kernel, bool)
    requires Sized(k) && v < NR_PAGES && TableOk(k.current.table)
    requires k.current.table[v].valid ==> k.mapcounts[k.current.table[v].pfn] > 0
  {
    var e := k.current.table[v];
    var f := FirstFree(k.mapcounts);
    if !e.valid then (k, false)
    else if e.priv == 1 then
      if k.mapcounts[e.pfn] != 1 && f < NR_FRAMES then
        var counts := k.mapcounts[e.pfn := k.mapcounts[e.pfn] - 1];
        (SetPte(k, v, e.(writable := true, pfn := f)).(mapcounts := counts[f := counts[f] + 1],
                                                        memory := k.memory[f := k.memory[e.pfn]]), true)
      else (SetPte(k, v, e.(writable := true)), true)
    else (k, rw != RW_WRITE)
  }

  // Index of the process with the given pid, or the length.
  function Find(ps: seq<Proc>, pid: nat): (i: nat)
    ensures i <= |ps|
    ensures i < |ps| ==> ps[i].pid == pid
    ensures forall j :: 0 <= j < i ==> ps[j].pid != pid
  {
    if ps == [] || ps[0].pid == pid then 0 else 1 + Find(ps[1..], pid)
  }

  function Protect(t: Table): (r: Table)
    ensures |r| == |t|
  {
    seq(|t|, v requires 0 <= v < |t| => t[v].(writable := false))
  }

  // The map counts after every valid entry of the table is mapped once more.
  function Recount(counts: seq<nat>, t: Table): (r: seq<nat>)
    ensures |r| == |counts|
  {
    if t == [] then counts
    else
      var r := Recount(counts, t[..|t| - 1]);
      var e := t[|t| - 1];
      if e.valid && e.pfn < |r| then r[e.pfn := r[e.pfn] + 1] else r
  }

  function Switch(k: Kernel, pid: nat): Kernel {
    var ps := k.others + [k.current];
    var i := Find(ps, pid);
    if i < |ps| then k.(current := ps[i], others := ps[..i] + ps[i + 1..])
    else
      var parent := k.current.(table := Protect(k.current.table));
      k.(current := Proc(pid, parent.table), others := k.others + [parent], mapcounts := Recount(k.mapcounts, parent.table))
  }

  // The system at start: process 0 with nothing mapped.
  function Boot(memory: seq<int>): Kernel {
    Kernel(Proc(0, seq(NR_PAGES, _ => ZERO_PTE)), [], seq(NR_FRAMES, _ => 0), memory)
  }

  /* ---------- Map counts and exclusivity ---------- */

  function Maps(e: Pte, f: nat): nat {
    if e.valid && e.pfn == f then 1 else 0
  }

  // The number of valid entries of the table for frame f.
  function Count(t: Table, f: nat): nat {
    if t == [] then 0 else Count(t[..|t| - 1], f) + Maps(t[|t| - 1], f)
  }

  function CountAll(ps: seq<Proc>, f: nat): nat {
    if ps == [] then 0 else CountAll(ps[..|ps| - 1], f) + Count(ps[|ps| - 1].table, f)
  }

  function All(k: Kernel): seq<Proc> {
    k.others + [k.current]
  }

  ghost predicate DistinctPids(ps: seq<Proc>) {
    forall i, j :: 0 <= i < j < |ps| ==> ps[i].pid != ps[j].pid
  }

  // The map count of a frame is the number of valid entries for it in all page tables.
  ghost predicate CountsExact(k: Kernel) {
    |k.mapcounts| == NR_FRAMES && forall f :: 0 <= f < NR_FRAMES ==> k.mapcounts[f] == CountAll(All(k), f)
  }

  ghost predicate WritableAlone(counts: seq<nat>, t: Table) {
    forall v :: 0 <= v < |t| && t[v].valid && t[v].writable ==> t[v].pfn < |counts| && counts[t[v].pfn] == 1
  }

  ghost predicate InvOver(k: Kernel, ps: seq<Proc>) {
    && Sized(k)
    && DistinctPids(ps)
    && (forall i :: 0 <= i < |ps| ==> TableOk(ps[i].table) && WritableAlone(k.mapcounts, ps[i].table))
    && CountsExact(k)
  }

  ghost predicate Inv(k: Kernel) {
    exists ps: seq<Proc> :: ps == All(k) && InvOver(k, ps)
  }

  lemma {:induction false} CountUpdate(t: Table, v: nat, e: Pte, f: nat)
    requires v < |t|
    ensures Count(t[v := e], f) == Count(t, f) - Maps(t[v], f) + Maps(e, f)
  {
    var n := |t| - 1;
    if v < n {
      CountUpdate(t[..n], v, e, f);
      assert t[v := e][..n] == t[..n][v := e];
    } else {
      assert t[v := e][..n] == t[..n];
    }
  }

  lemma {:induction false} CountHas(t: Table, v: nat)
    requires v < |t| && t[v].valid
    ensures Count(t, t[v].pfn) >= 1
  {
    if v < |t| - 1 { CountHas(t[..|t| - 1], v); }
  }

  // Two entries for one frame count twice.
  lemma {:induction false} CountHasTwo(t: Table, v: nat, u: nat)
    requires v < u < |t| && t[v].valid && t[u].valid && t[v].pfn == t[u].pfn
    ensures Count(t, t[v].pfn) >= 2
  {
    var n := |t| - 1;
    if u < n { CountHasTwo(t[..n], v, u); } else { CountHas(t[..n], v); }
  }

  lemma {:induction false} CountAllUpdate(ps: seq<Proc>, i: nat, p: Proc, f: nat)
    requires i < |ps|
    ensures CountAll(ps[i := p], f) == CountAll(ps, f) - Count(ps[i].table, f) + Count(p.table, f)
  {
    var n := |ps| - 1;
    if i < n {
      CountAllUpdate(ps[..n], i, p, f);
      assert ps[i := p][..n] == ps[..n][i := p];
    } else {
      assert ps[i := p][..n] == ps[..n];
    }
  }

  lemma {:induction false} CountAllAppend(a: seq<Proc>, b: seq<Proc>, f: nat)
    ensures CountAll(a + b, f) == CountAll(a, f) + CountAll(b, f)
  {
    if b == [] {
      assert a + b == a;
    } else {
      var n := |b| - 1;
      assert (a + b)[..|a| + n] == a + b[..n];
      CountAllAppend(a, b[..n], f);
    }
  }

  lemma {:induction false} CountAllHas(ps: seq<Proc>, i: nat, f: nat)
    requires i < |ps|
    ensures CountAll(ps, f) >= Count(ps[i].table, f)
  {
    if i < |ps| - 1 { CountAllHas(ps[..|ps| - 1], i, f); }
  }

  lemma {:induction false} CountAllHasTwo(ps: seq<Proc>, i: nat, j: nat, f: nat)
    requires i < j < |ps|
    ensures CountAll(ps, f) >= Count(ps[i].table, f) + Count(ps[j].table, f)
  {
    var n := |ps| - 1;
    if j < n { CountAllHasTwo(ps[..n], i, j, f); } else { CountAllHas(ps[..n], i, f); }
  }

  // A writable page is the only mapping of its frame, over all processes.
  lemma WritableIsExclusive(k: Kernel, i: nat, v: nat, j: nat, u: nat)
    requires Inv(k) && i < |All(k)| && j < |All(k)| && v < NR_PAGES && u < NR_PAGES
    requires All(k)[i].table[v].valid && All(k)[i].table[v].writable
    requires All(k)[j].table[u].valid && All(k)[j].table[u].pfn == All(k)[i].table[v].pfn
    ensures i == j && v == u
  {
    var ps := All(k);
    var f := ps[i].table[v].pfn;
    assert TableOk(ps[i].table) && WritableAlone(k.mapcounts, ps[i].table) && PteOk(ps[i].table[v]);
    assert TableOk(ps[j].table);
    CountHas(ps[i].table, v);
    CountHas(ps[j].table, u);
    if i < j { CountAllHasTwo(ps, i, j, f); }
    if j < i { CountAllHasTwo(ps, j, i, f); }
    CountAllHas(ps, i, f);
    if i == j && v < u { CountHasTwo(ps[i].table, v, u); }
    if i == j && u < v { CountHasTwo(ps[i].table, u, v); }
  }

  /* ---------- Every operation keeps the invariant, or exactly when memory is not full ---------- */

  lemma SetPteCount(k: Kernel, v: nat, e: Pte, f: nat)
    requires Sized(k) && v < NR_PAGES
    ensures CountAll(All(SetPte(k, v, e)), f) == CountAll(All(k), f) - Maps(k.current.table[v], f) + Maps(e, f)
  {
    var n := |k.others|;
    assert All(SetPte(k, v, e)) == All(k)[n := SetPte(k, v, e).current];
    CountAllUpdate(All(k), n, SetPte(k, v, e).current, f);
    CountUpdate(k.current.table, v, e, f);
  }

  lemma CurrentOk(k: Kernel)
    requires Inv(k)
    ensures TableOk(k.current.table) && WritableAlone(k.mapcounts, k.current.table)
    ensures forall v :: 0 <= v < NR_PAGES && k.current.table[v].valid ==>
              k.current.table[v].pfn < NR_FRAMES && k.mapcounts[k.current.table[v].pfn] > 0
  {
    assert All(k)[|k.others|] == k.current;
    forall v | 0 <= v < NR_PAGES && k.current.table[v].valid
      ensures k.current.table[v].pfn < NR_FRAMES && k.mapcounts[k.current.table[v].pfn] > 0
    {
      assert PteOk(k.current.table[v]);
      CountHas(k.current.table, v);
      CountAllHas(All(k), |k.others|, k.current.table[v].pfn);
    }
  }

  // Replacing one entry of the current table and new counts: what is left to check.
  lemma SetPteInv(k: Kernel, v: nat, e: Pte, counts: seq<nat>, memory: seq<int>)
    requires Inv(k) && v < NR_PAGES && PteOk(e) && |counts| == |memory| == NR_FRAMES
    requires forall f :: 0 <= f < NR_FRAMES ==> counts[f] == k.mapcounts[f] - Maps(k.current.table[v], f) + Maps(e, f)
    requires forall i :: 0 <= i < |k.others| ==> WritableAlone(counts, k.others[i].table)
    requires WritableAlone(counts, k.current.table[v := e])
    ensures Inv(SetPte(k, v, e).(mapcounts := counts, memory := memory))
  {
    var k' := SetPte(k, v, e).(mapcounts := counts, memory := memory);
    CurrentOk(k);
    var n := |k.others|;
    assert All(k') == All(SetPte(k, v, e));
    forall f | 0 <= f < NR_FRAMES ensures k'.mapcounts[f] == CountAll(All(k'), f) {
      SetPteCount(k, v, e, f);
    }
    forall i | 0 <= i < |All(k')| ensures TableOk(All(k')[i].table) && WritableAlone(k'.mapcounts, All(k')[i].table) {
      if i < n { assert All(k')[i] == All(k)[i]; }
    }
    assert forall i :: 0 <= i < |All(k')| ==> All(k')[i].pid == All(k)[i].pid;
    assert InvOver(k', All(k'));
  }

  lemma AllocKeepsInv(k: Kernel, v: nat, rw: nat, content: int)
    requires Inv(k) && v < NR_PAGES && !k.current.table[v].valid && HasFree(k.mapcounts)
    ensures Inv(Alloc(k, v, rw, content))
  {
    CurrentOk(k);
    var f := FirstFree(k.mapcounts);
    var w := rw != RW_READ;
    forall i | 0 <= i < |k.others| ensures WritableAlone(k.mapcounts[f := 1], k.others[i].table) {
      assert All(k)[i] == k.others[i];
    }
    SetPteInv(k, v, Pte(true, w, f, if w then 1 else 0), k.mapcounts[f := 1], k.memory[f := content]);
  }

  // When every frame is mapped, an allocation silently maps frame 0 and does not count it.
  lemma AllocWhenFull(k: Kernel, v: nat, rw: nat, content: int)
    requires Inv(k) && v < NR_PAGES && !k.current.table[v].valid && !HasFree(k.mapcounts)
    ensures var k' := Alloc(k, v, rw, content);
            && k'.current.table[v].valid && k'.current.table[v].pfn == 0
            && k'.mapcounts == k.mapcounts
            && CountAll(All(k'), 0) == k'.mapcounts[0] + 1
  {
    CurrentOk(k);
    assert PteOk(k.current.table[v]);
    var k' := Alloc(k, v, rw, content);
    SetPteCount(k, v, k'.current.table[v], 0);
  }

  // An allocation keeps the map counts exact, and writable pages exclusive, if and only if
  // some frame is free.
  lemma AllocKeepsInvIff(k: Kernel, v: nat, rw: nat, content: int)
    requires Inv(k) && v < NR_PAGES && !k.current.table[v].valid
    ensures Inv(Alloc(k, v, rw, content)) <==> HasFree(k.mapcounts)
  {
    if HasFree(k.mapcounts) { AllocKeepsInv(k, v, rw, content); } else { AllocWhenFull(k, v, rw, content); }
  }

  lemma FreeKeepsInv(k: Kernel, v: nat)
    requires Inv(k) && v < NR_PAGES && k.current.table[v].valid
    requires k.current.table[v].pfn < NR_FRAMES && k.mapcounts[k.current.table[v].pfn] > 0
    ensures Inv(Free(k, v))
  {
    CurrentOk(k);
    var n := |k.others|;
    var f := k.current.table[v].pfn;
    var counts := k.mapcounts[f := k.mapcounts[f] - 1];
    forall i | 0 <= i < |k.others| ensures WritableAlone(counts, k.others[i].table) {
      assert All(k)[i] == k.others[i] && All(k)[n] == k.current;
      forall u | 0 <= u < NR_PAGES && k.others[i].table[u].valid && k.others[i].table[u].writable
        ensures k.others[i].table[u].pfn != f
      {
        if k.others[i].table[u].pfn == f { WritableIsExclusive(k, i, u, n, v); }
      }
    }
    forall u | 0 <= u < NR_PAGES && u != v && k.current.table[u].valid && k.current.table[u].writable
      ensures k.current.table[u].pfn != f
    {
      assert All(k)[n] == k.current;
      if k.current.table[u].pfn == f { WritableIsExclusive(k, n, u, n, v); }
    }
    SetPteInv(k, v, ZERO_PTE, counts, k.memory);
  }

  lemma FaultCopyKeepsInv(k: Kernel, v: nat, rw: nat)
    requires Inv(k) && v < NR_PAGES && TableOk(k.current.table) && NeedsCopy(k, v) && HasFree(k.mapcounts)
    requires k.mapcounts[k.current.table[v].pfn] > 0
    ensures Inv(Fault(k, v, rw).0)
  {
    var e := k.current.table[v];
    var f := FirstFree(k.mapcounts);
    var k' := Fault(k, v, rw).0;
    assert All(k)[|k.others|] == k.current;
    forall i | 0 <= i < |k.others| ensures WritableAlone(k'.mapcounts, k.others[i].table) {
      assert All(k)[i] == k.others[i];
    }
    SetPteInv(k, v, e.(writable := true, pfn := f), k'.mapcounts, k'.memory);
  }

  lemma FaultInPlaceKeepsInv(k: Kernel, v: nat, rw: nat)
    requires Inv(k) && v < NR_PAGES && TableOk(k.current.table) && !NeedsCopy(k, v)
    requires k.current.table[v].valid ==> k.mapcounts[k.current.table[v].pfn] > 0
    ensures Inv(Fault(k, v, rw).0)
  {
    CurrentOk(k);
    var e := k.current.table[v];
    if e.valid && e.priv == 1 {
      assert k.mapcounts[e.pfn] == 1;
      forall i | 0 <= i < |k.others| ensures WritableAlone(k.mapcounts, k.others[i].table) {
        assert All(k)[i] == k.others[i];
      }
      SetPteInv(k, v, e.(writable := true), k.mapcounts, k.memory);
    }
  }

  // Handling a fault keeps writable pages exclusive if and only if the page need not be copied
  // or some frame is free; otherwise it makes a shared page writable.
  lemma FaultKeepsInvIff(k: Kernel, v: nat, rw: nat)
    requires Inv(k) && v < NR_PAGES && TableOk(k.current.table)
    requires k.current.table[v].valid ==> k.mapcounts[k.current.table[v].pfn] > 0
    ensures Inv(Fault(k, v, rw).0) <==> (NeedsCopy(k, v) ==> HasFree(k.mapcounts))
  {
    if !NeedsCopy(k, v) {
      FaultInPlaceKeepsInv(k, v, rw);
    } else if HasFree(k.mapcounts) {
      FaultCopyKeepsInv(k, v, rw);
    } else {
      var k' := Fault(k, v, rw).0;
      assert All(k')[|k'.others|] == k'.current;
      assert k'.current.table[v].writable && k'.mapcounts[k'.current.table[v].pfn] != 1;
    }
  }

  lemma {:induction false} RecountAdds(counts: seq<nat>, t: Table, f: nat)
    requires f < |counts| && forall v :: 0 <= v < |t| && t[v].valid ==> t[v].pfn < |counts|
    ensures Recount(counts, t)[f] == counts[f] + Count(t, f)
  {
    if t != [] { RecountAdds(counts, t[..|t| - 1], f); }
  }

  lemma {:induction false} ProtectCount(t: Table, f: nat)
    ensures Count(Protect(t), f) == Count(t, f)
  {
    if t != [] {
      var n := |t| - 1;
      assert Protect(t)[..n] == Protect(t[..n]);
      ProtectCount(t[..n], f);
    }
  }

  lemma ResumeKeepsInv(k: Kernel, i: nat)
    requires Inv(k) && i < |All(k)|
    ensures Inv(k.(current := All(k)[i], others := All(k)[..i] + All(k)[i + 1..]))
  {
    var ps := All(k);
    var k' := k.(current := ps[i], others := ps[..i] + ps[i + 1..]);
    forall j | 0 <= j < |All(k')| ensures TableOk(All(k')[j].table) && WritableAlone(k'.mapcounts, All(k')[j].table) {
      assert All(k')[j] == if j < i then ps[j] else if j < |ps| - 1 then ps[j + 1] else ps[i];
    }
    forall f | 0 <= f < NR_FRAMES ensures k'.mapcounts[f] == CountAll(All(k'), f) {
      RotateCount(ps, i, f);
    }
    CurrentOk(k);
    forall j | 0 <= j < |k'.others| ensures |k'.others[j].table| == NR_PAGES {
      assert k'.others[j] == All(k')[j] && TableOk(All(k')[j].table);
    }
    assert All(k')[|k'.others|] == k'.current;
    assert InvOver(k', All(k'));
  }

  lemma RotateCount(ps: seq<Proc>, i: nat, f: nat)
    requires i < |ps|
    ensures CountAll(ps[..i] + ps[i + 1..] + [ps[i]], f) == CountAll(ps, f)
  {
    var front, back := ps[..i], ps[i + 1..];
    assert ps == front + ([ps[i]] + back);
    CountAllAppend(front, [ps[i]] + back, f);
    CountAllAppend([ps[i]], back, f);
    CountAllAppend(front + back, [ps[i]], f);
    CountAllAppend(front, back, f);
  }

  lemma ForkTables(k: Kernel, pid: nat)
    requires Inv(k) && Find(All(k), pid) == |All(k)|
    ensures var k' := Switch(k, pid);
            forall j :: 0 <= j < |All(k')| ==> TableOk(All(k')[j].table) && WritableAlone(k'.mapcounts, All(k')[j].table)
  {
    CurrentOk(k);
    var k' := Switch(k, pid);
    var t := k.current.table;
    forall j | 0 <= j < |All(k')|
      ensures TableOk(All(k')[j].table) && WritableAlone(k'.mapcounts, All(k')[j].table)
    {
      if j < |k.others| {
        assert All(k')[j] == All(k)[j] == k.others[j];
        forall v | 0 <= v < NR_PAGES && k.others[j].table[v].valid && k.others[j].table[v].writable
          ensures k'.mapcounts[k.others[j].table[v].pfn] == 1
        {
          var f := k.others[j].table[v].pfn;
          CountHas(k.others[j].table, v);
          CountAllHasTwo(All(k), j, |k.others|, f);
          ProtectCount(t, f);
          RecountAdds(k.mapcounts, Protect(t), f);
        }
      } else {
        assert All(k')[j].table == Protect(t);
        forall v | 0 <= v < NR_PAGES ensures PteOk(Protect(t)[v]) { assert PteOk(t[v]); }
      }
    }
  }

  lemma ForkKeepsInv(k: Kernel, pid: nat)
    requires Inv(k) && Find(All(k), pid) == |All(k)|
    ensures Inv(Switch(k, pid))
  {
    CurrentOk(k);
    ForkTables(k, pid);
    var k' := Switch(k, pid);
    var t := Protect(k.current.table);
    forall f | 0 <= f < NR_FRAMES ensures k'.mapcounts[f] == CountAll(All(k'), f) {
      ForkCount(k, pid, f);
    }
    forall j | 0 <= j < |k'.others| ensures |k'.others[j].table| == NR_PAGES {
      assert k'.others[j] == All(k')[j] && TableOk(All(k')[j].table);
    }
    forall i, j | 0 <= i < j < |All(k')| ensures All(k')[i].pid != All(k')[j].pid {
      assert i < |All(k)| && All(k')[i].pid == All(k)[i].pid;
      assert j < |All(k)| ==> All(k')[j].pid == All(k)[j].pid;
    }
    assert InvOver(k', All(k'));
  }

  lemma ForkCount(k: Kernel, pid: nat, f: nat)
    requires Inv(k) && Find(All(k), pid) == |All(k)| && f < NR_FRAMES
    ensures Switch(k, pid).mapcounts[f] == CountAll(All(Switch(k, pid)), f)
  {
    CurrentOk(k);
    var k' := Switch(k, pid);
    var t := Protect(k.current.table);
    assert k.mapcounts[f] == CountAll(All(k), f);
    RecountAdds(k.mapcounts, t, f);
    ProtectCount(k.current.table, f);
    assert All(k')[..|All(k)|] == k'.others && k'.others[..|k.others|] == k.others == All(k)[..|k.others|];
  }

  lemma SwitchKeepsInv(k: Kernel, pid: nat)
    requires Inv(k)
    ensures Inv(Switch(k, pid))
  {
    var i := Find(All(k), pid);
    if i < |All(k)| { ResumeKeepsInv(k, i); } else { ForkKeepsInv(k, pid); }
  }

  /* ---------- Access through the machine ---------- */

  // What the fault handler needs of the current table.
  ghost predicate Ready(k: Kernel, v: nat) {
    && Sized(k) && v < NR_PAGES && TableOk(k.current.table)
    && (k.current.table[v].valid ==> k.mapcounts[k.current.table[v].pfn] > 0)
  }

  lemma FaultReady(k: Kernel, v: nat, rw: nat)
    requires Ready(k, v)
    ensures Ready(Fault(k, v, rw).0, v)
  {
    assert PteOk(k.current.table[v]);
  }

  // Translate; on failure handle the fault and, if that succeeded, try once more. A second
  // failure is handed to the fault handler again, whose answer is then final.
  function Access(k: Kernel, v: nat, rw: nat): (Kernel, bool)
    requires Ready(k, v)
  {
    if Translates(k.current.table, rw, v) then (k, true)
    else
      var (k1, handled) := Fault(k, v, rw);
      FaultReady(k, v, rw);
      if !handled then (k1, false)
      else if Translates(k1.current.table, rw, v) then (k1, true)
      else Fault(k1, v, rw)
  }

  // A handled fault is always followed by a successful translation, and an access is granted
  // exactly when the page is mapped and, for a write, was allocated for writing, whether or
  // not memory is full.
  lemma AccessGranted(k: Kernel, v: nat, rw: nat)
    requires Ready(k, v)
    ensures var e := k.current.table[v];
            Access(k, v, rw).1 <==> e.valid && (rw == RW_WRITE ==> e.priv == 1)
    ensures Access(k, v, rw).1 ==> |Access(k, v, rw).0.current.table| == NR_PAGES
                                   && Translates(Access(k, v, rw).0.current.table, rw, v)
    ensures !Access(k, v, rw).1 ==> Access(k, v, rw).0 == k
    ensures Access(k, v, rw).0 == k || Access(k, v, rw).0 == Fault(k, v, rw).0
  {
    assert PteOk(k.current.table[v]);
  }

  /* ---------- When a frame is free ---------- */

  // The number of mapped pages of a table.
  function Pages(t: Table): nat {
    if t == [] then 0 else Pages(t[..|t| - 1]) + (if t[|t| - 1].valid then 1 else 0)
  }

  function PagesAll(ps: seq<Proc>): nat {
    if ps == [] then 0 else PagesAll(ps[..|ps| - 1]) + Pages(ps[|ps| - 1].table)
  }

  // The number of mapped pages with a frame below n.
  function Below(t: Table, n: nat): nat {
    if t == [] then 0 else Below(t[..|t| - 1], n) + (if t[|t| - 1].valid && t[|t| - 1].pfn < n then 1 else 0)
  }

  function BelowAll(ps: seq<Proc>, n: nat): nat {
    if ps == [] then 0 else BelowAll(ps[..|ps| - 1], n) + Below(ps[|ps| - 1].table, n)
  }

  lemma {:induction false} BelowNext(t: Table, n: nat)
    ensures Below(t, n + 1) == Below(t, n) + Count(t, n)
    ensures Below(t, n) <= Pages(t)
  {
    if t != [] { BelowNext(t[..|t| - 1], n); }
  }

  lemma {:induction false} BelowAllNext(ps: seq<Proc>, n: nat)
    ensures BelowAll(ps, n + 1) == BelowAll(ps, n) + CountAll(ps, n)
    ensures BelowAll(ps, n) <= PagesAll(ps)
  {
    if ps != [] {
      BelowAllNext(ps[..|ps| - 1], n);
      BelowNext(ps[|ps| - 1].table, n);
    }
  }

  lemma {:induction false} MappedFramesBelow(k: Kernel, n: nat)
    requires CountsExact(k) && !HasFree(k.mapcounts) && n <= NR_FRAMES
    ensures BelowAll(All(k), n) >= n
  {
    if n > 0 {
      MappedFramesBelow(k, n - 1);
      BelowAllNext(All(k), n - 1);
    }
  }

  // As long as all processes together map fewer pages than there are frames, a frame is free.
  lemma FewPagesLeaveRoom(k: Kernel)
    requires Inv(k) && PagesAll(All(k)) < NR_FRAMES
    ensures HasFree(k.mapcounts)
  {
    if !HasFree(k.mapcounts) {
      MappedFramesBelow(k, NR_FRAMES);
      BelowAllNext(All(k), NR_FRAMES);
    }
  }
}
