/**
 Where pages are: which frame every command takes, keeps or gives up, for every page of every
 process.
 */
module VmFrames {
  import opened VmModel
  import opened VmRefinement

  // Frame f is free and every smaller one is mapped.
  ghost predicate SmallestFree(counts: seq<nat>, f: nat) {
    && f < |counts| && counts[f] == 0
    && forall g :: 0 <= g < f ==> counts[g] > 0
  }

  /* ---------- Allocations and faults ---------- */

  // With a frame free, an allocation takes the smallest free one for the page, maps it once, and
  // leaves every other entry, count, frame and process alone.
  lemma AllocTakesSmallest(k: Kernel, v: nat, rw: nat, content: int)
    requires Sized(k) && v < NR_PAGES && HasFree(k.mapcounts)
    ensures |Alloc(k, v, rw, content).current.table| == NR_PAGES
    ensures var k' := Alloc(k, v, rw, content); var f := k'.current.table[v].pfn;
            && SmallestFree(k.mapcounts, f)
            && k'.current.table[v] == Pte(true, rw != RW_READ, f, if rw == RW_READ then 0 else 1)
            && k'.current.table == k.current.table[v := k'.current.table[v]]
            && |k'.mapcounts| == |k'.memory| == NR_FRAMES && k'.mapcounts[f] == 1 && k'.memory[f] == content
            && (forall g :: 0 <= g < NR_FRAMES && g != f ==> k'.mapcounts[g] == k.mapcounts[g] && k'.memory[g] == k.memory[g])
            && k'.others == k.others && k'.current.pid == k.current.pid
  {
    var f :| 0 <= f < |k.mapcounts| && k.mapcounts[f] == 0;
    assert FirstFree(k.mapcounts) <= f;
  }

  // A fault on a page that needs no copy moves nothing: it changes at most the writable bit of
  // that page, which it sets when the page was allocated for writing.
  lemma FaultInPlace(k: Kernel, v: nat, rw: nat)
    requires Inv(k) && Ready(k, v) && !NeedsCopy(k, v)
    ensures var k' := Fault(k, v, rw).0; var e := k.current.table[v];
            k' == k.(current := k.current.(table := k.current.table[v := e.(writable := e.writable || (e.valid && e.priv == 1))]))
  {
    var e := k.current.table[v];
    CurrentOk(k);
    assert PteOk(e);
    if !(e.valid && e.priv == 1) {
      assert e.(writable := e.writable) == e && k.current.table[v := e] == k.current.table;
      assert k.current.(table := k.current.table) == k.current;
    }
  }

  // When a copy is needed and a frame is free, the page moves to the smallest free frame, with
  // its content and now writable; its old frame is mapped once less, the new one once, and
  // nothing else changes.
  lemma FaultTakesSmallest(k: Kernel, v: nat, rw: nat)
    requires Ready(k, v) && NeedsCopy(k, v) && HasFree(k.mapcounts)
    ensures |Fault(k, v, rw).0.current.table| == NR_PAGES && k.current.table[v].pfn < NR_FRAMES
    ensures var k' := Fault(k, v, rw).0; var e := k.current.table[v]; var f := k'.current.table[v].pfn;
            && SmallestFree(k.mapcounts, f) && f != e.pfn
            && k'.current.table == k.current.table[v := e.(writable := true, pfn := f)]
            && |k'.mapcounts| == |k'.memory| == NR_FRAMES
            && k'.mapcounts[f] == 1 && k'.mapcounts[e.pfn] == k.mapcounts[e.pfn] - 1 && k'.memory[f] == k.memory[e.pfn]
            && (forall g :: 0 <= g < NR_FRAMES && g != f ==> k'.memory[g] == k.memory[g])
            && (forall g :: 0 <= g < NR_FRAMES && g != f && g != e.pfn ==> k'.mapcounts[g] == k.mapcounts[g])
            && k'.others == k.others && k'.current.pid == k.current.pid
  {
    assert PteOk(k.current.table[v]);
    var f :| 0 <= f < |k.mapcounts| && k.mapcounts[f] == 0;
    assert FirstFree(k.mapcounts) <= f;
  }

  // With memory full such a fault sets the writable bit and does nothing else.
  lemma FaultWhenFull(k: Kernel, v: nat, rw: nat)
    requires Ready(k, v) && NeedsCopy(k, v) && !HasFree(k.mapcounts)
    ensures Fault(k, v, rw).0 == k.(current := k.current.(table := k.current.table[v := k.current.table[v].(writable := true)]))
  {
    assert FirstFree(k.mapcounts) == NR_FRAMES;
  }

  // A fault is handled exactly for a mapped page, if it was allocated for writing or the access
  // is not a write.
  lemma FaultHandled(k: Kernel, v: nat, rw: nat)
    requires Ready(k, v)
    ensures Fault(k, v, rw).1 <==> k.current.table[v].valid && (k.current.table[v].priv == 1 || rw != RW_WRITE)
  {
  }

  /* ---------- Where every page is after a command ---------- */

  // Page v of process pid is in frame f.
  ghost predicate InFrame(k: Kernel, pid: nat, v: nat, f: nat) {
    exists i: nat :: EntryIn(All(k), i, pid, v, f)
  }

  predicate EntryIn(ps: seq<Proc>, i: nat, pid: nat, v: nat, f: nat) {
    i < |ps| && ps[i].pid == pid && v < |ps[i].table| && ps[i].table[v].valid && ps[i].table[v].pfn == f
  }

  ghost predicate HasPid(k: Kernel, pid: nat) {
    exists i :: 0 <= i < |All(k)| && All(k)[i].pid == pid
  }

  // The frame of a page that a command gives a new one: the smallest free, or frame 0 unasked.
  ghost predicate TakenFrame(k: Kernel, f: nat) {
    if HasFree(k.mapcounts) then SmallestFree(k.mapcounts, f) else f == 0
  }

  // Where page v of process pid is after the command, in terms of where pages were before it.
  ghost predicate InFrameAfter(k: Kernel, c: Command, pid: nat, v: nat, f: nat)
    requires Inv(k) && Addresses(c)
  {
    var own := pid == k.current.pid;
    match c
    case DoAlloc(u, _, _) =>
      if own && v == u && !k.current.table[u].valid then TakenFrame(k, f) else InFrame(k, pid, v, f)
    case DoFree(u) => InFrame(k, pid, v, f) && !(own && v == u)
    case DoRead(_) => InFrame(k, pid, v, f)
    case DoWrite(u, _) =>
      InvReady(k, u);
      if own && v == u && NeedsCopy(k, u) && HasFree(k.mapcounts) then SmallestFree(k.mapcounts, f) else InFrame(k, pid, v, f)
    case DoSwitch(p) =>
      InFrame(k, pid, v, f) || (!HasPid(k, p) && pid == p && InFrame(k, k.current.pid, v, f))
  }

  lemma SmallestFreeUnique(counts: seq<nat>, f: nat, g: nat)
    requires SmallestFree(counts, f) && SmallestFree(counts, g)
    ensures f == g
  {
  }

  // The current process's pages are in its table, and the others' in theirs.
  lemma OwnFrame(k: Kernel, v: nat, f: nat)
    requires DistinctPids(All(k))
    ensures InFrame(k, k.current.pid, v, f) <==> v < |k.current.table| && k.current.table[v].valid && k.current.table[v].pfn == f
  {
    var n := |k.others|;
    assert All(k)[n] == k.current;
    if v < |k.current.table| && k.current.table[v].valid && k.current.table[v].pfn == f { assert EntryIn(All(k), n, k.current.pid, v, f); }
  }

  lemma OtherFrame(k: Kernel, k': Kernel, pid: nat, v: nat, f: nat)
    requires k'.others == k.others && k'.current.pid == k.current.pid != pid
    ensures InFrame(k', pid, v, f) <==> InFrame(k, pid, v, f)
  {
    var n := |k.others|;
    assert All(k)[n] == k.current && All(k')[n] == k'.current;
    assert forall i :: 0 <= i < n ==> All(k)[i] == All(k')[i];
    forall i: nat ensures EntryIn(All(k'), i, pid, v, f) <==> EntryIn(All(k), i, pid, v, f) { }
  }

  // One entry of the current table has changed.
  lemma OneEntryChanged(k: Kernel, k': Kernel, u: nat, pid: nat, v: nat, f: nat)
    requires Inv(k) && u < NR_PAGES && k'.others == k.others && k'.current.pid == k.current.pid
    requires |k'.current.table| == NR_PAGES && k'.current.table == k.current.table[u := k'.current.table[u]]
    ensures if pid == k.current.pid && v == u then InFrame(k', pid, v, f) <==> k'.current.table[u].valid && k'.current.table[u].pfn == f
            else InFrame(k', pid, v, f) <==> InFrame(k, pid, v, f)
  {
    CurrentOk(k);
    if pid == k.current.pid {
      assert forall i :: 0 <= i < |All(k')| ==> All(k')[i].pid == All(k)[i].pid;
      OwnFrame(k, v, f);
      OwnFrame(k', v, f);
    } else {
      OtherFrame(k, k', pid, v, f);
    }
  }

  lemma AllocPlaces(k: Kernel, c: Command, pid: nat, v: nat, f: nat)
    requires Inv(k) && Addresses(c) && c.DoAlloc?
    ensures InFrame(Exec(k, c).0, pid, v, f) <==> InFrameAfter(k, c, pid, v, f)
  {
    if !k.current.table[c.v].valid {
      var k' := Alloc(k, c.v, c.rw, c.content);
      OneEntryChanged(k, k', c.v, pid, v, f);
      if HasFree(k.mapcounts) {
        AllocTakesSmallest(k, c.v, c.rw, c.content);
        if SmallestFree(k.mapcounts, f) { SmallestFreeUnique(k.mapcounts, f, k'.current.table[c.v].pfn); }
      } else {
        AllocWhenFull(k, c.v, c.rw, c.content);
      }
    }
  }

  lemma FreePlaces(k: Kernel, c: Command, pid: nat, v: nat, f: nat)
    requires Inv(k) && Addresses(c) && c.DoFree?
    ensures InFrame(Exec(k, c).0, pid, v, f) <==> InFrameAfter(k, c, pid, v, f)
  {
    InvReady(k, c.v);
    if k.current.table[c.v].valid {
      OneEntryChanged(k, Exec(k, c).0, c.v, pid, v, f);
    } else {
      OwnFrame(k, v, f);
    }
  }

  lemma FaultPlaces(k: Kernel, u: nat, rw: nat, pid: nat, v: nat, f: nat)
    requires Inv(k) && Ready(k, u)
    ensures InFrame(Fault(k, u, rw).0, pid, v, f) <==>
              if pid == k.current.pid && v == u && NeedsCopy(k, u) && HasFree(k.mapcounts) then SmallestFree(k.mapcounts, f)
              else InFrame(k, pid, v, f)
  {
    var k' := Fault(k, u, rw).0;
    OneEntryChanged(k, k', u, pid, v, f);
    OwnFrame(k, u, f);
    if !NeedsCopy(k, u) {
      FaultInPlace(k, u, rw);
    } else if HasFree(k.mapcounts) {
      FaultTakesSmallest(k, u, rw);
      if SmallestFree(k.mapcounts, f) { SmallestFreeUnique(k.mapcounts, f, k'.current.table[u].pfn); }
    } else {
      FaultWhenFull(k, u, rw);
    }
  }

  lemma WritePlaces(k: Kernel, c: Command, pid: nat, v: nat, f: nat)
    requires Inv(k) && Addresses(c) && c.DoWrite?
    ensures InFrame(Exec(k, c).0, pid, v, f) <==> InFrameAfter(k, c, pid, v, f)
  {
    InvReady(k, c.v);
    AccessGranted(k, c.v, RW_WRITE);
    FaultPlaces(k, c.v, RW_WRITE, pid, v, f);
    var k1 := Access(k, c.v, RW_WRITE).0;
    assert All(Exec(k, c).0) == All(k1);
    assert PteOk(k.current.table[c.v]);
  }

  lemma RotatedEntry(ps: seq<Proc>, i: nat, qs: seq<Proc>, pid: nat, v: nat, f: nat)
    requires i < |ps| == |qs| && forall j :: 0 <= j < |ps| ==> qs[j] == ps[if j < i then j else if j < |ps| - 1 then j + 1 else i]
    ensures (exists j: nat :: EntryIn(qs, j, pid, v, f)) <==> (exists j: nat :: EntryIn(ps, j, pid, v, f))
  {
    var n := |ps| - 1;
    if j: nat :| EntryIn(qs, j, pid, v, f) { assert EntryIn(ps, if j < i then j else if j < n then j + 1 else i, pid, v, f); }
    if j: nat :| EntryIn(ps, j, pid, v, f) { assert EntryIn(qs, if j < i then j else if j == i then n else j - 1, pid, v, f); }
  }

  lemma ResumePlaces(k: Kernel, i: nat, pid: nat, v: nat, f: nat)
    requires i < |All(k)|
    ensures InFrame(k.(current := All(k)[i], others := All(k)[..i] + All(k)[i + 1..]), pid, v, f) <==> InFrame(k, pid, v, f)
  {
    var k' := k.(current := All(k)[i], others := All(k)[..i] + All(k)[i + 1..]);
    RotatedEntry(All(k), i, All(k'), pid, v, f);
  }

  lemma ForkPlaces(k: Kernel, p: nat, pid: nat, v: nat, f: nat)
    requires Inv(k) && Find(All(k), p) == |All(k)|
    ensures InFrame(Switch(k, p), pid, v, f) <==> InFrame(k, pid, v, f) || (pid == p && InFrame(k, k.current.pid, v, f))
  {
    var k' := Switch(k, p);
    var n := |k.others|;
    OwnFrame(k, v, f);
    assert All(k)[n] == k.current && All(k')[n].table == All(k')[n + 1].table == Protect(k.current.table);
    assert forall j :: 0 <= j < n ==> All(k')[j] == All(k)[j];
    assert All(k')[n].pid == k.current.pid && All(k')[n + 1].pid == p;
    if InFrame(k', pid, v, f) {
      var j: nat :| EntryIn(All(k'), j, pid, v, f);
      if j <= n { assert EntryIn(All(k), j, pid, v, f); }
    }
    if InFrame(k, pid, v, f) {
      var j: nat :| EntryIn(All(k), j, pid, v, f);
      assert EntryIn(All(k'), j, pid, v, f);
    }
    if pid == p && InFrame(k, k.current.pid, v, f) { assert EntryIn(All(k'), n + 1, pid, v, f); }
  }

  lemma SwitchPlaces(k: Kernel, c: Command, pid: nat, v: nat, f: nat)
    requires Inv(k) && Addresses(c) && c.DoSwitch?
    ensures InFrame(Exec(k, c).0, pid, v, f) <==> InFrameAfter(k, c, pid, v, f)
  {
    var i := Find(All(k), c.pid);
    if i < |All(k)| {
      assert All(k)[i].pid == c.pid;
      ResumePlaces(k, i, pid, v, f);
    } else {
      ForkPlaces(k, c.pid, pid, v, f);
    }
  }

  // After any command, in any state that satisfies the invariant, every page of every process is
  // where it was, except that an allocated page is in the smallest free frame (frame 0 when none
  // is), a freed one is nowhere, a page written that needed a copy has moved to the smallest free
  // frame, and a new process's pages are where its parent's are.
  lemma EveryPagesPlace(k: Kernel, c: Command, pid: nat, v: nat, f: nat)
    requires Inv(k) && Addresses(c)
    ensures InFrame(Exec(k, c).0, pid, v, f) <==> InFrameAfter(k, c, pid, v, f)
  {
    match c
    case DoAlloc(_, _, _) => AllocPlaces(k, c, pid, v, f);
    case DoFree(_) => FreePlaces(k, c, pid, v, f);
    case DoRead(u) => ReadReply(k, u);
    case DoWrite(_, _) => WritePlaces(k, c, pid, v, f);
    case DoSwitch(_) => SwitchPlaces(k, c, pid, v, f);
  }
}
