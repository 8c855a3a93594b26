/**
 The two-level page tables and the kernel operations that update them in place. Each method
 is proved against the flat model, so that no operation on the current process touches
 another one's table is here the statement that their directories are separate objects.
 */
module VmKernel {
  import opened VmModel
  import opened VmRefinement
  import opened VmFrames

  type Directory = array<Pte>
  type Outer = array<array?<Pte>>

  const ZERO_DIR: Table := seq(NR_PTES, _ => ZERO_PTE)

  class Process {
    const pid: nat
    const outer: Outer

    constructor (pid: nat, outer: Outer)
      ensures this.pid == pid && this.outer == outer
    {
      this.pid := pid;
      this.outer := outer;
    }
  }

  // The entries of directory x in a flat table.
  function Part(t: Table, x: nat): (p: Table)
    requires |t| == NR_PAGES && x < NR_PTES
    ensures |p| == NR_PTES
  {
    t[NR_PTES * x..NR_PTES * x + NR_PTES]
  }

  lemma PartUpdate(t: Table, v: nat, e: Pte, x: nat)
    requires |t| == NR_PAGES && v < NR_PAGES && x < NR_PTES
    ensures Part(t[v := e], x) == if x == v / NR_PTES then Part(t, x)[v % NR_PTES := e] else Part(t, x)
    ensures Part(t, v / NR_PTES)[v % NR_PTES] == t[v]
  {
  }

  // A missing directory stands for zero entries.
  ghost predicate ShowsDir(d: array?<Pte>, part: Table)
    reads d
  {
    if d == null then part == ZERO_DIR else d[..] == part
  }

  ghost predicate Shows(o: Outer, t: Table)
    reads o, set x | 0 <= x < o.Length && o[x] != null :: o[x]
  {
    && o.Length == NR_PTES
    && |t| == NR_PAGES
    && forall x :: 0 <= x < NR_PTES ==> ShowsDir(o[x], Part(t, x))
  }

  // Directory x protected, the rest as it was.
  function ProtectPart(t: Table, x: nat): (r: Table)
    requires |t| == NR_PAGES && x < NR_PTES
    ensures |r| == NR_PAGES
  {
    t[..NR_PTES * x] + Protect(Part(t, x)) + t[NR_PTES * x + NR_PTES..]
  }

  lemma ProtectPartParts(t: Table, x: nat, y: nat)
    requires |t| == NR_PAGES && x < NR_PTES && y < NR_PTES
    ensures Part(ProtectPart(t, x), y) == if y == x then Protect(Part(t, x)) else Part(t, y)
  {
  }

  // The table with the first n entries protected.
  function ProtectFirst(t: Table, n: nat): Table
    requires n <= |t|
  {
    Protect(t[..n]) + t[n..]
  }

  lemma ProtectNext(t: Table, x: nat)
    requires |t| == NR_PAGES && x < NR_PTES
    ensures ProtectPart(ProtectFirst(t, NR_PTES * x), x) == ProtectFirst(t, NR_PTES * (x + 1))
    ensures Protect(Part(ProtectFirst(t, NR_PTES * x), x)) == Part(Protect(t), x)
    ensures Protect(t)[..NR_PTES * (x + 1)] == Protect(t)[..NR_PTES * x] + Part(Protect(t), x)
  {
    var a := ProtectFirst(t, NR_PTES * x);
    assert Part(a, x) == Part(t, x);
    assert Protect(Part(t, x)) == Part(Protect(t), x);
    ProtectAppend(t[..NR_PTES * x], Part(t, x));
    assert t[..NR_PTES * (x + 1)] == t[..NR_PTES * x] + Part(t, x);
    assert a[..NR_PTES * x] == Protect(t[..NR_PTES * x]) && a[NR_PTES * x + NR_PTES..] == t[NR_PTES * (x + 1)..];
  }

  lemma ProtectAppend(a: Table, b: Table)
    ensures Protect(a + b) == Protect(a) + Protect(b)
  {
  }

  lemma ProtectFirstOk(t: Table, n: nat)
    requires TableOk(t) && n <= |t|
    ensures TableOk(ProtectFirst(t, n))
  {
    forall v | 0 <= v < |t| ensures PteOk(ProtectFirst(t, n)[v]) { assert PteOk(t[v]); }
  }

  lemma {:induction false} RecountAppend(counts: seq<nat>, a: Table, b: Table)
    ensures Recount(counts, a + b) == Recount(Recount(counts, a), b)
  {
    if b == [] {
      assert a + b == a;
    } else {
      var n := |b| - 1;
      assert (a + b)[..|a| + n] == a + b[..n];
      RecountAppend(counts, a, b[..n]);
    }
  }

  lemma {:induction false} RecountNothing(counts: seq<nat>, t: Table)
    requires forall v :: 0 <= v < |t| ==> !t[v].valid
    ensures Recount(counts, t) == counts
  {
    if t != [] { RecountNothing(counts, t[..|t| - 1]); }
  }

  // The kernel state when n directories of the current process have been forked.
  function ForkState(k: Kernel, n: nat): Kernel
    requires Sized(k) && n <= NR_PTES
  {
    k.(current := k.current.(table := ProtectFirst(k.current.table, NR_PTES * n)),
       mapcounts := Recount(k.mapcounts, Protect(k.current.table)[..NR_PTES * n]))
  }

  lemma ForkStateBounds(k: Kernel)
    requires Sized(k)
    ensures ForkState(k, 0) == k
    ensures ForkState(k, NR_PTES) == k.(current := k.current.(table := Protect(k.current.table)),
                                        mapcounts := Recount(k.mapcounts, Protect(k.current.table)))
  {
    var p := Protect(k.current.table);
    assert ProtectFirst(k.current.table, 0) == k.current.table;
    assert ProtectFirst(k.current.table, NR_PAGES) == p && p[..NR_PAGES] == p;
  }

  lemma ForkStateNext(k: Kernel, n: nat)
    requires Sized(k) && TableOk(k.current.table) && n < NR_PTES
    ensures var s, p := ForkState(k, n), Protect(k.current.table);
            && TableOk(s.current.table)
            && Protect(Part(s.current.table, n)) == Part(p, n)
            && ForkState(k, n + 1) == s.(current := s.current.(table := ProtectPart(s.current.table, n)),
                                         mapcounts := Recount(s.mapcounts, Part(p, n)))
  {
    var t, p := k.current.table, Protect(k.current.table);
    ProtectNext(t, n);
    ProtectFirstOk(t, NR_PTES * n);
    RecountAppend(k.mapcounts, p[..NR_PTES * n], Part(p, n));
  }

  lemma RecountNext(counts: seq<nat>, t: Table, j: nat)
    requires j < |t|
    ensures Recount(counts, t[..j + 1])
            == (var r := Recount(counts, t[..j]); if t[j].valid && t[j].pfn < |r| then r[t[j].pfn := r[t[j].pfn] + 1] else r)
  {
    assert t[..j + 1][..j] == t[..j];
  }

  // Protects a directory, copies it, and counts the mappings of the copy.
  method CopyDirectory(src: Directory, mapcounts: array<nat>) returns (dst: Directory)
    requires src.Length == NR_PTES
    requires forall j :: 0 <= j < NR_PTES && src[j].valid ==> src[j].pfn < mapcounts.Length
    modifies src, mapcounts
    ensures fresh(dst) && dst[..] == src[..] == Protect(old(src[..]))
    ensures mapcounts[..] == Recount(old(mapcounts[..]), Protect(old(src[..])))
  {
    dst := new Pte[NR_PTES](_ => ZERO_PTE);
    ghost var before, counts := src[..], mapcounts[..];
    ghost var t := Protect(before);
    for j := 0 to NR_PTES
      invariant forall k :: 0 <= k < j ==> src[k] == dst[k] == t[k]
      invariant forall k :: j <= k < NR_PTES ==> src[k] == before[k]
      invariant mapcounts[..] == Recount(counts, t[..j])
    {
      src[j] := src[j].(writable := false);
      dst[j] := src[j];
      RecountNext(counts, t, j);
      if src[j].valid {
        mapcounts[src[j].pfn] := mapcounts[src[j].pfn] + 1;
      }
    }
    assert t[..NR_PTES] == t;
    assert src[..] == t && dst[..] == t;
  }

  // Index of the first process with the given pid, or the length.
  method FindProcess(ps: seq<Process>, pid: nat) returns (i: nat)
    ensures i <= |ps|
    ensures i < |ps| ==> ps[i].pid == pid
    ensures forall j :: 0 <= j < i ==> ps[j].pid != pid
  {
    i := 0;
    while i < |ps|
      invariant i <= |ps|
      invariant forall j :: 0 <= j < i ==> ps[j].pid != pid
    {
      if ps[i].pid == pid { return; }
      i := i + 1;
    }
  }

  class KernelState {
    var current: Process
    var processes: seq<Process>
    var ptbr: Outer
    const mapcounts: array<nat>

    // The model state these objects stand for, and where each table and directory belongs.
    ghost var model: Kernel
    ghost var home: map<Outer, Process>
    ghost var place: map<Directory, (Outer, nat)>

    // The tables of p are its own and show its model table.
    ghost predicate Owns(p: Process, t: Table)
      reads this`home, this`place, p.outer, place.Keys
    {
      && p.outer in home && home[p.outer] == p
      && p.outer.Length == NR_PTES
      && (forall x :: 0 <= x < NR_PTES && p.outer[x] != null ==> p.outer[x] in place && place[p.outer[x]] == (p.outer, x))
      && Shows(p.outer, t)
    }

    ghost predicate Valid()
      reads this, home.Keys, place.Keys, mapcounts
    {
      && ptbr == current.outer
      && mapcounts[..] == model.mapcounts
      && Sized(model)
      && |processes| == |model.others|
      && current.pid == model.current.pid
      && (forall i :: 0 <= i < |processes| ==> processes[i].pid == model.others[i].pid)
      && (forall i :: 0 <= i < |processes| ==> processes[i] != current)
      && (forall i, j :: 0 <= i < j < |processes| ==> processes[i] != processes[j])
      && current.outer in home && Owns(current, model.current.table)
      && (forall i :: 0 <= i < |processes| ==> processes[i].outer in home && Owns(processes[i], model.others[i].table))
    }

    // The system at start: process 0 and empty tables.
    constructor (ghost contents: seq<int>)
      requires |contents| == NR_FRAMES
      ensures Valid() && model == Boot(contents)
    {
      var outer := new array?<Pte>[NR_PTES](_ => null);
      var init := new Process(0, outer);
      current, processes, ptbr := init, [], outer;
      mapcounts := new nat[NR_FRAMES](_ => 0);
      model := Boot(contents);
      home := map[outer := init];
      place := map[];
      new;
      assert mapcounts[..] == model.mapcounts;
    }

    // A zeroed directory where there was none.
    method EnsureDirectory(x: nat)
      requires Valid() && x < NR_PTES
      modifies ptbr, this`place
      ensures Valid() && ptbr[x] != null
      ensures place.Keys - old(place.Keys) <= {ptbr[x]} && fresh(place.Keys - old(place.Keys))
    {
      if ptbr[x] == null {
        assert ShowsDir(ptbr[x], Part(model.current.table, x));
        var d := new Pte[NR_PTES](_ => ZERO_PTE);
        ptbr[x] := d;
        place := place[d := (ptbr, x)];
        assert d[..] == ZERO_DIR;
        assert Shows(ptbr, model.current.table);
        forall i | 0 <= i < |processes| ensures Owns(processes[i], model.others[i].table) {
          assert old(Owns(processes[i], model.others[i].table));
        }
      }
    }

    // Stores one entry of the current page table.
    method SetEntry(v: nat, e: Pte)
      requires Valid() && v < NR_PAGES && ptbr[v / NR_PTES] != null
      modifies ptbr[v / NR_PTES], this`model
      ensures Valid() && model == SetPte(old(model), v, e)
    {
      var x := v / NR_PTES;
      assert ShowsDir(ptbr[x], Part(model.current.table, x));
      ptbr[x][v % NR_PTES] := e;
      ghost var t := model.current.table;
      model := SetPte(model, v, e);
      forall y | 0 <= y < NR_PTES ensures ShowsDir(ptbr[y], Part(model.current.table, y)) {
        assert old(ShowsDir(ptbr[y], Part(t, y)));
        PartUpdate(t, v, e, y);
      }
      forall i | 0 <= i < |processes| ensures Owns(processes[i], model.others[i].table) {
        assert old(Owns(processes[i], model.others[i].table));
        assert forall y :: 0 <= y < NR_PTES && processes[i].outer[y] != null ==> processes[i].outer[y] != ptbr[x];
        assert forall y :: 0 <= y < NR_PTES ==> ShowsDir(processes[i].outer[y], Part(model.others[i].table, y));
      }
    }

    method GetEntry(v: nat) returns (e: Pte)
      requires Valid() && v < NR_PAGES && ptbr[v / NR_PTES] != null
      ensures e == model.current.table[v]
    {
      assert ShowsDir(ptbr[v / NR_PTES], Part(model.current.table, v / NR_PTES));
      PartUpdate(model.current.table, v, ZERO_PTE, v / NR_PTES);
      e := ptbr[v / NR_PTES][v % NR_PTES];
    }

    lemma MissingEntry(v: nat)
      requires Valid() && v < NR_PAGES && ptbr[v / NR_PTES] == null
      ensures model.current.table[v] == ZERO_PTE
    {
      assert ShowsDir(ptbr[v / NR_PTES], Part(model.current.table, v / NR_PTES));
      PartUpdate(model.current.table, v, ZERO_PTE, v / NR_PTES);
      assert ZERO_DIR[v % NR_PTES] == ZERO_PTE;
    }

    // The walk of the memory management unit.
    method Translate(rw: nat, v: nat) returns (ok: bool, pfn: nat)
      requires Valid() && v < NR_PAGES
      ensures ok <==> Translates(model.current.table, rw, v)
      ensures ok ==> pfn == model.current.table[v].pfn
    {
      pfn := 0;
      if ptbr[v / NR_PTES] == null {
        MissingEntry(v);
        return false, 0;
      }
      var e := GetEntry(v);
      if !e.valid { return false, 0; }
      if rw == RW_WRITE {
        if !e.writable { return false, 0; }
      }
      return true, e.pfn;
    }

    method FindFree() returns (f: nat)
      ensures f == FirstFree(mapcounts[..])
    {
      f := 0;
      while f < mapcounts.Length
        invariant f <= mapcounts.Length
        invariant forall i :: 0 <= i < f ==> mapcounts[i] != 0
      {
        if mapcounts[f] == 0 { break; }
        f := f + 1;
      }
      assert f < mapcounts.Length ==> mapcounts[..][f] == 0;
      assert forall i :: 0 <= i < f ==> mapcounts[..][i] == mapcounts[i];
    }

    // Adjusts the count of one frame.
    method SetCount(f: nat, n: nat)
      requires Valid() && f < NR_FRAMES
      modifies mapcounts, this`model
      ensures Valid() && model == old(model).(mapcounts := old(model.mapcounts)[f := n])
    {
      mapcounts[f] := n;
      model := model.(mapcounts := model.mapcounts[f := n]);
    }

    // Maps the first free frame once, when there is one.
    method TakeFrame(ghost content: int) returns (f: nat)
      requires Valid()
      modifies mapcounts, this`model
      ensures Valid() && f == FirstFree(old(model.mapcounts))
      ensures model == if f < NR_FRAMES then old(model).(mapcounts := old(model.mapcounts)[f := 1],
                                                         memory := old(model.memory)[f := content])
                       else old(model)
    {
      f := FindFree();
      if f < NR_FRAMES {
        SetCount(f, 1);
        model := model.(memory := model.memory[f := content]);
      }
    }

    // Moves one mapping of a frame to a free frame with the same contents, when there is one.
    method MoveMapping(before: nat) returns (f: nat)
      requires Valid() && before < NR_FRAMES && model.mapcounts[before] > 0
      modifies mapcounts, this`model
      ensures Valid() && f == FirstFree(old(model.mapcounts))
      ensures var counts := old(model.mapcounts)[before := old(model.mapcounts)[before] - 1];
              model == if f < NR_FRAMES then old(model).(mapcounts := counts[f := counts[f] + 1],
                                                         memory := old(model.memory)[f := old(model.memory)[before]])
                       else old(model)
    {
      f := FindFree();
      if f < NR_FRAMES {
        SetCount(before, mapcounts[before] - 1);
        SetCount(f, mapcounts[f] + 1);
        model := model.(memory := model.memory[f := model.memory[before]]);
      }
    }

    // Returns the frame, which is not -1 even when no frame was free.
    method MapPage(v: nat, rw: nat, ghost content: int) returns (pfn: nat)
      requires Valid() && v < NR_PAGES
      modifies this`model, this`place, mapcounts, ptbr, place.Keys
      ensures Valid() && model == Alloc(old(model), v, rw, content)
      ensures pfn == model.current.table[v].pfn
    {
      EnsureDirectory(v / NR_PTES);
      var e := GetEntry(v);
      e := e.(valid := true);
      if rw == RW_READ {
        e := e.(writable := false, priv := 0);
      } else {
        e := e.(writable := true, priv := 1);
      }
      var f := TakeFrame(content);
      if f < NR_FRAMES { e := e.(pfn := f); }
      SetEntry(v, e);
      return e.pfn;
    }

    // The frame returned is the smallest free one, mapped once from now on.
    method AllocPage(v: nat, rw: nat, ghost content: int) returns (pfn: nat)
      requires Valid() && v < NR_PAGES
      modifies this`model, this`place, mapcounts, ptbr, place.Keys
      ensures Valid() && model == Alloc(old(model), v, rw, content) && pfn == model.current.table[v].pfn
      ensures old(HasFree(model.mapcounts)) ==>
                SmallestFree(old(mapcounts[..]), pfn) && mapcounts[..] == old(mapcounts[..])[pfn := 1]
    {
      ghost var k := model;
      pfn := MapPage(v, rw, content);
      if HasFree(k.mapcounts) { AllocTakesSmallest(k, v, rw, content); }
    }

    method FreePage(v: nat)
      requires Valid() && v < NR_PAGES && model.current.table[v].valid
      requires model.current.table[v].pfn < NR_FRAMES && model.mapcounts[model.current.table[v].pfn] > 0
      modifies this`model, mapcounts, place.Keys
      ensures Valid() && model == Free(old(model), v)
    {
      if ptbr[v / NR_PTES] == null { MissingEntry(v); }
      var e := GetEntry(v);
      SetCount(e.pfn, mapcounts[e.pfn] - 1);
      SetEntry(v, ZERO_PTE);
    }

    method BreakSharing(v: nat, rw: nat) returns (handled: bool)
      requires Valid() && Ready(model, v)
      modifies this`model, mapcounts, place.Keys
      ensures Valid() && (model, handled) == Fault(old(model), v, rw)
    {
      if ptbr[v / NR_PTES] == null {
        MissingEntry(v);
        return false;
      }
      var e := GetEntry(v);
      assert PteOk(e);
      if !e.valid { return false; }
      if e.priv == 1 {
        var before := e.pfn;
        e := e.(writable := true);
        if mapcounts[before] != 1 {
          var f := MoveMapping(before);
          if f < NR_FRAMES { e := e.(pfn := f); }
        }
        SetEntry(v, e);
      } else if rw == RW_WRITE {
        return false;
      }
      return true;
    }

    // Nothing moves unless a copy is needed; then the page moves to the smallest free frame.
    method HandlePageFault(v: nat, rw: nat) returns (handled: bool)
      requires Valid() && Ready(model, v)
      modifies this`model, mapcounts, place.Keys
      ensures Valid() && (model, handled) == Fault(old(model), v, rw)
      ensures old(Inv(model) && !NeedsCopy(model, v)) ==>
                mapcounts[..] == old(mapcounts[..]) && model.current.table[v].pfn == old(model.current.table[v].pfn)
      ensures old(NeedsCopy(model, v) && HasFree(model.mapcounts)) ==>
                SmallestFree(old(mapcounts[..]), model.current.table[v].pfn)
    {
      ghost var k := model;
      handled := BreakSharing(v, rw);
      if NeedsCopy(k, v) {
        if HasFree(k.mapcounts) { FaultTakesSmallest(k, v, rw); }
      } else if Inv(k) {
        FaultInPlace(k, v, rw);
      }
    }

    // The access loop of the machine, which gives up after two failed translations.
    method AccessMemory(v: nat, rw: nat) returns (granted: bool)
      requires Valid() && Ready(model, v)
      modifies this`model, mapcounts, place.Keys
      ensures Valid() && (model, granted) == Access(old(model), v, rw)
    {
      var retries := 0;
      var handled := true;
      ghost var k := model;
      while handled && retries < 2
        invariant Valid() && Ready(model, v) && retries <= 2
        invariant place == old(place)
        invariant retries == 0 ==> model == k && handled
        invariant retries == 1 ==> !Translates(k.current.table, rw, v) && (model, handled) == Fault(k, v, rw)
        invariant retries == 2 ==>
                    && !Translates(k.current.table, rw, v)
                    && Ready(Fault(k, v, rw).0, v)
                    && Fault(k, v, rw).1
                    && !Translates(Fault(k, v, rw).0.current.table, rw, v)
                    && (model, handled) == Fault(Fault(k, v, rw).0, v, rw)
        decreases 2 - retries
      {
        var ok, _ := Translate(rw, v);
        if ok { return true; }
        retries := retries + 1;
        FaultReady(model, v, rw);
        handled := HandlePageFault(v, rw);
      }
      return handled;
    }

    // Runs another process of the list again; the current one goes to its end first.
    method Resume(ps: seq<Process>, i: nat)
      requires Valid() && ps == processes + [current] && i < |ps|
      modifies this
      ensures Valid()
      ensures var all := old(All(model));
              model == old(model).(current := all[i], others := all[..i] + all[i + 1..])
    {
      ghost var all := All(model);
      assert OwnsAll(ps, all);
      RestOwned(ps, all, i);
      current := ps[i];
      ptbr := current.outer;
      processes := ps[..i] + ps[i + 1..];
      model := model.(current := all[i], others := all[..i] + all[i + 1..]);
    }

    // The processes, each once, have the values listed.
    ghost predicate OwnsAll(ps: seq<Process>, all: seq<Proc>)
      reads this`home, this`place, set p | p in ps :: p.outer, place.Keys
    {
      && |ps| == |all|
      && (forall i, j :: 0 <= i < j < |ps| ==> ps[i] != ps[j])
      && forall j :: 0 <= j < |ps| ==> OwnsOne(ps[j], all[j])
    }

    ghost predicate OwnsOne(p: Process, v: Proc)
      reads this`home, this`place, p.outer, place.Keys
    {
      p.outer in home && Owns(p, v.table) && p.pid == v.pid && |v.table| == NR_PAGES
    }

    lemma RestOwned(ps: seq<Process>, all: seq<Proc>, i: nat)
      requires OwnsAll(ps, all) && i < |ps|
      ensures OwnsAll(ps[..i] + ps[i + 1..], all[..i] + all[i + 1..]) && ps[i] !in ps[..i] + ps[i + 1..]
    {
      var qs, vs := ps[..i] + ps[i + 1..], all[..i] + all[i + 1..];
      assert forall j :: 0 <= j < |qs| ==> qs[j] == ps[if j < i then j else j + 1] && vs[j] == all[if j < i then j else j + 1];
    }

    // Protects directory x of the current process and returns a counted copy.
    method ProtectDirectory(x: nat) returns (dst: Directory)
      requires Valid() && TableOk(model.current.table) && x < NR_PTES && ptbr[x] != null
      modifies this`model, mapcounts, ptbr[x]
      ensures Valid() && fresh(dst)
      ensures model == old(model).(current := old(model.current).(table := ProtectPart(old(model.current.table), x)),
                                   mapcounts := Recount(old(model.mapcounts), Protect(Part(old(model.current.table), x))))
      ensures dst[..] == Protect(Part(old(model.current.table), x))
    {
      ghost var t := model.current.table;
      var src := ptbr[x];
      assert ShowsDir(src, Part(t, x));
      forall j | 0 <= j < NR_PTES && src[j].valid ensures src[j].pfn < mapcounts.Length {
        assert Part(t, x)[j] == t[NR_PTES * x + j] == src[j];
        assert PteOk(t[NR_PTES * x + j]);
      }
      dst := CopyDirectory(src, mapcounts);
      model := model.(current := model.current.(table := ProtectPart(t, x)), mapcounts := mapcounts[..]);
      forall y | 0 <= y < NR_PTES ensures ShowsDir(ptbr[y], Part(model.current.table, y)) {
        assert old(ShowsDir(ptbr[y], Part(t, y)));
        ProtectPartParts(t, x, y);
      }
      forall i | 0 <= i < |processes| ensures Owns(processes[i], model.others[i].table) {
        assert old(Owns(processes[i], model.others[i].table));
        assert forall y :: 0 <= y < NR_PTES && processes[i].outer[y] != null ==> processes[i].outer[y] != src;
        assert forall y :: 0 <= y < NR_PTES ==> ShowsDir(processes[i].outer[y], Part(model.others[i].table, y));
      }
    }

    // The new outer table holds copies of the first n directories, and is nobody's yet.
    ghost predicate Copied(outer: Outer, t: Table, n: nat)
      requires |t| == NR_PAGES && n <= NR_PTES
      reads this, outer, place.Keys
    {
      && outer.Length == NR_PTES && outer !in home
      && (forall y :: 0 <= y < NR_PTES && outer[y] != null ==> outer[y] in place && place[outer[y]] == (outer, y))
      && (forall y :: 0 <= y < n ==> ShowsDir(outer[y], Part(t, y)))
      && (forall y :: n <= y < NR_PTES ==> outer[y] == null)
    }

    method Attach(x: nat, outer: Outer, dst: Directory, ghost t: Table)
      requires Valid() && x < NR_PTES && |t| == NR_PAGES && Copied(outer, t, x)
      requires dst !in place && dst[..] == Part(t, x)
      modifies outer, this`place
      ensures Valid() && Copied(outer, t, x + 1)
      ensures place.Keys == old(place.Keys) + {dst}
    {
      assert forall y :: 0 <= y < NR_PTES && outer[y] != null ==> outer[y] != dst;
      outer[x] := dst;
      place := place[dst := (outer, x)];
      assert forall y :: 0 <= y < x ==> old(ShowsDir(outer[y], Part(t, y)));
      assert Owns(current, model.current.table);
      forall i | 0 <= i < |processes| ensures Owns(processes[i], model.others[i].table) {
        assert old(Owns(processes[i], model.others[i].table));
      }
    }

    method CopyPresent(x: nat, outer: Outer, ghost t: Table)
      requires Valid() && TableOk(model.current.table) && x < NR_PTES && ptbr[x] != null
      requires |t| == NR_PAGES && Copied(outer, t, x) && Protect(Part(model.current.table, x)) == Part(t, x)
      modifies this`model, this`place, mapcounts, place.Keys, outer
      ensures Valid() && Copied(outer, t, x + 1) && fresh(place.Keys - old(place.Keys))
      ensures model == old(model).(current := old(model.current).(table := ProtectPart(old(model.current.table), x)),
                                   mapcounts := Recount(old(model.mapcounts), Part(t, x)))
    {
      var dst := ProtectDirectory(x);
      assert forall y :: 0 <= y < x && outer[y] != null ==> outer[y] != old(ptbr[x]);
      assert forall y :: 0 <= y < x ==> old(ShowsDir(outer[y], Part(t, y)));
      Attach(x, outer, dst, t);
    }

    // Where the current process has no directory the child has none either.
    lemma NothingToCopy(x: nat, outer: Outer, t: Table)
      requires Valid() && TableOk(model.current.table) && x < NR_PTES && ptbr[x] == null
      requires |t| == NR_PAGES && Copied(outer, t, x) && Protect(Part(model.current.table, x)) == Part(t, x)
      ensures Copied(outer, t, x + 1) && ProtectPart(model.current.table, x) == model.current.table
      ensures Recount(model.mapcounts, Part(t, x)) == model.mapcounts
    {
      assert ShowsDir(ptbr[x], Part(model.current.table, x));
      assert Part(t, x) == ZERO_DIR;
      RecountNothing(model.mapcounts, Part(t, x));
    }

    // Copies directory x of the current process into the new outer table, if it exists.
    method ForkDirectory(x: nat, outer: Outer, ghost t: Table)
      requires Valid() && TableOk(model.current.table) && x < NR_PTES
      requires |t| == NR_PAGES && Copied(outer, t, x) && Protect(Part(model.current.table, x)) == Part(t, x)
      modifies this`model, this`place, mapcounts, place.Keys, outer
      ensures Valid() && Copied(outer, t, x + 1) && fresh(place.Keys - old(place.Keys))
      ensures model == old(model).(current := old(model.current).(table := ProtectPart(old(model.current.table), x)),
                                   mapcounts := Recount(old(model.mapcounts), Part(t, x)))
    {
      if ptbr[x] != null {
        CopyPresent(x, outer, t);
      } else {
        NothingToCopy(x, outer, t);
      }
    }

    // n directories of the current process, which started at k, are forked into the outer table.
    ghost predicate Forking(k: Kernel, n: nat, outer: Outer)
      requires Sized(k) && n <= NR_PTES
      reads this, outer, home.Keys, place.Keys, mapcounts
    {
      Valid() && model == ForkState(k, n) && Copied(outer, Protect(k.current.table), n)
    }

    method ForkNext(x: nat, outer: Outer, ghost k: Kernel)
      requires Sized(k) && TableOk(k.current.table) && x < NR_PTES && Forking(k, x, outer)
      modifies this`model, this`place, mapcounts, place.Keys, outer
      ensures Forking(k, x + 1, outer) && fresh(place.Keys - old(place.Keys))
    {
      ForkStateNext(k, x);
      ForkDirectory(x, outer, Protect(k.current.table));
    }

    // Copies all directories of the current process into the new outer table.
    method CopyTables(outer: Outer, ghost k: Kernel)
      requires Sized(k) && TableOk(k.current.table) && Forking(k, 0, outer)
      modifies this`model, this`place, mapcounts, place.Keys, outer
      ensures Forking(k, NR_PTES, outer)
    {
      for x := 0 to NR_PTES
        invariant Forking(k, x, outer)
        invariant fresh(place.Keys - old(place.Keys))
      {
        ForkNext(x, outer, k);
      }
    }

    // The new table becomes the running child's, and its parent goes to the end of the list.
    method Adopt(pid: nat, outer: Outer)
      requires Valid() && Copied(outer, model.current.table, NR_PTES)
      modifies this
      ensures Valid()
      ensures model == old(model).(current := Proc(pid, old(model.current.table)),
                                   others := old(model.others) + [old(model.current)])
    {
      var child := new Process(pid, outer);
      ghost var all := All(model);
      var ps := processes + [current];
      assert forall i :: 0 <= i < |ps| ==> Owns(ps[i], all[i].table) && ps[i].pid == all[i].pid;
      home := home[outer := child];
      processes := ps;
      model := model.(current := Proc(pid, model.current.table), others := all);
      current := child;
      ptbr := outer;
      forall i | 0 <= i < |processes|
        ensures processes[i].outer in home && Owns(processes[i], model.others[i].table)
        ensures |model.others[i].table| == NR_PAGES
      {
        assert old(Owns(ps[i], all[i].table));
      }
    }

    // Continues as a copy of the current process, which goes to the end of the list.
    method Fork(pid: nat)
      requires Valid() && TableOk(model.current.table) && Find(All(model), pid) == |All(model)|
      modifies this, mapcounts, place.Keys
      ensures Valid() && model == Switch(old(model), pid)
    {
      ghost var k := model;
      ForkStateBounds(k);
      var outer := new array?<Pte>[NR_PTES](_ => null);
      assert Copied(outer, Protect(k.current.table), 0);
      CopyTables(outer, k);
      Adopt(pid, outer);
    }

    // Switches to the process with the given pid, or forks one when there is none.
    method SwitchProcess(pid: nat)
      requires Valid() && Inv(model)
      modifies this, mapcounts, place.Keys
      ensures Valid() && model == Switch(old(model), pid)
    {
      CurrentOk(model);
      var ps := processes + [current];
      assert forall j :: 0 <= j < |ps| ==> ps[j].pid == All(model)[j].pid;
      var i := FindProcess(ps, pid);
      assert i == Find(All(model), pid);
      if i < |ps| {
        Resume(ps, i);
      } else {
        Fork(pid);
      }
    }

    // The allocation command, which refuses a page that is already mapped.
    method AllocCommand(v: nat, rw: nat, ghost content: int) returns (ok: bool)
      requires Valid() && Inv(model) && v < NR_PAGES && rw != 0
      modifies this`model, this`place, mapcounts, ptbr, place.Keys
      ensures Valid()
      ensures (model, if ok then Granted else AlreadyMapped) == Exec(old(model), DoAlloc(v, rw, content))
    {
      var mapped, _ := Translate(RW_READ, v);
      if mapped { return false; }
      var _ := AllocPage(v, rw, content);
      return true;
    }

    // The free command, which refuses a page that is not mapped.
    method FreeCommand(v: nat) returns (ok: bool)
      requires Valid() && Inv(model) && v < NR_PAGES
      modifies this`model, mapcounts, place.Keys
      ensures Valid()
      ensures (model, if ok then Granted else NotMapped) == Exec(old(model), DoFree(v))
    {
      InvReady(model, v);
      assert PteOk(model.current.table[v]);
      var mapped, _ := Translate(RW_READ, v);
      if !mapped { return false; }
      FreePage(v);
      return true;
    }
  }
}
