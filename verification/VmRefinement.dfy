/**
 Copy-on-write is invisible: the shared frames, map counts and faults behave like a world in
 which every process owns its memory, a fork copies it, and a write changes the writer's only.
 */
module VmRefinement {
  import opened Collections
  import opened VmModel

  /* ---------- The world without sharing ---------- */

  datatype Page = Page(value: int, canWrite: bool)

  type Space = seq<Option<Page>>

  datatype User = User(pid: nat, space: Space)

  datatype World = World(current: User, others: seq<User>)

  function SetPage(w: World, v: nat, p: Option<Page>): World
    requires v < |w.current.space|
  {
    w.(current := w.current.(space := w.current.space[v := p]))
  }

  function FindUser(us: seq<User>, pid: nat): (i: nat)
    ensures i <= |us|
  {
    if us == [] || us[0].pid == pid then 0 else 1 + FindUser(us[1..], pid)
  }

  function SwitchUser(w: World, pid: nat): World {
    var us := w.others + [w.current];
    var i := FindUser(us, pid);
    if i < |us| then World(us[i], us[..i] + us[i + 1..])
    else World(User(pid, w.current.space), us)
  }

  // What a process sees of its memory.
  function View(t: Table, memory: seq<int>): Space {
    seq(|t|, v requires 0 <= v < |t| =>
      if t[v].valid then Some(Page(if t[v].pfn < |memory| then memory[t[v].pfn] else 0, t[v].priv == 1)) else None)
  }

  function UserOf(p: Proc, memory: seq<int>): User {
    User(p.pid, View(p.table, memory))
  }

  function Users(ps: seq<Proc>, memory: seq<int>): seq<User> {
    seq(|ps|, i requires 0 <= i < |ps| => UserOf(ps[i], memory))
  }

  function Abs(k: Kernel): World {
    World(UserOf(k.current, k.memory), Users(k.others, k.memory))
  }

  /* ---------- One operation at a time ---------- */

  // Changing frames that the table does not map does not change the view.
  lemma ViewFrame(t: Table, m: seq<int>, m': seq<int>)
    requires |m| == |m'|
    requires forall v :: 0 <= v < |t| && t[v].valid && t[v].pfn < |m| ==> m[t[v].pfn] == m'[t[v].pfn]
    ensures View(t, m) == View(t, m')
  {
  }

  lemma UsersFrame(ps: seq<Proc>, m: seq<int>, m': seq<int>)
    requires |m| == |m'|
    requires forall i, v :: 0 <= i < |ps| && 0 <= v < |ps[i].table| && ps[i].table[v].valid && ps[i].table[v].pfn < |m|
               ==> m[ps[i].table[v].pfn] == m'[ps[i].table[v].pfn]
    ensures Users(ps, m) == Users(ps, m')
  {
    forall i | 0 <= i < |ps| ensures UserOf(ps[i], m) == UserOf(ps[i], m') {
      ViewFrame(ps[i].table, m, m');
    }
  }

  lemma FreeFrameUnmapped(k: Kernel, f: nat, i: nat, v: nat)
    requires Inv(k) && f < NR_FRAMES && k.mapcounts[f] == 0
    requires i < |All(k)| && v < NR_PAGES && |All(k)[i].table| == NR_PAGES && All(k)[i].table[v].valid
    ensures All(k)[i].table[v].pfn != f
  {
    CountHas(All(k)[i].table, v);
    CountAllHas(All(k), i, All(k)[i].table[v].pfn);
  }

  lemma FreeFrameInvisible(k: Kernel, f: nat, x: int)
    requires Inv(k) && f < NR_FRAMES && k.mapcounts[f] == 0
    ensures Users(k.others, k.memory[f := x]) == Users(k.others, k.memory)
    ensures View(k.current.table, k.memory[f := x]) == View(k.current.table, k.memory)
  {
    forall i, v | 0 <= i < |k.others| && 0 <= v < |k.others[i].table| && k.others[i].table[v].valid
      ensures k.others[i].table[v].pfn != f
    {
      assert All(k)[i] == k.others[i];
      FreeFrameUnmapped(k, f, i, v);
    }
    UsersFrame(k.others, k.memory, k.memory[f := x]);
    assert All(k)[|k.others|] == k.current;
    forall v | 0 <= v < NR_PAGES && k.current.table[v].valid ensures k.current.table[v].pfn != f {
      FreeFrameUnmapped(k, f, |k.others|, v);
    }
    ViewFrame(k.current.table, k.memory, k.memory[f := x]);
  }

  lemma AllocRefines(k: Kernel, v: nat, rw: nat, content: int)
    requires Inv(k) && v < NR_PAGES && HasFree(k.mapcounts)
    ensures Abs(Alloc(k, v, rw, content)) == SetPage(Abs(k), v, Some(Page(content, rw != RW_READ)))
  {
    var f := FirstFree(k.mapcounts);
    FreeFrameInvisible(k, f, content);
    var k' := Alloc(k, v, rw, content);
    assert View(k'.current.table, k'.memory) == View(k.current.table, k.memory)[v := Some(Page(content, rw != RW_READ))];
  }

  // An allocation is seen as one new page of the allocating process, for every content, if and
  // only if some frame is free.
  lemma AllocRefinesIff(k: Kernel, v: nat, rw: nat)
    requires Inv(k) && v < NR_PAGES
    ensures (forall content :: Abs(Alloc(k, v, rw, content)) == SetPage(Abs(k), v, Some(Page(content, rw != RW_READ))))
            <==> HasFree(k.mapcounts)
  {
    if HasFree(k.mapcounts) {
      forall content ensures Abs(Alloc(k, v, rw, content)) == SetPage(Abs(k), v, Some(Page(content, rw != RW_READ))) {
        AllocRefines(k, v, rw, content);
      }
    } else {
      CurrentOk(k);
      assert PteOk(k.current.table[v]);
      var content := k.memory[k.current.table[v].pfn] + 1;
      assert Abs(Alloc(k, v, rw, content)).current.space[v] != SetPage(Abs(k), v, Some(Page(content, rw != RW_READ))).current.space[v];
    }
  }

  lemma FreeRefines(k: Kernel, v: nat)
    requires Inv(k) && v < NR_PAGES
    requires k.current.table[v].pfn < NR_FRAMES && k.mapcounts[k.current.table[v].pfn] > 0
    ensures Abs(Free(k, v)) == SetPage(Abs(k), v, None)
  {
    assert View(Free(k, v).current.table, k.memory) == View(k.current.table, k.memory)[v := None];
  }

  // No process can tell that a fault was handled, even when memory is full.
  lemma FaultInvisible(k: Kernel, v: nat, rw: nat)
    requires Inv(k) && Ready(k, v)
    ensures Abs(Fault(k, v, rw).0) == Abs(k)
  {
    var k' := Fault(k, v, rw).0;
    var f := FirstFree(k.mapcounts);
    var e := k.current.table[v];
    assert PteOk(e);
    if f < NR_FRAMES { FreeFrameInvisible(k, f, k.memory[e.pfn]); }
    assert View(k'.current.table, k'.memory) == View(k.current.table, k.memory);
  }

  lemma AccessInvisible(k: Kernel, v: nat, rw: nat)
    requires Inv(k) && Ready(k, v)
    ensures Abs(Access(k, v, rw).0) == Abs(k)
  {
    AccessGranted(k, v, rw);
    FaultInvisible(k, v, rw);
  }

  lemma FindAgrees(ps: seq<Proc>, memory: seq<int>, pid: nat)
    ensures FindUser(Users(ps, memory), pid) == Find(ps, pid)
  {
    if ps != [] { assert Users(ps, memory)[1..] == Users(ps[1..], memory); }
  }

  lemma ProtectView(t: Table, memory: seq<int>)
    ensures View(Protect(t), memory) == View(t, memory)
  {
  }

  // Switching resumes the process with its memory as it left it, and a fork gives the child
  // a copy of the parent's memory and rights.
  lemma SwitchRefines(k: Kernel, pid: nat)
    ensures Abs(Switch(k, pid)) == SwitchUser(Abs(k), pid)
  {
    var ps := k.others + [k.current];
    FindAgrees(ps, k.memory, pid);
    ProtectView(k.current.table, k.memory);
    assert Users(ps, k.memory) == Users(k.others, k.memory) + [UserOf(k.current, k.memory)];
    var i := Find(ps, pid);
    if i < |ps| {
      assert Users(ps[..i] + ps[i + 1..], k.memory) == Users(ps, k.memory)[..i] + Users(ps, k.memory)[i + 1..];
    } else {
      var parent := k.current.(table := Protect(k.current.table));
      assert Users(k.others + [parent], k.memory) == Users(ps, k.memory);
    }
  }

  /* ---------- Writes ---------- */

  // An access for writing, then the store.
  function Write(k: Kernel, v: nat, x: int): (Kernel, bool)
    requires Ready(k, v)
  {
    AccessGranted(k, v, RW_WRITE);
    var (k1, ok) := Access(k, v, RW_WRITE);
    var f := k1.current.table[v].pfn;
    if ok then (k1.(memory := if f < |k1.memory| then k1.memory[f := x] else k1.memory), true) else (k1, false)
  }

  function WriteUser(w: World, v: nat, x: int): (World, bool)
    requires v < |w.current.space|
  {
    var p := w.current.space[v];
    if p.Some? && p.value.canWrite then (SetPage(w, v, Some(p.value.(value := x))), true) else (w, false)
  }

  // A store through an entry that is the only mapping of its frame.
  lemma StoreRefines(k: Kernel, v: nat, x: int)
    requires Inv(k) && Ready(k, v) && Translates(k.current.table, RW_WRITE, v)
    ensures k.current.table[v].pfn < |k.memory|
    ensures Abs(k.(memory := k.memory[k.current.table[v].pfn := x])) == WriteUser(Abs(k), v, x).0
  {
    var n := |k.others|;
    var e := k.current.table[v];
    var m' := k.memory[e.pfn := x];
    assert PteOk(e) && All(k)[n] == k.current;
    forall i, u | 0 <= i < n && 0 <= u < |k.others[i].table| && k.others[i].table[u].valid
      ensures k.others[i].table[u].pfn != e.pfn
    {
      assert All(k)[i] == k.others[i];
      if k.others[i].table[u].pfn == e.pfn { WritableIsExclusive(k, n, v, i, u); }
    }
    UsersFrame(k.others, k.memory, m');
    forall u | 0 <= u < NR_PAGES && u != v && k.current.table[u].valid ensures k.current.table[u].pfn != e.pfn {
      if k.current.table[u].pfn == e.pfn { WritableIsExclusive(k, n, v, n, u); }
    }
    assert View(k.current.table, m') == View(k.current.table, k.memory)[v := Some(Page(x, true))];
  }

  lemma WriteRefines(k: Kernel, v: nat, x: int)
    requires Inv(k) && Ready(k, v) && (NeedsCopy(k, v) ==> HasFree(k.mapcounts))
    ensures Inv(Write(k, v, x).0)
    ensures Abs(Write(k, v, x).0) == WriteUser(Abs(k), v, x).0
    ensures Write(k, v, x).1 == WriteUser(Abs(k), v, x).1
  {
    var (k1, ok) := Access(k, v, RW_WRITE);
    AccessGranted(k, v, RW_WRITE);
    AccessInvisible(k, v, RW_WRITE);
    FaultKeepsInvIff(k, v, RW_WRITE);
    FaultReady(k, v, RW_WRITE);
    assert View(k.current.table, k.memory)[v] == Abs(k).current.space[v];
    if ok {
      assert Ready(k1, v);
      StoreRefines(k1, v, x);
      MemoryKeepsInv(k1, k1.memory[k1.current.table[v].pfn := x]);
    }
  }

  lemma MemoryKeepsInv(k: Kernel, memory: seq<int>)
    requires Inv(k) && |memory| == NR_FRAMES
    ensures Inv(k.(memory := memory))
  {
    assert All(k.(memory := memory)) == All(k);
    assert InvOver(k.(memory := memory), All(k));
  }

  // A shared frame has another mapping besides this one.
  lemma OtherMapping(ps: seq<Proc>, i: nat, v: nat) returns (j: nat, u: nat)
    requires i < |ps| && v < |ps[i].table| && ps[i].table[v].valid
    requires CountAll(ps, ps[i].table[v].pfn) >= 2
    ensures j < |ps| && u < |ps[j].table| && (j != i || u != v)
    ensures ps[j].table[u].valid && ps[j].table[u].pfn == ps[i].table[v].pfn
  {
    var f := ps[i].table[v].pfn;
    var p' := ps[i].(table := ps[i].table[v := ZERO_PTE]);
    CountAllUpdate(ps, i, p', f);
    CountUpdate(ps[i].table, v, ZERO_PTE, f);
    j, u := SomeMapping(ps[i := p'], f);
  }

  lemma {:induction false} SomeMapping(ps: seq<Proc>, f: nat) returns (j: nat, u: nat)
    requires CountAll(ps, f) >= 1
    ensures j < |ps| && u < |ps[j].table| && ps[j].table[u].valid && ps[j].table[u].pfn == f
  {
    var n := |ps| - 1;
    if Count(ps[n].table, f) >= 1 {
      j := n;
      u := SomeEntry(ps[n].table, f);
    } else {
      j, u := SomeMapping(ps[..n], f);
    }
  }

  lemma {:induction false} SomeEntry(t: Table, f: nat) returns (u: nat)
    requires Count(t, f) >= 1
    ensures u < |t| && t[u].valid && t[u].pfn == f
  {
    var n := |t| - 1;
    if t[n].valid && t[n].pfn == f { u := n; } else { u := SomeEntry(t[..n], f); }
  }

  // With a copy needed and memory full, a write shows through at another mapping.
  lemma WriteLeaks(k: Kernel, v: nat, x: int)
    requires Inv(k) && Ready(k, v) && NeedsCopy(k, v) && !HasFree(k.mapcounts)
    requires x != k.memory[k.current.table[v].pfn]
    ensures Abs(Write(k, v, x).0) != WriteUser(Abs(k), v, x).0
  {
    var n := |k.others|;
    var e := k.current.table[v];
    assert All(k)[n] == k.current && k.mapcounts[e.pfn] == CountAll(All(k), e.pfn);
    var j, u := OtherMapping(All(k), n, v);
    var k' := Write(k, v, x).0;
    if j < n {
      assert All(k)[j] == k.others[j];
      assert Abs(k').others[j].space[u] != Abs(k).others[j].space[u];
      assert WriteUser(Abs(k), v, x).0.others == Abs(k).others;
    } else {
      assert Abs(k').current.space[u] != Abs(k).current.space[u];
      assert WriteUser(Abs(k), v, x).0.current.space[u] == Abs(k).current.space[u];
    }
  }

  // Writes behave as in the world without sharing, for every value, if and only if the page
  // need not be copied or some frame is free.
  lemma WriteRefinesIff(k: Kernel, v: nat)
    requires Inv(k) && Ready(k, v)
    ensures (forall x :: Abs(Write(k, v, x).0) == WriteUser(Abs(k), v, x).0)
            <==> (NeedsCopy(k, v) ==> HasFree(k.mapcounts))
  {
    if NeedsCopy(k, v) ==> HasFree(k.mapcounts) {
      forall x ensures Abs(Write(k, v, x).0) == WriteUser(Abs(k), v, x).0 { WriteRefines(k, v, x); }
    } else {
      WriteLeaks(k, v, k.memory[k.current.table[v].pfn] + 1);
    }
  }

  /* ---------- Forks ---------- */

  // After a fork the child and its parent translate every page to the same frame for reading,
  // have the same right to it, and neither can write it without a fault.
  lemma ForkFidelity(k: Kernel, pid: nat, v: nat)
    requires Inv(k) && Find(All(k), pid) == |All(k)| && v < NR_PAGES
    ensures var k' := Switch(k, pid);
            && |k'.others| == |k.others| + 1 && k'.current.pid == pid
            && var parent, child := k'.others[|k.others|].table, k'.current.table;
               && parent == child && |child| == NR_PAGES
               && (Translates(child, RW_READ, v) <==> Translates(k.current.table, RW_READ, v))
               && child[v].pfn == k.current.table[v].pfn && child[v].priv == k.current.table[v].priv
               && !Translates(child, RW_WRITE, v)
  {
    CurrentOk(k);
  }

  // Allocating, freeing, reading and writing leave the view of every other process alone.
  lemma OthersUntouched(k: Kernel, v: nat, rw: nat, x: int)
    requires Inv(k) && Ready(k, v)
    ensures k.current.table[v].valid ==> Abs(Free(k, v)).others == Abs(k).others
    ensures Abs(Alloc(k, v, rw, x)).others == Abs(k).others
    ensures Abs(Access(k, v, rw).0).others == Abs(k).others
    ensures (NeedsCopy(k, v) ==> HasFree(k.mapcounts)) ==> Abs(Write(k, v, x).0).others == Abs(k).others
  {
    if k.current.table[v].valid {
      assert PteOk(k.current.table[v]);
      FreeRefines(k, v);
    }
    if HasFree(k.mapcounts) { AllocRefines(k, v, rw, x); }
    AccessInvisible(k, v, rw);
    if NeedsCopy(k, v) ==> HasFree(k.mapcounts) { WriteRefines(k, v, x); }
  }

  /* ---------- Whole command scripts ---------- */

  datatype Command =
    | DoAlloc(v: nat, rw: nat, content: int)
    | DoFree(v: nat)
    | DoRead(v: nat)
    | DoWrite(v: nat, x: int)
    | DoSwitch(pid: nat)

  datatype Reply = Granted | Value(value: int) | Denied | NotMapped | AlreadyMapped

  // Page numbers are within the page table, as the table walk needs.
  predicate Addresses(c: Command) {
    match c
    case DoAlloc(v, rw, _) => v < NR_PAGES && rw != 0
    case DoFree(v) => v < NR_PAGES
    case DoRead(v) => v < NR_PAGES
    case DoWrite(v, _) => v < NR_PAGES
    case DoSwitch(_) => true
  }

  lemma InvReady(k: Kernel, v: nat)
    requires Inv(k) && v < NR_PAGES
    ensures Ready(k, v)
  {
    CurrentOk(k);
  }

  function Exec(k: Kernel, c: Command): (Kernel, Reply)
    requires Inv(k) && Addresses(c)
  {
    match c
    case DoAlloc(v, rw, content) =>
      if Translates(k.current.table, RW_READ, v) then (k, AlreadyMapped) else (Alloc(k, v, rw, content), Granted)
    case DoFree(v) =>
      InvReady(k, v);
      assert PteOk(k.current.table[v]);
      if !Translates(k.current.table, RW_READ, v) then (k, NotMapped) else (Free(k, v), Granted)
    case DoRead(v) =>
      InvReady(k, v);
      AccessGranted(k, v, RW_READ);
      var (k1, ok) := Access(k, v, RW_READ);
      var f := k1.current.table[v].pfn;
      (k1, if !ok then Denied else Value(if f < |k1.memory| then k1.memory[f] else 0))
    case DoWrite(v, x) =>
      InvReady(k, v);
      var (k1, ok) := Write(k, v, x);
      (k1, if ok then Granted else Denied)
    case DoSwitch(pid) =>
      (Switch(k, pid), Granted)
  }

  // Some frame is free whenever the command takes one.
  predicate Roomy(k: Kernel, c: Command)
    requires Inv(k) && Addresses(c)
  {
    match c
    case DoAlloc(v, _, _) => !Translates(k.current.table, RW_READ, v) ==> HasFree(k.mapcounts)
    case DoWrite(v, _) => InvReady(k, v); NeedsCopy(k, v) ==> HasFree(k.mapcounts)
    case _ => true
  }

  function ExecUser(w: World, c: Command): (World, Reply)
    requires |w.current.space| == NR_PAGES && Addresses(c)
  {
    match c
    case DoAlloc(v, rw, content) =>
      if w.current.space[v].Some? then (w, AlreadyMapped)
      else (SetPage(w, v, Some(Page(content, rw != RW_READ))), Granted)
    case DoFree(v) =>
      if w.current.space[v].None? then (w, NotMapped) else (SetPage(w, v, None), Granted)
    case DoRead(v) =>
      (w, if w.current.space[v].None? then Denied else Value(w.current.space[v].value.value))
    case DoWrite(v, x) =>
      var (w1, ok) := WriteUser(w, v, x);
      (w1, if ok then Granted else Denied)
    case DoSwitch(pid) =>
      (SwitchUser(w, pid), Granted)
  }

  lemma ReadReply(k: Kernel, v: nat)
    requires Inv(k) && v < NR_PAGES
    ensures Exec(k, DoRead(v)) == (k, ExecUser(Abs(k), DoRead(v)).1)
  {
    InvReady(k, v);
    AccessGranted(k, v, RW_READ);
    assert PteOk(k.current.table[v]);
  }

  // The invariant is kept, the shared frames are invisible, and the reply is the same.
  lemma ExecRefines(k: Kernel, c: Command)
    requires Inv(k) && Addresses(c) && Roomy(k, c)
    ensures Inv(Exec(k, c).0)
    ensures |Abs(k).current.space| == NR_PAGES
    ensures Abs(Exec(k, c).0) == ExecUser(Abs(k), c).0
    ensures Exec(k, c).1 == ExecUser(Abs(k), c).1
  {
    match c
    case DoAlloc(v, rw, content) =>
      if !k.current.table[v].valid {
        AllocKeepsInv(k, v, rw, content);
        AllocRefines(k, v, rw, content);
      }
    case DoFree(v) =>
      InvReady(k, v);
      if k.current.table[v].valid {
        assert PteOk(k.current.table[v]);
        FreeKeepsInv(k, v);
        FreeRefines(k, v);
      }
    case DoRead(v) =>
      ReadReply(k, v);
    case DoWrite(v, x) =>
      InvReady(k, v);
      WriteRefines(k, v, x);
    case DoSwitch(pid) =>
      SwitchKeepsInv(k, pid);
      SwitchRefines(k, pid);
  }

  // A command keeps the invariant if and only if it finds a frame whenever it takes one.
  lemma ExecKeepsInvIff(k: Kernel, c: Command)
    requires Inv(k) && Addresses(c)
    ensures Inv(Exec(k, c).0) <==> Roomy(k, c)
  {
    if Roomy(k, c) {
      ExecRefines(k, c);
    } else if c.DoAlloc? {
      AllocKeepsInvIff(k, c.v, c.rw, c.content);
    } else {
      InvReady(k, c.v);
      WriteBreaksInv(k, c.v, c.x);
    }
  }

  lemma WriteBreaksInv(k: Kernel, v: nat, x: int)
    requires Inv(k) && Ready(k, v) && NeedsCopy(k, v) && !HasFree(k.mapcounts)
    ensures !Inv(Write(k, v, x).0)
  {
    var k' := Write(k, v, x).0;
    assert All(k')[|k'.others|] == k'.current;
    assert k'.current.table[v].writable && k'.mapcounts[k'.current.table[v].pfn] != 1;
  }

  // Every command finds a frame whenever it takes one. A script stops at an allocation of a
  // mapped page.
  ghost predicate RoomyRun(k: Kernel, cs: seq<Command>)
    requires Inv(k)
    decreases |cs|
  {
    cs == [] ||
    (Addresses(cs[0]) && Roomy(k, cs[0])
     && (Inv(Exec(k, cs[0]).0) && Exec(k, cs[0]).1 != AlreadyMapped ==> RoomyRun(Exec(k, cs[0]).0, cs[1..])))
  }

  // Map counts stay exact and writable pages exclusive after every command of the script.
  ghost predicate SoundRun(k: Kernel, cs: seq<Command>)
    requires Inv(k)
    decreases |cs|
  {
    cs == [] ||
    (Addresses(cs[0]) && Inv(Exec(k, cs[0]).0)
     && (Exec(k, cs[0]).1 != AlreadyMapped ==> SoundRun(Exec(k, cs[0]).0, cs[1..])))
  }

  // A script keeps them so if and only if every command of it that takes a frame finds one.
  lemma {:induction false} ScriptKeepsInvIff(k: Kernel, cs: seq<Command>)
    requires Inv(k)
    ensures SoundRun(k, cs) <==> RoomyRun(k, cs)
    decreases |cs|
  {
    if cs != [] && Addresses(cs[0]) {
      ExecKeepsInvIff(k, cs[0]);
      if Roomy(k, cs[0]) { ScriptKeepsInvIff(Exec(k, cs[0]).0, cs[1..]); }
    }
  }

  ghost function RunScript(k: Kernel, cs: seq<Command>): (Kernel, seq<Reply>)
    requires Inv(k) && RoomyRun(k, cs)
    decreases |cs|
  {
    if cs == [] then (k, [])
    else
      ExecRefines(k, cs[0]);
      var (k1, r) := Exec(k, cs[0]);
      if r == AlreadyMapped then (k1, [r])
      else
        var (k2, rs) := RunScript(k1, cs[1..]);
        (k2, [r] + rs)
  }

  ghost function RunUser(w: World, cs: seq<Command>): (World, seq<Reply>)
    decreases |cs|
  {
    if cs == [] || |w.current.space| != NR_PAGES || !Addresses(cs[0]) then (w, [])
    else
      var (w1, r) := ExecUser(w, cs[0]);
      if r == AlreadyMapped then (w1, [r])
      else
        var (w2, rs) := RunUser(w1, cs[1..]);
        (w2, [r] + rs)
  }

  // Over a whole script, every reply is the one of the world without sharing, and so is the
  // memory every process is left with; the map counts stay exact and writable pages exclusive.
  lemma {:induction false} ScriptRefines(k: Kernel, cs: seq<Command>)
    requires Inv(k) && RoomyRun(k, cs)
    ensures Inv(RunScript(k, cs).0)
    ensures Abs(RunScript(k, cs).0) == RunUser(Abs(k), cs).0
    ensures RunScript(k, cs).1 == RunUser(Abs(k), cs).1
    decreases |cs|
  {
    if cs != [] {
      ExecRefines(k, cs[0]);
      if Exec(k, cs[0]).1 != AlreadyMapped { ScriptRefines(Exec(k, cs[0]).0, cs[1..]); }
    }
  }

  lemma {:induction false} NothingMapped(t: Table, f: nat)
    requires forall v :: 0 <= v < |t| ==> !t[v].valid
    ensures Count(t, f) == 0
  {
    if t != [] { NothingMapped(t[..|t| - 1], f); }
  }

  lemma BootInv(memory: seq<int>)
    requires |memory| == NR_FRAMES
    ensures Inv(Boot(memory))
  {
    var k := Boot(memory);
    forall f | 0 <= f < NR_FRAMES ensures k.mapcounts[f] == CountAll(All(k), f) {
      NothingMapped(k.current.table, f);
      assert All(k)[..0] == [];
    }
    assert InvOver(k, All(k));
  }

  // Entry u of process j maps the frame that process i may write through entry v.
  ghost predicate SharesWritable(k: Kernel, i: nat, v: nat, j: nat, u: nat) {
    && i < |All(k)| && j < |All(k)| && v < |All(k)[i].table| && u < |All(k)[j].table|
    && All(k)[i].table[v].valid && All(k)[i].table[v].writable
    && All(k)[j].table[u].valid && All(k)[j].table[u].pfn == All(k)[i].table[v].pfn
  }

  // From boot, in any script that never runs out of frames: exact map counts, exclusive
  // writable pages, and the replies of a world in which nothing is shared.
  lemma BootScripts(memory: seq<int>, cs: seq<Command>)
    requires |memory| == NR_FRAMES && Inv(Boot(memory)) && RoomyRun(Boot(memory), cs)
    ensures var (k, replies) := RunScript(Boot(memory), cs);
            && CountsExact(k)
            && (forall i: nat, v: nat, j: nat, u: nat :: SharesWritable(k, i, v, j, u) ==> i == j && v == u)
            && replies == RunUser(World(User(0, seq(NR_PAGES, _ => None)), []), cs).1
  {
    ScriptRefines(Boot(memory), cs);
    var k := RunScript(Boot(memory), cs).0;
    assert Abs(Boot(memory)) == World(User(0, seq(NR_PAGES, _ => None)), []);
    forall i: nat, v: nat, j: nat, u: nat | SharesWritable(k, i, v, j, u)
      ensures i == j && v == u
    {
      assert TableOk(All(k)[i].table) && TableOk(All(k)[j].table);
      WritableIsExclusive(k, i, v, j, u);
    }
  }

  /* ---------- Memory does fill ---------- */

  // Only process 0 runs; its first n pages, allocated for writing, have the first n frames.
  ghost predicate FirstPages(k: Kernel, n: nat) {
    && Sized(k) && n <= NR_FRAMES && k.others == [] && k.current.pid == 0
    && (forall v :: 0 <= v < NR_PAGES ==> k.current.table[v] == if v < n then Pte(true, true, v, 1) else ZERO_PTE)
    && (forall f :: 0 <= f < NR_FRAMES ==> k.mapcounts[f] == if f < n then 1 else 0)
  }

  // Process 0 allocates a page for every frame from the n-th on and forks.
  function FillAndFork(n: nat): seq<Command>
    decreases NR_FRAMES - n
  {
    if n >= NR_FRAMES then [DoSwitch(1)] else [DoAlloc(n, RW_WRITE, 0)] + FillAndFork(n + 1)
  }

  // No frame is free, and the current process can write its first page only through a copy.
  ghost predicate FullAndShared(k: Kernel) {
    Inv(k) && Ready(k, 0) && !HasFree(k.mapcounts) && NeedsCopy(k, 0) && !k.current.table[NR_FRAMES].valid
  }

  lemma OnePageMore(k: Kernel, n: nat)
    requires FirstPages(k, n) && n < NR_FRAMES && Inv(k)
    ensures Addresses(DoAlloc(n, RW_WRITE, 0)) && Roomy(k, DoAlloc(n, RW_WRITE, 0))
    ensures Exec(k, DoAlloc(n, RW_WRITE, 0)) == (Alloc(k, n, RW_WRITE, 0), Granted)
    ensures Inv(Alloc(k, n, RW_WRITE, 0)) && FirstPages(Alloc(k, n, RW_WRITE, 0), n + 1)
  {
    assert k.mapcounts[n] == 0;
    AllocKeepsInv(k, n, RW_WRITE, 0);
  }

  lemma ForkShares(k: Kernel)
    requires FirstPages(k, NR_FRAMES) && Inv(k)
    ensures FullAndShared(Switch(k, 1))
  {
    var t := Protect(k.current.table);
    SwitchKeepsInv(k, 1);
    InvReady(Switch(k, 1), 0);
    forall f: nat | f < NR_FRAMES ensures Recount(k.mapcounts, t)[f] >= 2 {
      RecountAdds(k.mapcounts, t, f);
      assert t[f].valid && t[f].pfn == f;
      CountHas(t, f);
    }
  }

  lemma {:induction false} FillingFills(k: Kernel, n: nat)
    requires FirstPages(k, n) && Inv(k)
    ensures RoomyRun(k, FillAndFork(n)) && FullAndShared(RunScript(k, FillAndFork(n)).0)
    decreases NR_FRAMES - n
  {
    var cs := FillAndFork(n);
    if n < NR_FRAMES {
      OnePageMore(k, n);
      assert cs[1..] == FillAndFork(n + 1);
      FillingFills(Alloc(k, n, RW_WRITE, 0), n + 1);
    } else {
      ForkShares(k);
      assert cs == [DoSwitch(1)] && cs[1..] == [];
    }
  }

  // From boot a script of 128 allocations and a fork, all of which find what they need, leads to
  // a state in which the next allocation is not counted, and any write that changes the first
  // page also changes it for the parent.
  lemma FullMemoryIsReached(memory: seq<int>)
    requires |memory| == NR_FRAMES && Inv(Boot(memory))
    ensures RoomyRun(Boot(memory), FillAndFork(0))
    ensures var k := RunScript(Boot(memory), FillAndFork(0)).0;
            && FullAndShared(k)
            && !Inv(Alloc(k, NR_FRAMES, RW_WRITE, 0))
            && forall x :: x != k.memory[k.current.table[0].pfn] ==> Abs(Write(k, 0, x).0) != WriteUser(Abs(k), 0, x).0
  {
    FillingFills(Boot(memory), 0);
    var k := RunScript(Boot(memory), FillAndFork(0)).0;
    AllocKeepsInvIff(k, NR_FRAMES, RW_WRITE, 0);
    forall x | x != k.memory[k.current.table[0].pfn] ensures Abs(Write(k, 0, x).0) != WriteUser(Abs(k), 0, x).0 {
      WriteLeaks(k, 0, x);
    }
  }
}
