/**
 Intrusive circular lists: nodes that point to their neighbours, with a node of the same kind
 as the head. A list is a ring, and its operations refine operations on sequences of nodes.
 */
module ListHead {
  import opened Collections

  class Node {
    // Null stands for the poison values that a deleted entry is left with.
    var next: Node?
    var prev: Node?

    constructor ()
      ensures Ring([this])
    {
      next, prev := this, this;
    }
  }

  ghost predicate Linked(a: Node, b: Node)
    reads a, b
  {
    a.next == b && b.prev == a
  }

  // Neighbours in c point to each other.
  ghost predicate Chain(c: seq<Node>)
    reads c
  {
    forall i, j :: 0 <= i < |c| && j == i + 1 && j < |c| ==> Linked(c[i], c[j])
  }

  // The nodes of c, each once, in their order around a circle.
  ghost predicate Ring(c: seq<Node>)
    reads c
  {
    c != [] && Distinct(c) && Chain(c) && Linked(c[|c| - 1], c[0])
  }

  // The head's list has the entries xs.
  ghost predicate List(head: Node, xs: seq<Node>)
    reads head, xs
  {
    Ring([head] + xs)
  }

  /* ---------- Queries ---------- */

  predicate IsEmpty(head: Node)
    reads head
  {
    head.next == head
  }

  predicate IsLast(entry: Node, head: Node)
    reads entry
  {
    entry.next == head
  }

  predicate IsSingular(head: Node)
    reads head
  {
    !IsEmpty(head) && head.next == head.prev
  }

  // The neighbours of the entry at position i.
  function After(head: Node, xs: seq<Node>, i: nat): Node
    requires i < |xs|
  {
    if i < |xs| - 1 then xs[i + 1] else head
  }

  function Before(head: Node, xs: seq<Node>, i: nat): Node
    requires i < |xs|
  {
    if i > 0 then xs[i - 1] else head
  }

  lemma ListEnds(head: Node, xs: seq<Node>)
    requires List(head, xs)
    ensures if xs == [] then head.next == head && head.prev == head
            else head.next == xs[0] && head.prev == xs[|xs| - 1] && xs[0].prev == head && xs[|xs| - 1].next == head
    ensures forall i :: 0 <= i < |xs| ==> xs[i] != head
  {
    var c := [head] + xs;
    assert forall i :: 0 <= i < |xs| ==> c[i + 1] == xs[i];
    if xs != [] { assert Linked(c[0], c[1]); }
  }

  lemma EntryNeighbours(head: Node, xs: seq<Node>, i: nat)
    requires List(head, xs) && i < |xs|
    ensures xs[i].next == After(head, xs, i) && xs[i].prev == Before(head, xs, i)
  {
    var c := [head] + xs;
    assert Linked(c[i], c[i + 1]);
    if i < |xs| - 1 { assert Linked(c[i + 1], c[i + 2]); }
  }

  function Succ(c: seq<Node>, i: nat): Node
    requires i < |c|
  {
    c[if i + 1 < |c| then i + 1 else 0]
  }

  function Pred(c: seq<Node>, i: nat): Node
    requires i < |c|
  {
    c[if i > 0 then i - 1 else |c| - 1]
  }

  lemma RingNeighbours(c: seq<Node>, i: nat)
    requires Ring(c) && i < |c|
    ensures c[i].next == Succ(c, i) && c[i].prev == Pred(c, i)
  {
    if i + 1 < |c| { assert Linked(c[i], c[i + 1]); }
    if i > 0 { assert Linked(c[i - 1], c[i]); }
  }

  // The queries answer for the sequence of entries.
  lemma QueriesMatch(head: Node, xs: seq<Node>)
    requires List(head, xs)
    ensures IsEmpty(head) <==> xs == []
    ensures IsSingular(head) <==> |xs| == 1
    ensures forall i :: 0 <= i < |xs| ==> (IsLast(xs[i], head) <==> i == |xs| - 1)
  {
    ListEnds(head, xs);
    var c := [head] + xs;
    assert |xs| > 1 ==> c[1] != c[|xs|];
    forall i | 0 <= i < |xs| ensures IsLast(xs[i], head) <==> i == |xs| - 1 {
      EntryNeighbours(head, xs, i);
    }
  }

  // The pointers determine the entries and their order.
  lemma ListUnique(head: Node, xs: seq<Node>, ys: seq<Node>)
    requires List(head, xs) && List(head, ys)
    ensures xs == ys
  {
    if |xs| <= |ys| { SameLength(head, xs, ys); } else { SameLength(head, ys, xs); }
  }

  lemma SameLength(head: Node, xs: seq<Node>, ys: seq<Node>)
    requires List(head, xs) && List(head, ys) && |xs| <= |ys|
    ensures xs == ys
  {
    SamePrefix(head, xs, ys, |xs|);
    ListEnds(head, xs);
    assert xs == xs[..|xs|];
    if xs != [] { assert xs[|xs| - 1] == ys[..|xs|][|xs| - 1]; }
    if |xs| < |ys| { NotTheEnd(head, ys, |xs|); } else { assert ys == ys[..|xs|]; }
  }

  lemma NotTheEnd(head: Node, ys: seq<Node>, n: nat)
    requires List(head, ys) && n < |ys|
    ensures (if n == 0 then head.next else ys[n - 1].next) != head
  {
    ListEnds(head, ys);
    if n > 0 { EntryNeighbours(head, ys, n - 1); }
  }

  lemma {:induction false} SamePrefix(head: Node, xs: seq<Node>, ys: seq<Node>, n: nat)
    requires List(head, xs) && List(head, ys) && n <= |xs| <= |ys|
    ensures xs[..n] == ys[..n]
  {
    if n > 0 {
      SamePrefix(head, xs, ys, n - 1);
      ListEnds(head, xs);
      ListEnds(head, ys);
      if n > 1 {
        assert xs[..n - 1][n - 2] == ys[..n - 1][n - 2];
        EntryNeighbours(head, xs, n - 2);
        EntryNeighbours(head, ys, n - 2);
      }
      assert xs[..n] == xs[..n - 1] + [xs[n - 1]] && ys[..n] == ys[..n - 1] + [ys[n - 1]];
    }
  }

  /* ---------- Chains ---------- */

  lemma ChainSplit(c: seq<Node>, d: seq<Node>)
    requires Chain(c + d)
    ensures Chain(c) && Chain(d)
    ensures c != [] && d != [] ==> Linked(c[|c| - 1], d[0])
  {
    var e := c + d;
    forall i, j | 0 <= i < |c| && j == i + 1 && j < |c| ensures Linked(c[i], c[j]) { assert Linked(e[i], e[j]); }
    forall i, j | 0 <= i < |d| && j == i + 1 && j < |d| ensures Linked(d[i], d[j]) { assert Linked(e[|c| + i], e[|c| + j]); }
    if c != [] && d != [] { assert Linked(e[|c| - 1], e[|c|]); }
  }

  lemma ChainJoin(c: seq<Node>, d: seq<Node>)
    requires Chain(c) && Chain(d) && (c != [] && d != [] ==> Linked(c[|c| - 1], d[0]))
    ensures Chain(c + d)
  {
  }

  /* ---------- Updates ---------- */

  method InitListHead(list: Node)
    modifies list
    ensures List(list, [])
  {
    list.next := list;
    list.prev := list;
  }

  // Inserts between two consecutive nodes, at position i of the ring.
  method AddBetween(entry: Node, prev: Node, next: Node, ghost c: seq<Node>, ghost i: nat)
    requires Ring(c) && entry !in c && i < |c| && prev == c[i] && next == c[if i + 1 < |c| then i + 1 else 0]
    modifies entry, prev, next
    ensures Ring(c[..i + 1] + [entry] + c[i + 1..])
  {
    next.prev := entry;
    entry.next := next;
    entry.prev := prev;
    prev.next := entry;
  }

  method ListAdd(entry: Node, head: Node, ghost xs: seq<Node>)
    requires List(head, xs) && entry != head && entry !in xs
    modifies entry, head, head.next
    ensures List(head, [entry] + xs)
  {
    ListEnds(head, xs);
    AddBetween(entry, head, head.next, [head] + xs, 0);
    assert [head] + ([entry] + xs) == ([head] + xs)[..1] + [entry] + ([head] + xs)[1..];
  }

  method ListAddTail(entry: Node, head: Node, ghost xs: seq<Node>)
    requires List(head, xs) && entry != head && entry !in xs
    modifies entry, head, head.prev
    ensures List(head, xs + [entry])
  {
    ListEnds(head, xs);
    ghost var c := [head] + xs;
    AddBetween(entry, head.prev, head, c, |xs|);
    assert [head] + (xs + [entry]) == c[..|xs| + 1] + [entry] + c[|xs| + 1..];
  }

  // Takes the node at position i out of a ring of several; it keeps its own pointers.
  method DelEntry(entry: Node, ghost c: seq<Node>, ghost i: nat)
    requires Ring(c) && i < |c| && entry == c[i] && |c| > 1
    modifies entry.prev, entry.next
    ensures Ring(Remove(c, i)) && entry.next == old(entry.next) && entry.prev == old(entry.prev)
  {
    RingNeighbours(c, i);
    entry.next.prev := entry.prev;
    entry.prev.next := entry.next;
    ghost var d := Remove(c, i);
    assert forall k :: 0 <= k < |d| ==> d[k] == c[if k < i then k else k + 1];
    forall k, l | 0 <= k < |d| && l == k + 1 && l < |d| ensures Linked(d[k], d[l]) {
      if k + 1 < i { assert old(Linked(c[k], c[k + 1])); }
      if k + 1 > i { assert old(Linked(c[k + 1], c[k + 2])); }
    }
  }

  // The nodes of a list.
  ghost function Nodes(head: Node, xs: seq<Node>): set<Node> {
    {head} + set x | x in xs
  }

  lemma WithoutEntry(head: Node, xs: seq<Node>, i: nat)
    requires i < |xs|
    ensures ([head] + xs)[i + 1] == xs[i] && Remove([head] + xs, i + 1) == [head] + Remove(xs, i)
  {
  }

  lemma WithoutNodes(head: Node, xs: seq<Node>, i: nat)
    requires Distinct([head] + xs) && i < |xs|
    ensures xs[i] !in Nodes(head, Remove(xs, i)) && Nodes(head, Remove(xs, i)) == Nodes(head, xs) - {xs[i]}
  {
    var c, ys := [head] + xs, Remove(xs, i);
    assert c[0] == head && c[i + 1] == xs[i];
    forall k | 0 <= k < |ys| ensures ys[k] != xs[i] && ys[k] in xs {
      var k' := if k < i then k else k + 1;
      assert ys[k] == xs[k'] == c[k' + 1];
    }
    forall k | 0 <= k < |xs| && k != i ensures xs[k] in ys { assert xs[k] == ys[if k < i then k else k - 1]; }
  }

  // The same for an entry of a list.
  method DelFromList(entry: Node, ghost head: Node, ghost xs: seq<Node>, ghost i: nat)
    requires List(head, xs) && i < |xs| && entry == xs[i]
    modifies entry.prev, entry.next
    ensures List(head, Remove(xs, i)) && Nodes(head, Remove(xs, i)) == Nodes(head, xs) - {entry}
  {
    WithoutEntry(head, xs, i);
    WithoutNodes(head, xs, i);
    DelEntry(entry, [head] + xs, i + 1);
  }

  lemma NeighboursInList(head: Node, xs: seq<Node>, n: Node)
    requires List(head, xs) && n in Nodes(head, xs)
    ensures n.next in Nodes(head, xs) && n.prev in Nodes(head, xs)
  {
    ListEnds(head, xs);
    if n != head {
      var k :| 0 <= k < |xs| && xs[k] == n;
      EntryNeighbours(head, xs, k);
    }
  }

  method ListDel(entry: Node, ghost head: Node, ghost xs: seq<Node>, ghost i: nat)
    requires List(head, xs) && i < |xs| && entry == xs[i]
    modifies entry, entry.prev, entry.next
    ensures List(head, Remove(xs, i)) && entry.next == null && entry.prev == null
  {
    DelFromList(entry, head, xs, i);
    entry.next := null;
    entry.prev := null;
  }

  method ListDelInit(entry: Node, ghost head: Node, ghost xs: seq<Node>, ghost i: nat)
    requires List(head, xs) && i < |xs| && entry == xs[i]
    modifies entry, entry.prev, entry.next
    ensures List(head, Remove(xs, i)) && List(entry, [])
  {
    DelFromList(entry, head, xs, i);
    InitListHead(entry);
  }

  // From one list to another.
  method ListMove(entry: Node, head: Node, ghost source: Node, ghost xs: seq<Node>, ghost i: nat, ghost ys: seq<Node>)
    requires List(source, xs) && i < |xs| && entry == xs[i] && List(head, ys) && Nodes(source, xs) !! Nodes(head, ys)
    modifies entry, entry.prev, entry.next, head, head.next
    ensures List(source, Remove(xs, i)) && List(head, [entry] + ys)
  {
    NeighboursInList(source, xs, entry);
    NeighboursInList(head, ys, head);
    DelFromList(entry, source, xs, i);
    assert entry !in Nodes(head, ys);
    ListAdd(entry, head, ys);
  }

  method ListMoveTail(entry: Node, head: Node, ghost source: Node, ghost xs: seq<Node>, ghost i: nat, ghost ys: seq<Node>)
    requires List(source, xs) && i < |xs| && entry == xs[i] && List(head, ys) && Nodes(source, xs) !! Nodes(head, ys)
    modifies entry, entry.prev, entry.next, head, head.prev
    ensures List(source, Remove(xs, i)) && List(head, ys + [entry])
  {
    NeighboursInList(source, xs, entry);
    NeighboursInList(head, ys, head);
    DelFromList(entry, source, xs, i);
    assert entry !in Nodes(head, ys);
    ListAddTail(entry, head, ys);
  }

  // Within one list.
  method ListMoveWithin(entry: Node, head: Node, ghost xs: seq<Node>, ghost i: nat)
    requires List(head, xs) && i < |xs| && entry == xs[i]
    modifies head, xs
    ensures List(head, [entry] + Remove(xs, i))
  {
    NeighboursInList(head, xs, entry);
    DelFromList(entry, head, xs, i);
    assert entry !in Nodes(head, Remove(xs, i));
    NeighboursInList(head, Remove(xs, i), head);
    ListAdd(entry, head, Remove(xs, i));
  }

  method ListMoveTailWithin(entry: Node, head: Node, ghost xs: seq<Node>, ghost i: nat)
    requires List(head, xs) && i < |xs| && entry == xs[i]
    modifies head, xs
    ensures List(head, Remove(xs, i) + [entry])
  {
    NeighboursInList(head, xs, entry);
    DelFromList(entry, head, xs, i);
    assert entry !in Nodes(head, Remove(xs, i));
    NeighboursInList(head, Remove(xs, i), head);
    ListAddTail(entry, head, Remove(xs, i));
  }

  method ListRotateLeft(head: Node, ghost xs: seq<Node>)
    requires List(head, xs)
    modifies head, xs
    ensures List(head, if xs == [] then [] else xs[1..] + [xs[0]])
  {
    ListEnds(head, xs);
    QueriesMatch(head, xs);
    if !IsEmpty(head) {
      var first := head.next;
      assert Remove(xs, 0) == xs[1..];
      ListMoveTailWithin(first, head, xs, 0);
    }
  }

  // The new node takes the old one's place; in place of an empty list it is empty itself.
  method ListReplace(former: Node, entry: Node, ghost c: seq<Node>, ghost i: nat)
    requires Ring(c) && i < |c| && former == c[i] && entry !in c
    modifies entry, former, former.next, former.prev
    ensures Ring(c[i := entry])
  {
    RingNeighbours(c, i);
    entry.next := former.next;
    entry.next.prev := entry;
    entry.prev := former.prev;
    entry.prev.next := entry;
  }

  method ListReplaceInit(former: Node, entry: Node, ghost c: seq<Node>, ghost i: nat)
    requires Ring(c) && i < |c| && former == c[i] && entry !in c
    modifies entry, former, former.next, former.prev
    ensures Ring(c[i := entry]) && List(former, [])
  {
    ListReplace(former, entry, c, i);
    assert former !in c[i := entry];
    InitListHead(former);
  }

  /* ---------- Cutting and joining ---------- */

  // A list is a chain of entries whose ends meet at the head.
  ghost predicate Closed(head: Node, xs: seq<Node>)
    reads head, xs
  {
    if xs == [] then Linked(head, head) else Linked(head, xs[0]) && Linked(xs[|xs| - 1], head)
  }

  lemma ListParts(head: Node, xs: seq<Node>)
    requires List(head, xs)
    ensures Distinct(xs) && head !in xs && Chain(xs) && Closed(head, xs)
  {
    ListEnds(head, xs);
    ChainSplit([head], xs);
    var c := [head] + xs;
    assert forall i :: 0 <= i < |xs| ==> xs[i] == c[i + 1];
  }

  lemma ListFromParts(head: Node, xs: seq<Node>)
    requires Distinct(xs) && head !in xs && Chain(xs) && Closed(head, xs)
    ensures List(head, xs)
  {
    ChainJoin([head], xs);
  }

  // Closes a chain of entries, not empty, at a list head.
  method CloseAt(list: Node, first: Node, last: Node, ghost a: seq<Node>)
    requires Distinct(a) && list !in a && Chain(a) && a != [] && first == a[0] && last == a[|a| - 1]
    modifies list, first, last
    ensures List(list, a)
  {
    list.next := first;
    list.next.prev := list;
    list.prev := last;
    list.prev.next := list;
    ListFromParts(list, a);
  }

  // Makes `first` the first entry after the head, to which the last one still points.
  method StartWith(head: Node, first: Node, ghost b: seq<Node>)
    requires Distinct(b) && head !in b && Chain(b)
    requires if b == [] then first == head else first == b[0] && Linked(b[|b| - 1], head)
    modifies head, first
    ensures List(head, b)
  {
    head.next := first;
    first.prev := head;
    ListFromParts(head, b);
  }

  lemma CutParts(list: Node, head: Node, xs: seq<Node>, n: nat)
    requires List(head, xs) && list !in Nodes(head, xs) && 0 < n <= |xs|
    ensures var a, b := xs[..n], xs[n..];
            && Distinct(a) && Distinct(b) && list !in a && head !in b && Chain(a) && Chain(b) && Nodes(list, a) !! Nodes(head, b)
            && a[0] in Nodes(list, a) && a[n - 1] in Nodes(list, a) && (b != [] ==> b[0] in Nodes(head, b))
            && head.next == a[0] && a[n - 1].next == (if b == [] then head else b[0])
            && (if b == [] then head.prev == a[n - 1] else b[0].prev == a[n - 1] && Linked(b[|b| - 1], head))
  {
    ListEnds(head, xs);
    ListParts(head, xs);
    EntryNeighbours(head, xs, n - 1);
    if n < |xs| { EntryNeighbours(head, xs, n); }
    assert xs == xs[..n] + xs[n..];
    ChainSplit(xs[..n], xs[n..]);
    SlicesApart(list, head, xs, n);
  }

  // Moves the entries up to and including the one at position n - 1 to `list`, n > 0.
  method CutAfter(list: Node, head: Node, entry: Node, ghost xs: seq<Node>, ghost n: nat)
    requires List(head, xs) && list !in Nodes(head, xs) && 0 < n <= |xs| && entry == xs[n - 1]
    modifies list, head, xs
    ensures List(list, xs[..n]) && List(head, xs[n..])
  {
    CutParts(list, head, xs, n);
    var newFirst := entry.next;
    CloseAt(list, head.next, entry, xs[..n]);
    StartWith(head, newFirst, xs[n..]);
  }

  // Moves the entries up to and including `entry` from `head` to `list`: none when it is the
  // head. From an empty list, or from a single entry that is not the one given, nothing is cut
  // and `list` stays as it is.
  method ListCutPosition(list: Node, head: Node, entry: Node, ghost xs: seq<Node>, ghost n: nat)
    requires List(head, xs) && list !in Nodes(head, xs)
    requires n <= |xs| && (entry == ([head] + xs)[n] || (|xs| <= 1 && entry !in Nodes(head, xs)))
    modifies list, head, xs
    ensures if xs == [] || entry !in Nodes(head, xs) then
              List(head, xs) && list.next == old(list.next) && list.prev == old(list.prev)
            else List(list, xs[..n]) && List(head, xs[n..])
  {
    QueriesMatch(head, xs);
    ListEnds(head, xs);
    if IsEmpty(head) {
      return;
    }
    if IsSingular(head) && head.next != entry && head != entry {
      return;
    }
    ListParts(head, xs);
    if entry == head {
      InitListHead(list);
      assert xs[..0] == [] && xs[0..] == xs;
    } else {
      CutAfter(list, head, entry, xs, n);
    }
  }

  // Moves the entries before `entry`, all of them when it is the head, from `head` to `list`.
  method ListCutBefore(list: Node, head: Node, entry: Node, ghost xs: seq<Node>, ghost n: nat)
    requires List(head, xs) && list !in Nodes(head, xs)
    requires n <= |xs| && entry == (if n < |xs| then xs[n] else head)
    modifies list, head, xs
    ensures List(list, xs[..n]) && List(head, xs[n..])
  {
    ListEnds(head, xs);
    ListParts(head, xs);
    if head.next == entry {
      InitListHead(list);
      assert n == 0 && xs[0..] == xs;
      return;
    }
    CutParts(list, head, xs, n);
    CloseAt(list, head.next, entry.prev, xs[..n]);
    StartWith(head, entry, xs[n..]);
  }

  lemma SpliceApart(list: Node, ys: seq<Node>, head: Node, a: seq<Node>, b: seq<Node>)
    requires Distinct(ys) && Distinct(a + b) && head !in a + b && Nodes(list, ys) !! Nodes(head, a + b)
    ensures Distinct(a) && Distinct(b) && Distinct(a + ys + b) && head !in a + ys + b
    ensures forall i, j :: 0 <= i < |a| && 0 <= j < |ys| ==> a[i] != ys[j]
    ensures forall i, j :: 0 <= i < |b| && 0 <= j < |ys| ==> b[i] != ys[j]
    ensures forall i, j :: 0 <= i < |a| && 0 <= j < |b| ==> a[i] != b[j]
  {
    var c := a + b;
    assert forall i :: 0 <= i < |a| ==> a[i] == c[i] && c[i] in Nodes(head, c);
    assert forall i :: 0 <= i < |b| ==> b[i] == c[|a| + i] && c[|a| + i] in Nodes(head, c);
    assert forall j :: 0 <= j < |ys| ==> ys[j] in Nodes(list, ys);
  }

  // Puts the entries of `list`, which are not empty, between two consecutive nodes.
  method SpliceBetween(list: Node, prev: Node, next: Node, ghost head: Node, ghost ys: seq<Node>, ghost a: seq<Node>, ghost b: seq<Node>)
    requires List(list, ys) && ys != [] && List(head, a + b) && Nodes(list, ys) !! Nodes(head, a + b)
    requires prev == (if a == [] then head else a[|a| - 1]) && next == (if b == [] then head else b[0])
    modifies ys, prev, next
    ensures List(head, a + ys + b) && list.next == old(list.next) && list.prev == old(list.prev)
  {
    ListParts(list, ys);
    ListParts(head, a + b);
    ListEnds(list, ys);
    ChainSplit(a, b);
    SpliceApart(list, ys, head, a, b);
    var first := list.next;
    var last := list.prev;
    first.prev := prev;
    prev.next := first;
    last.next := next;
    next.prev := last;
    ChainJoin(a, ys);
    ChainJoin(a + ys, b);
    ListFromParts(head, a + ys + b);
  }

  method ListSplice(list: Node, head: Node, ghost ys: seq<Node>, ghost xs: seq<Node>)
    requires List(list, ys) && List(head, xs) && Nodes(list, ys) !! Nodes(head, xs)
    modifies ys, head, head.next
    ensures List(head, ys + xs) && list.next == old(list.next) && list.prev == old(list.prev)
  {
    QueriesMatch(list, ys);
    ListEnds(head, xs);
    assert [] + xs == xs && [] + ys + xs == ys + xs;
    if !IsEmpty(list) {
      SpliceBetween(list, head, head.next, head, ys, [], xs);
    }
  }

  method ListSpliceTail(list: Node, head: Node, ghost ys: seq<Node>, ghost xs: seq<Node>)
    requires List(list, ys) && List(head, xs) && Nodes(list, ys) !! Nodes(head, xs)
    modifies ys, head, head.prev
    ensures List(head, xs + ys) && list.next == old(list.next) && list.prev == old(list.prev)
  {
    QueriesMatch(list, ys);
    ListEnds(head, xs);
    assert xs + [] == xs && xs + ys + [] == xs + ys;
    if !IsEmpty(list) {
      SpliceBetween(list, head.prev, head, head, ys, xs, []);
    }
  }

  method ListSpliceInit(list: Node, head: Node, ghost ys: seq<Node>, ghost xs: seq<Node>)
    requires List(list, ys) && List(head, xs) && Nodes(list, ys) !! Nodes(head, xs)
    modifies list, ys, head, head.next
    ensures List(head, ys + xs) && List(list, [])
  {
    QueriesMatch(list, ys);
    ListParts(list, ys);
    NeighboursInList(head, xs, head);
    assert ys == [] ==> ys + xs == xs;
    if !IsEmpty(list) {
      ListSplice(list, head, ys, xs);
      assert list !in Nodes(head, ys + xs);
      InitListHead(list);
    }
  }

  method ListSpliceTailInit(list: Node, head: Node, ghost ys: seq<Node>, ghost xs: seq<Node>)
    requires List(list, ys) && List(head, xs) && Nodes(list, ys) !! Nodes(head, xs)
    modifies list, ys, head, head.prev
    ensures List(head, xs + ys) && List(list, [])
  {
    QueriesMatch(list, ys);
    ListParts(list, ys);
    NeighboursInList(head, xs, head);
    assert ys == [] ==> xs + ys == xs;
    if !IsEmpty(list) {
      ListSpliceTail(list, head, ys, xs);
      assert list !in Nodes(head, xs + ys);
      InitListHead(list);
    }
  }

  lemma SlicesApart(list: Node, head: Node, xs: seq<Node>, n: nat)
    requires Distinct(xs) && head !in xs && list !in Nodes(head, xs) && n <= |xs|
    ensures Nodes(list, xs[..n]) !! Nodes(head, xs[n..]) && Nodes(head, xs[n..]) <= Nodes(head, xs)
  {
    var a, b := xs[..n], xs[n..];
    assert forall i :: 0 <= i < |a| ==> a[i] == xs[i];
    assert forall i :: 0 <= i < |b| ==> b[i] == xs[n + i];
    assert forall i :: 0 <= i < |xs| ==> xs[i] in Nodes(head, xs);
  }

  ghost predicate Placed(head: Node, xs: seq<Node>, i: nat)
    requires i < |xs|
    reads xs
  {
    xs[i].next == After(head, xs, i) && xs[i].prev == Before(head, xs, i)
  }

  lemma AllPlaced(head: Node, xs: seq<Node>)
    requires List(head, xs)
    ensures forall i: nat {:trigger Placed(head, xs, i)} :: i < |xs| ==> Placed(head, xs, i)
  {
    forall i: nat | i < |xs| ensures Placed(head, xs, i) { EntryNeighbours(head, xs, i); }
  }

  method CutAndRejoin(list: Node, head: Node, entry: Node, ghost xs: seq<Node>, ghost n: nat)
    requires List(head, xs) && list !in Nodes(head, xs) && 0 < n <= |xs| && entry == xs[n - 1]
    modifies list, head, xs
    ensures List(head, xs) && List(list, [])
  {
    ListParts(head, xs);
    assert ([head] + xs)[n] == xs[n - 1];
    ListCutPosition(list, head, entry, xs, n);
    SlicesApart(list, head, xs, n);
    ListEnds(head, xs[n..]);
    ListSpliceInit(list, head, xs[..n], xs[n..]);
    assert xs[..n] + xs[n..] == xs;
  }

  // Cutting a list at one of its entries and splicing the part back restores every pointer.
  method CutAndSpliceBack(list: Node, head: Node, entry: Node, ghost xs: seq<Node>, ghost n: nat)
    requires List(head, xs) && list !in Nodes(head, xs) && 0 < n <= |xs| && entry == xs[n - 1]
    modifies list, head, xs
    ensures List(head, xs) && List(list, [])
    ensures head.next == old(head.next) && head.prev == old(head.prev)
    ensures forall i :: 0 <= i < |xs| ==> xs[i].next == old(xs[i].next) && xs[i].prev == old(xs[i].prev)
  {
    ListEnds(head, xs);
    AllPlaced(head, xs);
    CutAndRejoin(list, head, entry, xs, n);
    ListEnds(head, xs);
    AllPlaced(head, xs);
    forall i | 0 <= i < |xs| ensures xs[i].next == old(xs[i].next) && xs[i].prev == old(xs[i].prev) {
      assert old(Placed(head, xs, i)) && Placed(head, xs, i);
    }
  }
}