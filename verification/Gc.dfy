/** The mark-sweep collector of one task: slots in slabs, a live list and a free list threaded
    through one link field, recursive marking, and a sweep that relinks every live slot.

    A slot is its index in the heap; `Elsewhere` is a reference into another task's heap. */
module Collector {

  datatype Ref = Null | Here(slot: nat) | Elsewhere(id: nat)

  datatype Link = End | To(slot: nat)

  /** `klass` is the value's class and `edges` what the class's mark function visits. */
  datatype Slot = Slot(marked: bool, next: Link, klass: Ref, edges: seq<Ref>)

  const SLAB_SIZE: nat := 256

  // ---------- lists and graphs over slots ----------

  predicate Contains(slots: seq<Slot>, r: Ref) {
    r.Here? && r.slot < |slots|
  }

  function Children(s: Slot): seq<Ref> {
    [s.klass] + s.edges
  }

  ghost predicate Distinct(list: seq<nat>) {
    forall j, k :: 0 <= j < k < |list| ==> list[j] != list[k]
  }

  function HeadOf(list: seq<nat>): Link {
    if list == [] then End else To(list[0])
  }

  /** `list` is what following the links from `head` visits. */
  ghost predicate Linked(slots: seq<Slot>, head: Link, list: seq<nat>) {
    && head == HeadOf(list)
    && forall k :: 0 <= k < |list| ==> list[k] < |slots| && slots[list[k]].next == HeadOf(list[k + 1..])
  }

  ghost function Elements(list: seq<nat>): set<nat> {
    set x | x in list
  }

  /** The same objects and links; only marks may differ. */
  ghost predicate SameGraph(a: seq<Slot>, b: seq<Slot>) {
    |a| == |b| && forall i :: 0 <= i < |a| ==> a[i].(marked := b[i].marked) == b[i]
  }

  /** Every reference of a slot in `part` that points into this heap points into `part`. */
  ghost predicate Closed(slots: seq<Slot>, part: set<nat>) {
    forall i, c :: i in part && i < |slots| && c in Children(slots[i]) && Contains(slots, c) ==> c.slot in part
  }

  ghost predicate Within(slots: seq<Slot>, refs: seq<Ref>, part: set<nat>) {
    forall c :: c in refs && Contains(slots, c) ==> c.slot in part
  }

  /** A stronger form for the live slots: all their references into this heap stay in `part`. */
  ghost predicate Owned(slots: seq<Slot>, part: set<nat>) {
    forall i, c :: i in part && i < |slots| && c in Children(slots[i]) && c.Here? ==> c.slot in part
  }

  ghost predicate OwnedRefs(refs: seq<Ref>, part: set<nat>) {
    forall c :: c in refs && c.Here? ==> c.slot in part
  }

  ghost predicate Path(slots: seq<Slot>, p: seq<nat>) {
    && (forall k :: 0 <= k < |p| ==> p[k] < |slots|)
    && (forall k :: 0 < k < |p| ==> Here(p[k]) in Children(slots[p[k - 1]]))
  }

  ghost predicate PathFrom(slots: seq<Slot>, starts: seq<Ref>, p: seq<nat>, i: nat) {
    p != [] && Here(p[0]) in starts && Path(slots, p) && p[|p| - 1] == i
  }

  /** Slot `i` can be reached from one of the starting references. */
  ghost predicate Reachable(slots: seq<Slot>, starts: seq<Ref>, i: nat) {
    exists p :: PathFrom(slots, starts, p, i)
  }

  ghost function Marked(slots: seq<Slot>): set<nat> {
    set i | 0 <= i < |slots| && slots[i].marked
  }

  /** What one stretch of marking did: it marked only slots reachable from `starts`, it marked
      those of `starts`, and every slot it marked has its children marked. */
  ghost predicate Marking(before: seq<Slot>, after: seq<Slot>, starts: seq<Ref>) {
    && SameGraph(before, after) && Marked(before) <= Marked(after)
    && (forall i :: i in Marked(after) - Marked(before) ==> Reachable(before, starts, i))
    && (forall i, c :: i in Marked(after) - Marked(before) && c in Children(before[i]) && Contains(before, c) ==> c.slot in Marked(after))
    && (forall c :: c in starts && Contains(before, c) ==> c.slot in Marked(after))
  }

  lemma {:induction false} SameReach(a: seq<Slot>, b: seq<Slot>, starts: seq<Ref>, i: nat)
    requires SameGraph(a, b) && Reachable(a, starts, i)
    ensures Reachable(b, starts, i)
  {
    var p :| PathFrom(a, starts, p, i);
    assert PathFrom(b, starts, p, i);
  }

  lemma {:induction false} MoreStarts(slots: seq<Slot>, starts: seq<Ref>, more: seq<Ref>, i: nat)
    requires Reachable(slots, starts, i) && (forall c :: c in starts ==> c in more)
    ensures Reachable(slots, more, i)
  {
    var p :| PathFrom(slots, starts, p, i);
    assert PathFrom(slots, more, p, i);
  }

  /** A path from a child extends to a path from its parent. */
  lemma {:induction false} ThroughParent(slots: seq<Slot>, parent: nat, i: nat)
    requires parent < |slots| && Reachable(slots, Children(slots[parent]), i)
    ensures Reachable(slots, [Here(parent)], i)
  {
    var p :| PathFrom(slots, Children(slots[parent]), p, i);
    var q := [parent] + p;
    forall k | 0 <= k < |q|
      ensures q[k] < |slots| && (k > 0 ==> Here(q[k]) in Children(slots[q[k - 1]]))
    {
      if k > 1 { assert q[k] == p[k - 1] && q[k - 1] == p[k - 2]; }
    }
    assert PathFrom(slots, [Here(parent)], q, i);
  }

  /** A closed set that holds the starting slots holds every reachable one. */
  lemma {:induction false} ReachStays(slots: seq<Slot>, starts: seq<Ref>, part: set<nat>, p: seq<nat>, i: nat)
    requires Closed(slots, part) && Within(slots, starts, part) && PathFrom(slots, starts, p, i)
    ensures i in part
    decreases |p|
  {
    if |p| == 1 {
      assert Contains(slots, Here(p[0]));
    } else {
      var q := p[..|p| - 1];
      assert forall k :: 0 <= k < |q| ==> q[k] == p[k];
      assert PathFrom(slots, starts, q, q[|q| - 1]);
      ReachStays(slots, starts, part, q, q[|q| - 1]);
      assert Here(p[|p| - 1]) in Children(slots[p[|p| - 2]]) && Contains(slots, Here(i));
    }
  }

  /** Marking from nothing marked marks exactly the reachable slots. */
  lemma {:induction false} MarkingExact(before: seq<Slot>, after: seq<Slot>, starts: seq<Ref>, part: set<nat>)
    requires Marking(before, after, starts) && Closed(before, part) && Within(before, starts, part)
    requires forall i :: i in part && i < |before| ==> !before[i].marked
    ensures forall i :: i in part && i < |before| ==> (after[i].marked <==> Reachable(before, starts, i))
  {
    var found := Marked(after) * part;
    forall i | i in part && i < |before|
      ensures after[i].marked <==> Reachable(before, starts, i)
    {
      if Reachable(before, starts, i) {
        var p :| PathFrom(before, starts, p, i);
        assert Closed(before, found);
        assert Within(before, starts, found);
        ReachStays(before, starts, found, p, i);
      }
      if after[i].marked {
        assert i in Marked(after) - Marked(before);
      }
    }
  }

  lemma {:induction false} MarkingThen(a: seq<Slot>, b: seq<Slot>, c: seq<Slot>, s: seq<Ref>, t: seq<Ref>)
    requires Marking(a, b, s) && Marking(b, c, t)
    ensures Marking(a, c, s + t)
  {
    forall i | i in Marked(c) - Marked(a)
      ensures Reachable(a, s + t, i)
    {
      if i in Marked(b) {
        MoreStarts(a, s, s + t, i);
      } else {
        SameReach(b, a, t, i);
        MoreStarts(a, t, s + t, i);
      }
    }
    forall i, r | i in Marked(c) - Marked(a) && r in Children(a[i]) && Contains(a, r)
      ensures r.slot in Marked(c)
    {
      assert Children(a[i]) == Children(b[i]);
      assert i in Marked(b) ==> i in Marked(b) - Marked(a);
    }
  }

  /** Marking a slot and then its children is marking from that slot. */
  lemma {:induction false} MarkingSlot(a: seq<Slot>, b: seq<Slot>, i: nat)
    requires i < |a| && Marking(a[i := a[i].(marked := true)], b, Children(a[i]))
    ensures Marking(a, b, [Here(i)])
  {
    var a1 := a[i := a[i].(marked := true)];
    assert PathFrom(a, [Here(i)], [i], i);
    forall k | k in Marked(b) - Marked(a)
      ensures Reachable(a, [Here(i)], k)
    {
      if k != i {
        assert k in Marked(b) - Marked(a1);
        SameReach(a1, a, Children(a[i]), k);
        ThroughParent(a, i, k);
      }
    }
    forall k, r | k in Marked(b) - Marked(a) && r in Children(a[k]) && Contains(a, r)
      ensures r.slot in Marked(b)
    {
      assert Children(a1[k]) == Children(a[k]) && Contains(a1, r);
    }
    assert i in Marked(a1);
  }

  /** The same objects: links and marks may differ. */
  ghost predicate SameObjects(a: seq<Slot>, b: seq<Slot>) {
    |a| == |b| && forall i :: 0 <= i < |a| ==> a[i].klass == b[i].klass && a[i].edges == b[i].edges
  }

  lemma {:induction false} OwnedGraph(a: seq<Slot>, b: seq<Slot>, part: set<nat>)
    requires SameGraph(a, b) && Owned(a, part)
    ensures Owned(b, part) && Closed(b, part)
  {
    forall i, c | i in part && i < |b| && c in Children(b[i]) && c.Here?
      ensures c.slot in part
    {
      assert Children(a[i]) == Children(b[i]);
    }
  }

  lemma {:induction false} MarkingNone(a: seq<Slot>)
    ensures Marking(a, a, [])
  {
  }

  // ---------- relinking ----------

  lemma {:induction false} LinkedHead(slots: seq<Slot>, head: Link, list: seq<nat>)
    requires Linked(slots, head, list)
    ensures head == HeadOf(list)
  {
  }

  lemma {:induction false} LinkedKeep(slots: seq<Slot>, x: nat, s: Slot, head: Link, list: seq<nat>)
    requires x < |slots| && Linked(slots, head, list) && x !in list
    ensures Linked(slots[x := s], head, list)
  {
  }

  lemma {:induction false} LinkedPush(slots: seq<Slot>, x: nat, head: Link, list: seq<nat>)
    requires x < |slots| && Linked(slots, head, list) && x !in list
    ensures Linked(slots[x := slots[x].(next := head)], To(x), [x] + list)
  {
    var after := slots[x := slots[x].(next := head)];
    assert ([x] + list)[1..] == list;
    forall k | 0 <= k < |[x] + list|
      ensures ([x] + list)[k] < |after| && after[([x] + list)[k]].next == HeadOf(([x] + list)[k + 1..])
    {
      if k > 0 { assert ([x] + list)[k + 1..] == list[k..]; }
    }
  }

  lemma {:induction false} LinkedGraph(a: seq<Slot>, b: seq<Slot>, head: Link, list: seq<nat>)
    requires SameGraph(a, b) && Linked(a, head, list)
    ensures Linked(b, head, list)
  {
  }

  lemma {:induction false} LinkedRewrite(slots: seq<Slot>, x: nat, s: Slot, head: Link, list: seq<nat>)
    requires x < |slots| && Linked(slots, head, list) && s.next == slots[x].next
    ensures Linked(slots[x := s], head, list)
  {
  }

  lemma {:induction false} LinkedTail(slots: seq<Slot>, list: seq<nat>)
    requires list != [] && Linked(slots, To(list[0]), list)
    ensures slots[list[0]].next == HeadOf(list[1..]) && Linked(slots, HeadOf(list[1..]), list[1..])
  {
    forall k | 0 <= k < |list[1..]|
      ensures list[1..][k] < |slots| && slots[list[1..][k]].next == HeadOf(list[1..][k + 1..])
    {
      assert list[1..][k + 1..] == list[k + 2..];
    }
  }

  ghost predicate InBounds(slots: seq<Slot>, list: seq<nat>) {
    forall k :: 0 <= k < |list| ==> list[k] < |slots|
  }

  predicate IsMarked(slots: seq<Slot>, x: nat) {
    x < |slots| && slots[x].marked
  }

  /** The marked slots of a list, in the order in which the sweep relinks them: last first. */
  ghost function Kept(slots: seq<Slot>, list: seq<nat>): (r: seq<nat>)
    requires InBounds(slots, list)
    ensures forall x :: x in r <==> x in list && IsMarked(slots, x)
  {
    if list == [] then []
    else
      var x, rest := list[|list| - 1], Kept(slots, list[..|list| - 1]);
      if slots[x].marked then [x] + rest else rest
  }

  ghost function Dropped(slots: seq<Slot>, list: seq<nat>): (r: seq<nat>)
    requires InBounds(slots, list)
    ensures forall x :: x in r <==> x in list && !IsMarked(slots, x)
  {
    if list == [] then []
    else
      var x, rest := list[|list| - 1], Dropped(slots, list[..|list| - 1]);
      if slots[x].marked then rest else [x] + rest
  }

  lemma {:induction false} SweepSizes(slots: seq<Slot>, list: seq<nat>)
    requires Distinct(list) && InBounds(slots, list)
    ensures |Kept(slots, list)| + |Dropped(slots, list)| == |list|
    ensures Distinct(Kept(slots, list) + Dropped(slots, list))
    decreases |list|
  {
    if list != [] {
      var init, x := list[..|list| - 1], list[|list| - 1];
      SweepSizes(slots, init);
      assert x !in init;
      var k, d := Kept(slots, init), Dropped(slots, init);
      if slots[x].marked {
        DistinctInsert(k, d, x);
        assert Kept(slots, list) + Dropped(slots, list) == [x] + k + d;
      } else {
        DistinctSwap(k, d, x);
      }
    }
  }

  lemma {:induction false} DistinctInsert(k: seq<nat>, d: seq<nat>, x: nat)
    requires Distinct(k + d) && x !in k && x !in d
    ensures Distinct([x] + k + d)
  {
    assert [x] + k + d == [x] + (k + d);
    assert forall y :: y in k + d ==> y in k || y in d;
    forall i, j | 0 <= i < j < |[x] + (k + d)|
      ensures ([x] + (k + d))[i] != ([x] + (k + d))[j]
    {
      assert ([x] + (k + d))[j] == (k + d)[j - 1];
      if i > 0 { assert ([x] + (k + d))[i] == (k + d)[i - 1]; }
    }
  }

  lemma {:induction false} DistinctSwap(k: seq<nat>, d: seq<nat>, x: nat)
    requires Distinct(k + d) && x !in k && x !in d
    ensures Distinct(k + ([x] + d))
  {
    var whole := k + ([x] + d);
    forall i, j | 0 <= i < j < |whole|
      ensures whole[i] != whole[j]
    {
      var i' := if i < |k| then i else if i == |k| then -1 else i - 1;
      var j' := if j < |k| then j else if j == |k| then -1 else j - 1;
      assert i' >= 0 ==> whole[i] == (k + d)[i'];
      assert j' >= 0 ==> whole[j] == (k + d)[j'];
      assert forall y :: y in k + d ==> y in k || y in d;
    }
  }

  /** Between sweep steps: every slot keeps its contents, and only swept slots were relinked. */
  ghost predicate Swept(before: seq<Slot>, after: seq<Slot>, done: set<nat>) {
    && |before| == |after|
    && (forall i :: 0 <= i < |before| ==> after[i].(next := before[i].next) == before[i])
    && (forall i :: 0 <= i < |before| && i !in done ==> after[i] == before[i])
  }

  /** `n` consecutive slots. */
  function Range(base: nat, n: nat): (r: seq<nat>)
    ensures |r| == n && (forall k :: 0 <= k < n ==> r[k] == base + k)
  {
    seq(n, k => base + k)
  }

  /** The slots that are on neither list. */
  ghost function OnNeither(n: nat, live: seq<nat>, free: seq<nat>): set<nat> {
    set i | 0 <= i < n && i !in live && i !in free
  }

  /** A new range of slots, all of them free, loses none. */
  lemma {:induction false} GrownLists(live: seq<nat>, base: nat, n: nat)
    requires Distinct(live + []) && (forall x :: x in live ==> x < base)
    ensures Distinct(live + Range(base, n)) && (forall x :: x in Range(base, n) ==> x >= base)
    ensures OnNeither(base + n, live, Range(base, n)) == OnNeither(base, live, [])
  {
    assert live + [] == live;
    RangeMembers(base, n);
    assert Distinct(Range(base, n));
    DistinctJoin(live, Range(base, n));
  }

  lemma {:induction false} RangeMembers(base: nat, n: nat)
    ensures forall x :: x in Range(base, n) <==> base <= x < base + n
  {
    forall x | base <= x < base + n
      ensures x in Range(base, n)
    {
      assert Range(base, n)[x - base] == x;
    }
  }

  /** Chain the slots of a new slab; everything else in it is whatever the memory held. */
  method NewSlab(memory: seq<Slot>, base: nat) returns (slab: seq<Slot>)
    requires |memory| > 0
    ensures |slab| == |memory|
    ensures forall k :: 0 <= k < |slab| ==> slab[k] == memory[k].(next := if k + 1 < |slab| then To(base + k + 1) else End)
  {
    slab := memory;
    var i := 1;
    while i < |memory|
      invariant 1 <= i <= |memory| && |slab| == |memory|
      invariant forall k :: 0 <= k < i - 1 ==> slab[k] == memory[k].(next := To(base + k + 1))
      invariant forall k :: i - 1 <= k < |memory| ==> slab[k] == memory[k]
    {
      slab := slab[i - 1 := slab[i - 1].(next := To(base + i))];
      i := i + 1;
    }
    slab := slab[|memory| - 1 := slab[|memory| - 1].(next := End)];
  }

  lemma {:induction false} RangeLinked(before: seq<Slot>, after: seq<Slot>, slab: seq<Slot>, list: seq<nat>)
    requires after == before + slab && slab != [] && list == Range(|before|, |slab|)
    requires forall k :: 0 <= k < |slab| ==> slab[k].next == if k + 1 < |slab| then To(|before| + k + 1) else End
    ensures Linked(after, To(|before|), list) && Distinct(list)
  {
    forall k | 0 <= k < |list|
      ensures list[k] < |after| && after[list[k]].next == HeadOf(list[k + 1..])
    {
      assert after[list[k]] == slab[k];
    }
  }

  lemma {:induction false} OwnedMore(a: seq<Slot>, b: seq<Slot>, part: set<nat>)
    requires a <= b && Owned(a, part) && (forall i :: i in part ==> i < |a|)
    ensures Owned(b, part)
  {
    forall i, c | i in part && i < |b| && c in Children(b[i]) && c.Here?
      ensures c.slot in part
    {
      assert b[i] == a[i];
    }
  }

  lemma {:induction false} ReachableBound(slots: seq<Slot>, starts: seq<Ref>, i: nat)
    requires Reachable(slots, starts, i)
    ensures i < |slots|
  {
    var p :| PathFrom(slots, starts, p, i);
  }

  lemma {:induction false} BeyondUnreachable(slots: seq<Slot>, starts: seq<Ref>)
    ensures forall i :: i >= |slots| ==> !Reachable(slots, starts, i)
  {
    forall i | i >= |slots|
      ensures !Reachable(slots, starts, i)
    {
      if Reachable(slots, starts, i) { ReachableBound(slots, starts, i); }
    }
  }

  /** A free slot cannot be reached, because nothing live refers to it. */
  lemma {:induction false} FreeUnreachable(slots: seq<Slot>, starts: seq<Ref>, live: seq<nat>, free: seq<nat>)
    requires Owned(slots, Elements(live)) && OwnedRefs(starts, Elements(live)) && Distinct(live + free)
    ensures forall x :: x in free ==> !Reachable(slots, starts, x)
  {
    SplitDistinct(live, free);
    forall x | x in free
      ensures !Reachable(slots, starts, x)
    {
      if Reachable(slots, starts, x) {
        var p :| PathFrom(slots, starts, p, x);
        ReachStays(slots, starts, Elements(live), p, x);
      }
    }
  }

  lemma {:induction false} OwnedTaken(slots: seq<Slot>, x: nat, next: Link, part: set<nat>)
    requires Owned(slots, part) && x < |slots|
    ensures Owned(slots[x := Slot(false, next, Null, [])], part + {x})
  {
    var after := slots[x := Slot(false, next, Null, [])];
    forall i, c | i in part + {x} && i < |after| && c in Children(after[i]) && c.Here?
      ensures c.slot in part
    {
      assert Children(after[x]) == [Null];
    }
  }

  lemma {:induction false} TakeLists(slots: seq<Slot>, live: seq<nat>, free: seq<nat>)
    requires free != [] && Distinct(live + free) && Linked(slots, HeadOf(live), live) && Linked(slots, HeadOf(free), free)
    ensures free[0] < |slots| && free[0] !in live && free[0] !in free[1..]
    ensures slots[free[0]].next == HeadOf(free[1..]) && Linked(slots, HeadOf(free[1..]), free[1..])
    ensures Distinct([free[0]] + live + free[1..])
  {
    SplitDistinct(live, free);
    LinkedTail(slots, free);
    hide Linked;
    DistinctWithout(live, free);
    DistinctInsert(live, free[1..], free[0]);
  }

  lemma {:induction false} DistinctWithout(live: seq<nat>, free: seq<nat>)
    requires free != [] && Distinct(live + free)
    ensures Distinct(live + free[1..])
  {
    var rest := free[1..];
    forall j, k | 0 <= j < k < |live + rest|
      ensures (live + rest)[j] != (live + rest)[k]
    {
      assert (live + rest)[k] == (live + free)[if k < |live| then k else k + 1];
      assert (live + rest)[j] == (live + free)[if j < |live| then j else j + 1];
    }
  }

  /** Moving a slot between the lists. */
  lemma {:induction false} TakenMembers(n: nat, live: seq<nat>, x: nat, free: seq<nat>)
    ensures Elements([x] + live) == Elements(live) + {x}
    ensures OnNeither(n, [x] + live, free) == OnNeither(n, live, [x] + free)
  {
  }

  /** A slot that is on neither list is put in front of the live one. */
  lemma {:induction false} TakenLinks(slots: seq<Slot>, x: nat, live: Link, list: seq<nat>, free: Link, rest: seq<nat>)
    requires x < |slots| && Linked(slots, live, list) && Linked(slots, free, rest) && x !in list && x !in rest
    ensures var after := slots[x := Slot(false, live, Null, [])]; Linked(after, To(x), [x] + list) && Linked(after, free, rest)
  {
    hide Linked;
    var cleared := slots[x := Slot(false, End, Null, [])];
    LinkedKeep(slots, x, Slot(false, End, Null, []), live, list);
    LinkedPush(cleared, x, live, list);
    LinkedKeep(slots, x, Slot(false, live, Null, []), free, rest);
    assert slots[x := Slot(false, live, Null, [])] == cleared[x := cleared[x].(next := live)];
  }

  lemma {:induction false} LinkedMore(a: seq<Slot>, b: seq<Slot>, head: Link, list: seq<nat>)
    requires Linked(a, head, list) && a <= b
    ensures Linked(b, head, list)
  {
  }

  lemma {:induction false} DistinctJoin(a: seq<nat>, b: seq<nat>)
    requires Distinct(a) && Distinct(b) && (forall x :: x in a ==> x !in b)
    ensures Distinct(a + b)
  {
    forall j, k | 0 <= j < k < |a + b|
      ensures (a + b)[j] != (a + b)[k]
    {
      if k >= |a| && j < |a| { assert (a + b)[j] in a && (a + b)[k] == b[k - |a|]; }
    }
  }

  /** Two disjoint lists and the slots on neither make up the heap. */
  lemma {:induction false} CountSlots(n: nat, a: seq<nat>, b: seq<nat>, lost: set<nat>)
    requires Distinct(a + b) && (forall x :: x in a + b ==> x < n)
    requires lost == set i | 0 <= i < n && i !in a && i !in b
    ensures |a| + |b| + |lost| == n
  {
    var all := Range(0, n);
    DistinctSize(a + b);
    DistinctSize(all);
    RangeMembers(0, n);
    assert forall x :: x in a + b <==> x in a || x in b;
    assert Elements(all) == Elements(a + b) + lost;
  }

  lemma {:induction false} DistinctSize(list: seq<nat>)
    requires Distinct(list)
    ensures |Elements(list)| == |list|
    decreases |list|
  {
    if list != [] {
      var init, x := list[..|list| - 1], list[|list| - 1];
      DistinctSize(init);
      assert list == init + [x];
      assert Elements(list) == Elements(init) + {x};
    }
  }

  lemma {:induction false} KeptReached(cleared: seq<Slot>, marked: seq<Slot>, list: seq<nat>, starts: seq<Ref>)
    requires Marking(cleared, marked, starts) && InBounds(cleared, list)
    requires Owned(cleared, Elements(list)) && OwnedRefs(starts, Elements(list))
    requires forall x :: x in list ==> !cleared[x].marked
    ensures InBounds(marked, list)
    ensures forall x :: x in list ==> (IsMarked(marked, x) <==> Reachable(cleared, starts, x))
  {
    var part := Elements(list);
    OwnedGraph(cleared, cleared, part);
    hide Reachable;
    MarkingExact(cleared, marked, starts, part);
  }

  /** What the sweep keeps is what marking from `starts` reached, and it is closed again. */
  lemma {:induction false} KeptOwned(cleared: seq<Slot>, marked: seq<Slot>, list: seq<nat>, starts: seq<Ref>)
    requires Marking(cleared, marked, starts) && InBounds(cleared, list)
    requires Owned(cleared, Elements(list)) && OwnedRefs(starts, Elements(list))
    requires forall x :: x in list ==> !cleared[x].marked
    ensures InBounds(marked, list)
    ensures forall x :: x in list ==> (IsMarked(marked, x) <==> Reachable(cleared, starts, x))
    ensures Owned(marked, Elements(Kept(marked, list))) && OwnedRefs(starts, Elements(Kept(marked, list)))
  {
    hide Reachable, Kept;
    KeptReached(cleared, marked, list, starts);
    var part, kept := Elements(list), Kept(marked, list);
    forall i, c | i in kept && i < |marked| && c in Children(marked[i]) && c.Here?
      ensures c.slot in kept
    {
      assert Children(marked[i]) == Children(cleared[i]);
      assert c.slot in part && Contains(cleared, c) && i in Marked(marked) - Marked(cleared);
    }
    forall c | c in starts && c.Here?
      ensures c.slot in kept
    {
      assert c.slot in part && Contains(cleared, c);
    }
  }

  lemma {:induction false} SweptObjects(a: seq<Slot>, b: seq<Slot>, c: seq<Slot>, done: set<nat>)
    requires SameGraph(a, b) && Swept(b, c, done)
    ensures SameObjects(a, c) && SameObjects(b, c) && |a| == |b| == |c|
  {
  }

  lemma {:induction false} MarkingGraph(a: seq<Slot>, b: seq<Slot>, starts: seq<Ref>)
    requires Marking(a, b, starts)
    ensures SameGraph(a, b)
  {
  }

  lemma {:induction false} LinkedBounds(slots: seq<Slot>, head: Link, list: seq<nat>)
    requires Linked(slots, head, list)
    ensures InBounds(slots, list)
  {
  }

  lemma {:induction false} OwnedTogether(a: seq<Ref>, b: seq<Ref>, part: set<nat>)
    requires OwnedRefs(a, part) && OwnedRefs(b, part)
    ensures OwnedRefs(a + b, part)
  {
  }

  lemma {:induction false} OwnedApart(a: seq<Ref>, b: seq<Ref>, part: set<nat>)
    requires OwnedRefs(a + b, part)
    ensures OwnedRefs(a, part) && OwnedRefs(b, part)
  {
    assert forall c :: c in a ==> c in a + b;
    assert forall c :: c in b ==> c in a + b;
  }

  lemma {:induction false} SameReachAll(a: seq<Slot>, b: seq<Slot>, starts: seq<Ref>)
    requires SameGraph(a, b)
    ensures forall i :: Reachable(a, starts, i) <==> Reachable(b, starts, i)
  {
    forall i
      ensures Reachable(a, starts, i) <==> Reachable(b, starts, i)
    {
      if Reachable(a, starts, i) { SameReach(a, b, starts, i); }
      if Reachable(b, starts, i) { SameReach(b, a, starts, i); }
    }
  }

  lemma {:induction false} OwnedObjects(a: seq<Slot>, b: seq<Slot>, part: set<nat>)
    requires SameObjects(a, b) && Owned(a, part)
    ensures Owned(b, part)
  {
    forall i, c | i in part && i < |b| && c in Children(b[i]) && c.Here?
      ensures c.slot in part
    {
      assert Children(a[i]) == Children(b[i]);
    }
  }

  lemma {:induction false} SplitDistinct(a: seq<nat>, b: seq<nat>)
    requires Distinct(a + b)
    ensures Distinct(a) && Distinct(b) && (forall x :: x in a ==> x !in b)
  {
    forall j, k | 0 <= j < k < |a|
      ensures a[j] != a[k]
    {
      assert (a + b)[j] == a[j] && (a + b)[k] == a[k];
    }
    forall j, k | 0 <= j < k < |b|
      ensures b[j] != b[k]
    {
      assert (a + b)[|a| + j] == b[j] && (a + b)[|a| + k] == b[k];
    }
    forall j, k | 0 <= j < |a| && 0 <= k < |b|
      ensures a[j] != b[k]
    {
      assert (a + b)[j] == a[j] && (a + b)[|a| + k] == b[k];
    }
  }

  /** The sweep after `k` slots of the live list, about to look at `r`. */
  ghost predicate SweepState(before: seq<Slot>, list: seq<nat>, k: nat, slots: seq<Slot>, r: Link, kept: Link, dropped: Link, freed: nat) {
    && k <= |list| && InBounds(before, list) && InBounds(before, list[..k]) && Swept(before, slots, Elements(list[..k]))
    && r == HeadOf(list[k..]) && freed == |Dropped(before, list[..k])|
    && Linked(slots, kept, Kept(before, list[..k])) && Linked(slots, dropped, Dropped(before, list[..k]))
  }

  lemma {:induction false} SweepStart(before: seq<Slot>, list: seq<nat>)
    requires Linked(before, HeadOf(list), list)
    ensures SweepState(before, list, 0, before, HeadOf(list), End, End, 0)
  {
    assert list[0..] == list;
  }

  lemma {:induction false} SweepTurn(before: seq<Slot>, list: seq<nat>, k: nat, slots: seq<Slot>, r: Link, kept: Link, dropped: Link, freed: nat)
    requires SweepState(before, list, k, slots, r, kept, dropped, freed) && r != End
    requires Linked(before, HeadOf(list), list) && Distinct(list)
    ensures k < |list| && r.slot < |slots|
    ensures var s := slots[r.slot];
      if s.marked then SweepState(before, list, k + 1, slots[r.slot := s.(next := kept)], s.next, r, dropped, freed)
      else SweepState(before, list, k + 1, slots[r.slot := s.(next := dropped)], s.next, kept, r, freed + 1)
  {
    hide Kept, Dropped, Linked, Swept;
    var x := list[k];
    assert list[k..][0] == x;
    SweepStep(before, list, k);
    SweptStep(before, slots, Elements(list[..k]), x, if before[x].marked then kept else dropped);
    if slots[x].marked {
      LinkedPush(slots, x, kept, Kept(before, list[..k]));
      LinkedKeep(slots, x, slots[x].(next := kept), dropped, Dropped(before, list[..k]));
    } else {
      LinkedPush(slots, x, dropped, Dropped(before, list[..k]));
      LinkedKeep(slots, x, slots[x].(next := dropped), kept, Kept(before, list[..k]));
    }
  }

  lemma {:induction false} SweepEnd(before: seq<Slot>, list: seq<nat>, k: nat, slots: seq<Slot>, kept: Link, dropped: Link, freed: nat)
    requires SweepState(before, list, k, slots, End, kept, dropped, freed) && Distinct(list)
    ensures InBounds(before, list) && Swept(before, slots, Elements(list)) && freed == |Dropped(before, list)|
    ensures Linked(slots, kept, Kept(before, list)) && Linked(slots, dropped, Dropped(before, list))
    ensures |Kept(before, list)| + |Dropped(before, list)| == |list| && Distinct(Kept(before, list) + Dropped(before, list))
  {
    assert list[..k] == list;
    SweepSizes(before, list);
  }

  lemma {:induction false} SweptStep(before: seq<Slot>, slots: seq<Slot>, done: set<nat>, x: nat, to: Link)
    requires Swept(before, slots, done) && x < |before| && x !in done
    ensures x < |slots| && slots[x] == before[x]
    ensures Swept(before, slots[x := slots[x].(next := to)], done + {x})
  {
  }

  class Gc {
    var slots: seq<Slot>
    var slabCount: nat
    var used: nat
    var live: Link
    var free: Link
    var roots: seq<Ref>
    var collections: nat
    ghost var liveList: seq<nat>
    ghost var freeList: seq<nat>

    /** The live and the free list are disjoint and acyclic, `used` counts the live slots, and
        no live slot or root refers to a slot of this heap that is not live. */
    ghost predicate Valid()
      reads this
    {
      && |slots| == slabCount * SLAB_SIZE && used == |liveList|
      && Linked(slots, live, liveList) && Linked(slots, free, freeList) && Distinct(liveList + freeList)
      && Owned(slots, Elements(liveList)) && OwnedRefs(roots, Elements(liveList))
    }

    /** Slots on neither list: nothing can allocate them any more. */
    ghost function Lost(): set<nat>
      reads this
    {
      OnNeither(|slots|, liveList, freeList)
    }

    /** Mark a reference and, through its class and its edges, what it leads to. */
    method MarkRef(r: Ref, ghost part: set<nat>)
      requires Closed(slots, part) && (Contains(slots, r) ==> r.slot in part)
      modifies this`slots
      ensures Marking(old(slots), slots, [r])
      decreases |part - Marked(slots)|, 0
    {
      MarkingNone(slots);
      if !Contains(slots, r) || slots[r.slot].marked { return; }
      var i := r.slot;
      slots := slots[i := slots[i].(marked := true)];
      assert part - Marked(slots) == (part - Marked(old(slots))) - {i};
      assert Children(slots[i]) == Children(old(slots)[i]);
      MarkEach(Children(slots[i]), part);
      MarkingSlot(old(slots), slots, i);
    }

    method MarkEach(refs: seq<Ref>, ghost part: set<nat>)
      requires Closed(slots, part) && Within(slots, refs, part)
      modifies this`slots
      ensures Marking(old(slots), slots, refs)
      decreases |part - Marked(slots)|, 1
    {
      MarkingNone(slots);
      var k := 0;
      while k < |refs|
        invariant k <= |refs| && Marking(old(slots), slots, refs[..k])
      {
        ghost var was := slots;
        Fewer(part, Marked(old(slots)), Marked(slots));
        MarkRef(refs[k], part);
        MarkingThen(old(slots), was, slots, refs[..k], [refs[k]]);
        assert refs[..k + 1] == refs[..k] + [refs[k]];
        k := k + 1;
      }
      assert refs[..k] == refs;
    }

    /** A collector with one slab, all of it free. */
    constructor (memory: seq<Slot>)
      requires |memory| == SLAB_SIZE
      ensures Valid() && liveList == [] && roots == [] && Lost() == {} && collections == 0
    {
      var slab := NewSlab(memory, 0);
      slots, slabCount, used := slab, 1, 0;
      live, free, roots, collections := End, To(0), [], 0;
      liveList, freeList := [], Range(0, SLAB_SIZE);
      new;
      assert [] + slab == slab && liveList + freeList == freeList;
      RangeLinked([], slots, slab, freeList);
      RangeMembers(0, SLAB_SIZE);
    }

    method MakeRoot(r: Ref)
      requires Valid() && OwnedRefs([r], Elements(liveList))
      modifies this`roots
      ensures Valid() && roots == old(roots) + [r]
    {
      roots := roots + [r];
    }

    /** The program fills in or changes an object it holds. */
    method Write(x: nat, klass: Ref, edges: seq<Ref>)
      requires Valid() && x in liveList && OwnedRefs([klass] + edges, Elements(liveList))
      modifies this`slots
      ensures Valid() && slots == old(slots)[x := old(slots)[x].(klass := klass, edges := edges)]
    {
      var s := slots[x].(klass := klass, edges := edges);
      LinkedRewrite(slots, x, s, live, liveList);
      LinkedRewrite(slots, x, s, free, freeList);
      slots := slots[x := s];
    }

    method NumLive() returns (n: nat)
      requires Valid()
      ensures n == |liveList|
    {
      n := used;
    }

    /** The heap's size less the live slots: lost slots are counted as free. */
    method NumFree() returns (n: nat)
      requires Valid()
      ensures n == |freeList| + |Lost()|
    {
      CountSlots(|slots|, liveList, freeList, Lost());
      n := slabCount * SLAB_SIZE - used;
    }

    /** Clear the marks of the live slots. */
    method ClearMarks()
      requires Linked(slots, live, liveList) && Distinct(liveList)
      modifies this`slots
      ensures SameGraph(old(slots), slots)
      ensures forall x :: x in liveList ==> !slots[x].marked
    {
      var r := live;
      ghost var k := 0;
      assert liveList[0..] == liveList;
      while r != End
        invariant k <= |liveList| && r == HeadOf(liveList[k..]) && SameGraph(old(slots), slots)
        invariant forall j :: 0 <= j < k ==> !slots[liveList[j]].marked
        decreases |liveList| - k
      {
        LinkedGraph(old(slots), slots, live, liveList);
        assert liveList[k..][0] == liveList[k];
        slots := slots[r.slot := slots[r.slot].(marked := false)];
        r := slots[r.slot].next;
        k := k + 1;
      }
    }

    /** Relink every live slot: the marked ones into a new live list, the others into a list
        that replaces the free list. */
    method Sweep() returns (freed: nat)
      requires Linked(slots, live, liveList) && Distinct(liveList) && used == |liveList|
      modifies this`slots, this`live, this`free, this`used, this`liveList, this`freeList
      ensures Swept(old(slots), slots, Elements(old(liveList)))
      ensures InBounds(old(slots), old(liveList))
      ensures liveList == Kept(old(slots), old(liveList)) && freeList == Dropped(old(slots), old(liveList))
      ensures Linked(slots, live, liveList) && Linked(slots, free, freeList) && Distinct(liveList + freeList)
      ensures used == |liveList| && freed == |freeList|
    {
      hide SweepState, Kept, Dropped, Swept;
      ghost var before, list := slots, liveList;
      var r := live;
      var kept, dropped := End, End;
      freed := 0;
      ghost var k := 0;
      SweepStart(before, list);
      while r != End
        invariant SweepState(before, list, k, slots, r, kept, dropped, freed) && k <= |list| && used == old(used)
        decreases |list| - k
      {
        SweepTurn(before, list, k, slots, r, kept, dropped, freed);
        var x := r.slot;
        var next := slots[x].next;
        if slots[x].marked {
          slots := slots[x := slots[x].(next := kept)];
          kept := r;
        } else {
          slots := slots[x := slots[x].(next := dropped)];
          dropped := r;
          freed := freed + 1;
        }
        r := next;
        k := k + 1;
      }
      SweepEnd(before, list, k, slots, kept, dropped, freed);
      live, free := kept, dropped;
      used := used - freed;
      liveList, freeList := Kept(before, list), Dropped(before, list);
    }

    /** Mark from the roots, from what the current task marks, and from the references found
        on the C stack: exactly the live slots reachable from these are marked. */
    method MarkPhase(taskRefs: seq<Ref>, stack: seq<Ref>)
      requires Linked(slots, live, liveList) && Distinct(liveList) && Owned(slots, Elements(liveList))
      requires OwnedRefs(roots + taskRefs + stack, Elements(liveList))
      modifies this`slots
      ensures SameGraph(old(slots), slots) && InBounds(slots, liveList)
      ensures forall x :: x in liveList ==> (IsMarked(slots, x) <==> Reachable(old(slots), roots + taskRefs + stack, x))
      ensures Owned(slots, Elements(Kept(slots, liveList))) && OwnedRefs(roots + taskRefs + stack, Elements(Kept(slots, liveList)))
    {
      hide Linked, Marking;
      ghost var part, starts := Elements(liveList), roots + taskRefs + stack;
      LinkedBounds(slots, live, liveList);
      ClearMarks();
      ghost var cleared := slots;
      OwnedGraph(old(slots), cleared, part);
      MarkEach(roots, part);
      ghost var rooted := slots;
      OwnedGraph(cleared, rooted, part) by { assert Marking(cleared, rooted, roots); MarkingGraph(cleared, rooted, roots); }
      MarkEach(taskRefs, part);
      MarkingThen(cleared, rooted, slots, roots, taskRefs);
      ghost var tasked := slots;
      OwnedGraph(cleared, tasked, part) by { MarkingGraph(cleared, tasked, roots + taskRefs); }
      MarkEach(stack, part);
      MarkingThen(cleared, tasked, slots, roots + taskRefs, stack);
      MarkingGraph(cleared, slots, starts);
      KeptOwned(cleared, slots, liveList, starts);
      SameReachAll(old(slots), cleared, starts);
    }

    /** A garbage collection. What it frees replaces the free list, so slots that were free
        before an explicit collection are lost; `some` says whether any slot was freed. */
    method Collect(taskRefs: seq<Ref>, stack: seq<Ref>) returns (some: bool)
      requires Valid() && OwnedRefs(taskRefs + stack, Elements(liveList))
      modifies this
      ensures Valid() && roots == old(roots) && slabCount == old(slabCount) && collections == old(collections) + 1
      ensures SameObjects(old(slots), slots) && some == (freeList != [])
      ensures forall x :: x in liveList <==> x in old(liveList) && Reachable(old(slots), old(roots) + taskRefs + stack, x)
      ensures forall x :: x in freeList <==> x in old(liveList) && !Reachable(old(slots), old(roots) + taskRefs + stack, x)
      ensures Lost() == old(Lost()) + Elements(old(freeList))
    {
      hide Owned, OwnedRefs, Swept, SameGraph, SameObjects, Linked, Kept, Dropped, Reachable, Distinct;
      ghost var before, lived, starts := slots, liveList, roots + taskRefs + stack;
      collections := collections + 1;
      SplitDistinct(liveList, freeList);
      LinkedBounds(slots, free, freeList);
      LinkedBounds(slots, live, liveList);
      OwnedTogether(roots, taskRefs + stack, Elements(liveList));
      assert roots + (taskRefs + stack) == starts;
      MarkPhase(taskRefs, stack);
      ghost var marked := slots;
      LinkedGraph(before, marked, live, liveList);
      OwnedApart(roots, taskRefs + stack, Elements(Kept(marked, liveList)));
      var freed := Sweep();
      some := freed > 0;
      SweptObjects(before, marked, slots, Elements(lived));
      OwnedObjects(marked, slots, Elements(liveList));
    }

    /** Take over fresh memory for one more slab and chain its slots. */
    method Grow(memory: seq<Slot>)
      requires Valid() && freeList == [] && |memory| == SLAB_SIZE
      modifies this`slots, this`slabCount, this`free, this`freeList
      ensures Valid() && slabCount == old(slabCount) + 1 && freeList != [] && Lost() == old(Lost())
      ensures |old(slots)| <= |slots| && slots[..|old(slots)|] == old(slots)
      ensures forall x :: x in freeList ==> x >= old(|slots|)
    {
      var base := |slots|;
      assert forall x :: x in liveList ==> x < base;
      hide Owned, Linked, OwnedRefs;
      var slab := NewSlab(memory, base);
      GrownLists(liveList, base, SLAB_SIZE);
      LinkedMore(slots, slots + slab, live, liveList);
      slots := slots + slab;
      slabCount := slabCount + 1;
      free := To(base);
      freeList := Range(base, SLAB_SIZE);
      RangeLinked(old(slots), slots, slab, freeList);
      OwnedMore(old(slots), slots, Elements(liveList));
    }

    /** Make sure there is a free slot: collect if there is none, and grow the heap if the
        collection finds none. `memory` is what the new slab would hold. */
    method Refill(memory: seq<Slot>, taskRefs: seq<Ref>, stack: seq<Ref>)
      requires Valid() && OwnedRefs(taskRefs + stack, Elements(liveList)) && |memory| == SLAB_SIZE
      modifies this
      ensures Valid() && roots == old(roots) && Lost() == old(Lost()) && freeList != []
      ensures forall x :: x in freeList ==> !Reachable(old(slots), old(roots) + taskRefs + stack, x)
      ensures forall i :: i in liveList ==> i in old(liveList)
      ensures forall i :: i in old(liveList) && Reachable(old(slots), old(roots) + taskRefs + stack, i) ==> i in liveList
      ensures |old(slots)| <= |slots| && SameObjects(old(slots), slots[..|old(slots)|])
      ensures old(freeList) != [] ==> slots == old(slots) && liveList == old(liveList) && freeList == old(freeList) && collections == old(collections)
    {
      hide Owned;
      ghost var starts, n := roots + taskRefs + stack, |slots|;
      if free == End {
        var some := Collect(taskRefs, stack);
        if !some {
          Grow(memory);
          BeyondUnreachable(old(slots), starts);
        }
      } else {
        FreeUnreachable(slots, starts, liveList, freeList);
      }
      assert slots[..n] == if |slots| == n then slots else slots[..n];
    }

    /** Allocate a slot: the head of the free list, cleared. No slot that can still be reached
        is handed out, and every object that can be reached keeps its contents. */
    method NewObject(memory: seq<Slot>, taskRefs: seq<Ref>, stack: seq<Ref>) returns (x: nat)
      requires Valid() && OwnedRefs(taskRefs + stack, Elements(liveList)) && |memory| == SLAB_SIZE
      modifies this
      ensures Valid() && roots == old(roots) && Lost() == old(Lost())
      ensures liveList != [] && liveList[0] == x && x < |slots| && slots[x] == Slot(false, HeadOf(liveList[1..]), Null, [])
      ensures !Reachable(old(slots), old(roots) + taskRefs + stack, x)
      ensures forall i :: i in old(liveList) && Reachable(old(slots), old(roots) + taskRefs + stack, i) ==>
                i in liveList && i < |old(slots)| && i < |slots| && slots[i].klass == old(slots)[i].klass && slots[i].edges == old(slots)[i].edges
      ensures forall i :: i in liveList && i != x ==> i in old(liveList)
      ensures old(freeList) != [] ==> x == old(freeList[0]) && liveList == [x] + old(liveList) && freeList == old(freeList[1..]) && collections == old(collections)
    {
      hide Owned, Linked;
      ghost var starts := roots + taskRefs + stack;
      Refill(memory, taskRefs, stack);
      ghost var refilled, n := slots, |old(slots)|;
      x := TakeFree();
      forall i | i in old(liveList) && Reachable(old(slots), starts, i)
        ensures i in liveList && i < n && slots[i].klass == old(slots)[i].klass && slots[i].edges == old(slots)[i].edges
      {
        ReachableBound(old(slots), starts, i);
        assert refilled[..n][i] == refilled[i] && i != x;
      }
    }

    /** Move the head of the free list to the live list, cleared. */
    method TakeFree() returns (x: nat)
      requires Valid() && freeList != []
      modifies this`slots, this`live, this`free, this`used, this`liveList, this`freeList
      ensures Valid() && Lost() == old(Lost()) && x == old(freeList[0])
      ensures liveList == [x] + old(liveList) && freeList == old(freeList[1..])
      ensures x < |old(slots)| && slots == old(slots)[x := Slot(false, HeadOf(liveList[1..]), Null, [])]
      ensures roots == old(roots)
    {
      hide Owned, OnNeither, Linked;
      ghost var list, rest := liveList, freeList[1..];
      LinkedHead(slots, live, list);
      LinkedHead(slots, free, freeList);
      x := free.slot;
      TakeLists(slots, list, freeList);
      OwnedTaken(slots, x, live, Elements(list));
      free := slots[x].next;
      TakenLinks(slots, x, live, list, free, rest);
      slots := slots[x := Slot(false, live, Null, [])];
      live := To(x);
      used := used + 1;
      liveList, freeList := [x] + list, rest;
      TakenMembers(|slots|, list, x, rest);
      assert liveList[1..] == list && old(freeList) == [x] + rest;
    }
  }

  /** The sweep's view of the next slot of the live list. */
  lemma {:induction false} SweepStep(before: seq<Slot>, list: seq<nat>, k: nat)
    requires Linked(before, HeadOf(list), list) && Distinct(list) && k < |list|
    ensures list[k] < |before| && list[k] !in list[..k] && list[k..][0] == list[k]
    ensures before[list[k]].next == HeadOf(list[k + 1..])
    ensures Elements(list[..k + 1]) == Elements(list[..k]) + {list[k]}
    ensures InBounds(before, list[..k]) && InBounds(before, list[..k + 1])
    ensures Kept(before, list[..k + 1]) == if before[list[k]].marked then [list[k]] + Kept(before, list[..k]) else Kept(before, list[..k])
    ensures Dropped(before, list[..k + 1]) == if before[list[k]].marked then Dropped(before, list[..k]) else [list[k]] + Dropped(before, list[..k])
  {
    var longer := list[..k + 1];
    assert longer == list[..k] + [list[k]];
    assert longer[..|longer| - 1] == list[..k] && longer[|longer| - 1] == list[k];
  }

  lemma {:induction false} Fewer(part: set<nat>, a: set<nat>, b: set<nat>)
    requires a <= b
    ensures |part - b| <= |part - a|
  {
    Subset(part - b, part - a);
  }

  lemma {:induction false} Subset(a: set<nat>, b: set<nat>)
    requires a <= b
    ensures |a| <= |b|
    decreases a
  {
    if a != {} {
      var x :| x in a;
      Subset(a - {x}, b - {x});
    }
  }
}
