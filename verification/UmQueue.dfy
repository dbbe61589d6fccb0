/**
 The queue of um_sync.c in the source's own form: a doubly linked list of entries recycled through a free
 list, with a count, a futex word and a number of waiters. Removing from one end leaves the link of the entry
 that is now last at that end pointing at the removed one. The links between entries stay right; the outer ones
 may be stale, and taking the only entry from one end follows its outer link at the other; so do the walks over
 all entries that mark, compact and free the queue.
 */
module UmQueue {
  import P = QueueProtocol

  class Entry {
    var prev: Entry?
    var next: Entry?
    var value: int
    ghost var inUse: bool

    constructor ()
      ensures !inUse
    {
      prev, next, value, inUse := null, null, 0, false;
    }
  }

  ghost function Values(list: seq<Entry>): (values: seq<int>)
    reads list
    ensures |values| == |list|
    ensures forall k :: 0 <= k < |list| ==> values[k] == list[k].value
  {
    if list == [] then [] else [list[0].value] + Values(list[1..])
  }

  lemma ValuesTail(list: seq<Entry>)
    requires list != []
    ensures Values(list) == [list[0].value] + Values(list[1..])
  {
  }

  lemma {:induction false} ValuesFront(list: seq<Entry>)
    requires list != []
    ensures Values(list) == Values(list[..|list| - 1]) + [list[|list| - 1].value]
  {
    if |list| > 1 {
      var rest := list[1..];
      ValuesFront(rest);
      assert rest[..|rest| - 1] == list[..|list| - 1][1..];
    }
  }

  class Queue {
    var head: Entry?
    var tail: Entry?
    var freeHead: Entry?
    var state: P.Word
    var count: int
    var numWaiters: int
    ghost var entries: seq<Entry>
    ghost var free: seq<Entry>

    ghost predicate Ends()
      reads `head, `tail, `entries, entries
    {
      && head == (if entries == [] then null else entries[0])
      && tail == (if entries == [] then null else entries[|entries| - 1])
      && (forall j, k :: 0 <= j < k < |entries| ==> entries[j] != entries[k])
      && (forall k :: 0 <= k < |entries| ==> entries[k].inUse)
    }

    ghost predicate FreeList()
      reads `freeHead, `free, free
    {
      && freeHead == (if free == [] then null else free[0])
      && (forall j, k :: 0 <= j < k < |free| ==> free[j] != free[k])
      && (forall k :: 0 <= k < |free| ==> !free[k].inUse)
      && (forall k :: 0 <= k < |free| - 1 ==> free[k].next == free[k + 1])
      && (free != [] ==> free[|free| - 1].next == null)
    }

    /** Neighbours are linked in both directions. */
    ghost predicate Linked()
      reads `entries, entries
    {
      forall k :: 0 <= k < |entries| - 1 ==> entries[k].next == entries[k + 1] && entries[k + 1].prev == entries[k]
    }

    /** The outer link at the front leads nowhere. */
    ghost predicate FrontFresh()
      reads `entries, entries
    {
      entries != [] ==> entries[0].prev == null
    }

    ghost predicate BackFresh()
      reads `entries, entries
    {
      entries != [] ==> entries[|entries| - 1].next == null
    }

    ghost predicate Valid()
      reads `head, `tail, `entries, `freeHead, `free, entries, free
    {
      Ends() && FreeList() && Linked()
    }

    /** What holds whenever no queue operation is in the middle of its work. */
    ghost predicate Settled()
      reads this, entries, free
    {
      Valid() && count == |entries| && (state == P.Ready <==> entries != [])
    }

    ghost function Contents(): (values: seq<int>)
      reads `entries, entries
    {
      Values(entries)
    }

    /** The abstract queue: its values, and which of its outer links are stale. */
    ghost function View(): Spec
      reads `entries, entries
    {
      Spec(Contents(), !FrontFresh(), !BackFresh())
    }

    constructor ()
      ensures Settled() && entries == [] && free == [] && numWaiters == 0 && View() == Spec([], false, false)
    {
      head, tail, freeHead, state, count, numWaiters := null, null, null, P.Empty, 0, 0;
      entries, free := [], [];
    }

    /** `um_queue_entry_checkout`. */
    method Checkout() returns (entry: Entry)
      requires FreeList()
      modifies `freeHead, `free
      ensures FreeList() && !entry.inUse
      ensures old(freeHead) != null ==> entry == old(freeHead)
      ensures entry !in free && (fresh(entry) || entry in old(free))
      ensures forall e | e in free :: e in old(free)
    {
      if freeHead != null {
        entry := freeHead;
        freeHead := entry.next;
        free := free[1..];
      } else {
        entry := new Entry();
      }
    }

    /** `um_queue_entry_checkin`. */
    method Checkin(entry: Entry)
      requires FreeList() && entry !in entries && entry !in free
      modifies `freeHead, `free, entry`next, entry`inUse
      ensures FreeList() && free == [entry] + old(free) && !entry.inUse
      ensures Ends() == old(Ends()) && Linked() == old(Linked()) && View() == old(View())
    {
      hide Values;
      entry.next := freeHead;
      freeHead := entry;
      entry.inUse := false;
      free := [entry] + free;
    }

    /** `queue_add_head`, once it has an entry. */
    method LinkHead(entry: Entry, value: int)
      requires Ends() && Linked() && !entry.inUse
      modifies `head, `tail, `entries, entry, entries`prev
      ensures Ends() && Linked() && |entries| == |old(entries)| + 1 && Contents() == [value] + old(Contents())
      ensures FrontFresh() && (BackFresh() <==> old(BackFresh()))
      ensures forall e | e in entries :: e == entry || e in old(entries)
      ensures head == entry && (old(tail) != null ==> tail == old(tail) && tail.next == old(tail.next))
    {
      hide Values;
      entry.next := head;
      if head != null {
        head.prev := entry;
        head := entry;
      } else {
        head := entry;
        tail := entry;
      }
      entry.prev := null;
      entry.value := value;
      entry.inUse := true;
      entries := [entry] + entries;
    }

    /** `queue_add_tail`, once it has an entry. */
    method LinkTail(entry: Entry, value: int)
      requires Ends() && Linked() && !entry.inUse
      modifies `head, `tail, `entries, entry, entries`next
      ensures Ends() && Linked() && |entries| == |old(entries)| + 1 && Contents() == old(Contents()) + [value]
      ensures BackFresh() && (FrontFresh() <==> old(FrontFresh()))
      ensures forall e | e in entries :: e == entry || e in old(entries)
    {
      hide Values;
      entry.prev := tail;
      if tail != null {
        tail.next := entry;
        tail := entry;
      } else {
        head := entry;
        tail := entry;
      }
      entry.next := null;
      entry.value := value;
      entry.inUse := true;
      entries := entries + [entry];
    }

    /** `queue_remove_head`, before the entry is checked in. The new head keeps its link to the removed entry. The
        ends are right unless this was the only entry and its link at the back was stale. */
    method UnlinkHead() returns (entry: Entry)
      requires Ends() && Linked() && entries != []
      modifies `head, `tail, `entries
      ensures Ends() <==> |old(entries)| > 1 || old(BackFresh())
      ensures Linked() && entry == old(entries)[0] && entries == old(entries)[1..]
      ensures entry in old(entries) && entry !in entries && forall e | e in entries :: e in old(entries)
      ensures old(Contents()) == [entry.value] + Contents()
      ensures (FrontFresh() <==> entries == []) && (BackFresh() <==> entries == [] || old(BackFresh()))
    {
      hide Values;
      ValuesTail(entries);
      RestLinked();
      entry := head;
      head := entry.next;
      if head == null { tail := null; }
      entries := entries[1..];
    }

    lemma RestLinked()
      requires Ends() && Linked() && entries != []
      ensures var rest := entries[1..];
        && entries[0] !in rest && (forall e | e in rest :: e in entries)
        && (forall j, k :: 0 <= j < k < |rest| ==> rest[j] != rest[k])
        && (forall k :: 0 <= k < |rest| ==> rest[k].inUse)
        && (forall k :: 0 <= k < |rest| - 1 ==> rest[k].next == rest[k + 1] && rest[k + 1].prev == rest[k])
        && (rest != [] ==> head.next == rest[0] && rest[0].prev == head && rest[|rest| - 1] == entries[|entries| - 1])
    {
    }

    /** `queue_remove_tail`, before the entry is checked in. */
    method UnlinkTail() returns (entry: Entry)
      requires Ends() && Linked() && entries != []
      modifies `head, `tail, `entries
      ensures Ends() <==> |old(entries)| > 1 || old(FrontFresh())
      ensures Linked() && entry == old(entries)[|old(entries)| - 1]
      ensures entries == old(entries)[..|old(entries)| - 1]
      ensures |entries| > 0 ==> tail != null && tail.next == entry
      ensures old(Contents()) == Contents() + [entry.value]
      ensures (BackFresh() <==> entries == []) && (FrontFresh() <==> entries == [] || old(FrontFresh()))
    {
      hide Values;
      ValuesFront(entries);
      entry := tail;
      tail := entry.prev;
      if tail == null { head := null; }
      entries := entries[..|entries| - 1];
    }

    ghost function Footprint(): set<Entry>
      reads `entries, `free
    {
      (set e | e in entries) + (set e | e in free)
    }

    /** The shared part of a protocol state. */
    ghost predicate Agrees(q: P.Queue)
      reads this, entries
    {
      q.word == state && q.items == Contents() && q.count == count && q.numWaiters == numWaiters
    }

    /** `queue_add_head`. */
    method AddHead(value: int)
      requires Valid()
      modifies `head, `tail, `entries, `freeHead, `free, Footprint()
      ensures Valid() && |entries| == |old(entries)| + 1
      ensures View() == SpecCall(old(View()), Unshift(value)).0
      ensures fresh(Footprint() - old(Footprint()))
      ensures old(freeHead) != null ==> head == old(freeHead)
      ensures old(tail) != null ==> tail == old(tail) && tail.next == old(tail.next)
    {
      Apart();
      hide Ends, FreeList, Linked, FrontFresh, BackFresh, Values, SpecCall;
      EmptyIsFresh();
      AdditionIs(View(), value);
      var entry := Checkout();
      LinkHead(entry, value);
    }

    /** `queue_add_tail`. */
    method AddTail(value: int)
      requires Valid()
      modifies `head, `tail, `entries, `freeHead, `free, Footprint()
      ensures Valid() && |entries| == |old(entries)| + 1
      ensures View() == SpecCall(old(View()), Push(value)).0
      ensures fresh(Footprint() - old(Footprint()))
    {
      Apart();
      hide Ends, FreeList, Linked, FrontFresh, BackFresh, Values, SpecCall;
      EmptyIsFresh();
      AdditionIs(View(), value);
      var entry := Checkout();
      LinkTail(entry, value);
    }

    /** No entry is in use and free. */
    lemma Apart()
      requires Valid()
      ensures forall e | e in entries :: e !in free
    {
    }

    lemma EmptyIsFresh()
      ensures entries == [] ==> FrontFresh() && BackFresh()
      ensures |Contents()| == |entries|
    {
    }

    /** `queue_remove_head`. */
    method RemoveHead() returns (value: int)
      requires Valid() && entries != []
      modifies `head, `tail, `entries, `freeHead, `free, Footprint()
      ensures Valid() <==> Good(old(View()), Shift)
      ensures FreeList() && |entries| == |old(entries)| - 1 && (View(), [value]) == SpecCall(old(View()), Shift)
      ensures Footprint() <= old(Footprint())
    {
      Apart();
      hide Ends, FreeList, Linked, FrontFresh, BackFresh, Values, SpecCall, Good;
      ghost var before := View();
      var entry := UnlinkHead();
      value := entry.value;
      FreeEntry(entry);
      ShiftIs(before, value, Contents());
    }

    /** An entry that has been unlinked goes to the free list. */
    method FreeEntry(entry: Entry)
      requires FreeList() && Linked() && entry !in entries && entry !in free
      modifies `freeHead, `free, entry`next, entry`inUse
      ensures FreeList() && free == [entry] + old(free)
      ensures Valid() <==> old(Ends())
      ensures View() == old(View()) && |Contents()| == |entries|
      ensures forall e | e in free :: e == entry || e in old(free)
    {
      hide Ends, FreeList, Linked, FrontFresh, BackFresh, Values;
      Checkin(entry);
      EmptyIsFresh();
    }

    /** `queue_remove_tail`. */
    method RemoveTail() returns (value: int)
      requires Valid() && entries != []
      modifies `head, `tail, `entries, `freeHead, `free, Footprint()
      ensures Valid() <==> Good(old(View()), Pop)
      ensures FreeList() && |entries| == |old(entries)| - 1 && (View(), [value]) == SpecCall(old(View()), Pop)
      ensures freeHead == old(tail) && (|entries| > 0 ==> tail != null && tail.next == old(tail))
      ensures Footprint() <= old(Footprint())
    {
      Apart();
      hide Ends, FreeList, Linked, FrontFresh, BackFresh, Values, SpecCall, Good;
      ghost var before := View();
      var entry := UnlinkTail();
      value := entry.value;
      FreeEntry(entry);
      PopIs(before, value, Contents());
    }

    /** The walk of `um_queue_mark`, `um_queue_compact` and `um_queue_free`, cut off after `limit` entries. It visits
        each entry once and ends if and only if the link at the back is not stale; otherwise it follows that link.
        If the removed entry has come to be the first again, it never ends. */
    method Walk(limit: nat) returns (visited: seq<Entry>, ended: bool)
      requires Valid()
      ensures |visited| <= limit && (!ended ==> |visited| == limit)
      ensures |entries| < limit ==> (ended && visited == entries <==> BackFresh())
      ensures |entries| < limit && !BackFresh() ==> entries + [tail.next] <= visited
      ensures Cyclic() ==> !ended
    {
      hide FreeList, Values;
      var entry := head;
      visited := [];
      while entry != null && |visited| < limit
        invariant |visited| <= limit
        invariant |visited| < |entries| ==> entry == entries[|visited|]
        invariant |visited| <= |entries| ==> visited == entries[..|visited|]
        invariant |visited| == |entries| ==> entry == if entries == [] then null else tail.next
        invariant |visited| > |entries| ==> !BackFresh() && entries + [tail.next] <= visited
        invariant Cyclic() ==> entry == entries[|visited| % |entries|]
        decreases limit - |visited|
      {
        if Cyclic() { NextInCycle(|visited|); }
        visited := visited + [entry];
        entry := entry.next;
      }
      ended := entry == null;
    }

    ghost predicate Cyclic()
      reads `head, `tail, tail
    {
      tail != null && head != null && tail.next == head
    }

    lemma NextInCycle(n: nat)
      requires Cyclic() && Linked() && Ends()
      ensures entries[n % |entries|].next == entries[(n + 1) % |entries|]
    {
      NextRemainder(n, |entries|);
    }

    /** A pop and then an unshift, on two entries or more: the unshift takes the popped entry from the free list and
        puts it in front, and the one that is last by then still links to it. */
    method PopThenUnshift(value: int) returns (popped: int)
      requires Valid() && |entries| > 1
      modifies this, Footprint()
      ensures Valid() && Cyclic()
      ensures Contents() + [popped] == [value] + old(Contents())
    {
      hide Ends, FreeList, Linked, FrontFresh, BackFresh, Values, Footprint;
      TailIsLast();
      EmptyIsFresh();
      popped := RemoveTail();
      ghost var left := Contents();
      AddHead(value);
      assert ([value] + left) + [popped] == [value] + (left + [popped]);
    }

    /** `um_queue_add`; `wake` tells whether it issues a wake. */
    method Add(value: int, atHead: bool, ghost q: P.Queue) returns (wake: bool)
      requires Settled() && Agrees(q)
      modifies this, entries, free
      ensures Settled() && Agrees(P.Add(q, value, atHead))
      ensures View() == SpecCall(old(View()), if atHead then Unshift(value) else Push(value)).0
      ensures wake <==> P.Add(q, value, atHead).wakes == q.wakes + 1
      ensures fresh(Footprint() - old(Footprint()))
    {
      hide Ends, FreeList, Linked, FrontFresh, BackFresh, Values;
      if atHead { AddHead(value); } else { AddTail(value); }
      count := count + 1;
      state := P.Ready;
      wake := numWaiters != 0;
    }

    /** The end of `um_queue_remove_start` once the word is READY, and `um_queue_remove_complete`. The queue is
        left sound if and only if this was not the only entry, or its link at the other end was not stale. */
    method Take(popping: bool, ghost q: P.Queue, ghost f: nat) returns (value: int, wake: bool)
      requires Settled() && Agrees(q) && state == P.Ready
      requires q.popping == popping && f < |q.consumers|
      modifies this, entries, free
      ensures Settled() <==> Good(old(View()), Removal(popping))
      ensures (View(), [value]) == SpecCall(old(View()), Removal(popping))
      ensures Settled() ==> Agrees(P.TryTake(q, f)) && (wake <==> P.TryTake(q, f).wakes == q.wakes + 1)
      ensures numWaiters == old(numWaiters) - 1
      ensures Footprint() <= old(Footprint())
    {
      hide FreeList, Linked, FrontFresh, BackFresh, Values, Ends;
      EmptyIsFresh();
      count := count - 1;
      if popping { value := RemoveTail(); } else { value := RemoveHead(); }
      EmptyIsFresh();
      TailIsLast();
      wake := Complete();
    }

    lemma TailIsLast()
      ensures Ends() ==> (tail == null <==> entries == [])
    {
    }

    /** `um_queue_remove_complete`. */
    method Complete() returns (wake: bool)
      modifies `state, `numWaiters
      ensures numWaiters == old(numWaiters) - 1
      ensures wake <==> numWaiters != 0 && tail != null
      ensures state == if tail == null then P.Empty else old(state)
    {
      numWaiters := numWaiters - 1;
      wake := false;
      if numWaiters != 0 && tail != null {
        wake := true;
      } else if tail == null {
        state := P.Empty;
      }
    }

    /** `um_queue_pop` or `um_queue_shift` from its start to its first wait, or to its end. */
    method BeginRemove(popping: bool, ghost q: P.Queue, ghost f: nat) returns (taken: bool, value: int)
      requires Settled() && Agrees(q) && P.Inv(q) && P.Enabled(q, P.Begin(f)) && q.popping == popping
      requires state == P.Ready ==> Good(View(), Removal(popping))
      modifies this, entries, free
      ensures Settled() && Agrees(P.Apply(q, P.Begin(f)))
      ensures taken <==> old(state) == P.Ready
    {
      hide Ends, FreeList, Linked, FrontFresh, BackFresh, Values;
      ghost var c := P.Waiting(P.Done, P.NotInterrupted);
      numWaiters := numWaiters + 1;
      taken, value := state == P.Ready, 0;
      if taken {
        var wake;
        value, wake := Take(popping, q.(numWaiters := q.numWaiters + 1, consumers := q.consumers[f := c]), f);
      }
    }

    /** The same from the end of a wait, which may raise, to the next wait or to its end. */
    method ResumeRemove(popping: bool, raised: bool, ghost q: P.Queue, ghost f: nat) returns (taken: bool, value: int)
      requires Settled() && Agrees(q) && P.Inv(q) && P.Enabled(q, P.Resume(f)) && q.popping == popping
      requires raised == (q.consumers[f].interrupt == P.Raised)
      requires state == P.Ready && !raised ==> Good(View(), Removal(popping))
      modifies this, entries, free
      ensures Settled() && Agrees(P.Apply(q, P.Resume(f)))
      ensures taken <==> old(state) == P.Ready && !raised
    {
      hide Ends, FreeList, Linked, FrontFresh, BackFresh, Values;
      taken, value := state == P.Ready && !raised, 0;
      var wake;
      if raised {
        TailIsLast();
        EmptyIsFresh();
        wake := Complete();
      } else if taken {
        value, wake := Take(popping, q, f);
      }
    }
  }

  lemma NextRemainder(n: nat, size: nat)
    requires size > 0
    ensures (n + 1) % size == if n % size == size - 1 then 0 else n % size + 1
  {
    var q, r := n / size, n % size;
    assert n == q * size + r;
    if r == size - 1 { Remainder(n + 1, q + 1, 0, size); } else { Remainder(n + 1, q, r + 1, size); }
  }

  lemma Remainder(n: nat, q: nat, r: nat, size: nat)
    requires r < size && n == q * size + r
    ensures n % size == r
  {
    var d: int := n / size - q;
    assert n == (n / size) * size + n % size;
    assert d * size == (n / size) * size - q * size;
    MultipleAtLeast(d, size);
  }

  lemma MultipleAtLeast(d: int, size: int)
    requires size > 0
    ensures d >= 1 ==> d * size >= size
    ensures d <= -1 ==> d * size <= -size
  {
  }

  // ----- Calls on the abstract queue

  datatype Call = Push(value: int) | Unshift(value: int) | Pop | Shift

  function Removal(popping: bool): Call {
    if popping then Pop else Shift
  }

  /** The values, and whether the outer link of the first and of the last entry is stale. */
  datatype Spec = Spec(contents: seq<int>, frontStale: bool, backStale: bool)

  /** What one call does, and what it hands out. A removal from an empty queue has to wait. */
  function SpecCall(s: Spec, call: Call): (Spec, seq<int>) {
    var n := |s.contents|;
    match call
    case Push(v) => (Spec(s.contents + [v], s.frontStale && n > 0, false), [])
    case Unshift(v) => (Spec([v] + s.contents, false, s.backStale && n > 0), [])
    case Pop =>
      if n == 0 then (s, []) else (Spec(s.contents[..n - 1], s.frontStale && n > 1, n > 1), [s.contents[n - 1]])
    case Shift =>
      if n == 0 then (s, []) else (Spec(s.contents[1..], n > 1, s.backStale && n > 1), [s.contents[0]])
  }

  /** The call does not take the only entry from the one end while its link at the other is stale. */
  predicate Good(s: Spec, call: Call) {
    |s.contents| == 1 ==> !(call == Shift && s.backStale) && !(call == Pop && s.frontStale)
  }

  /** A queue at each of its ends: what is pushed is popped, what is unshifted is shifted, and what is pushed onto or
      unshifted in front of others leaves those where they are. */
  lemma EndsAreOpposite(s: Spec, v: int)
    ensures SpecCall(SpecCall(s, Push(v)).0, Pop).1 == [v] && SpecCall(SpecCall(s, Unshift(v)).0, Shift).1 == [v]
    ensures SpecCall(SpecCall(s, Push(v)).0, Pop).0.contents == s.contents
    ensures SpecCall(SpecCall(s, Unshift(v)).0, Shift).0.contents == s.contents
    ensures s.contents != [] ==>
      && SpecCall(SpecCall(s, Push(v)).0, Shift).1 == SpecCall(s, Shift).1
      && SpecCall(SpecCall(s, Unshift(v)).0, Pop).1 == SpecCall(s, Pop).1
    ensures s.contents == [] ==> SpecCall(s, Pop) == (s, []) && SpecCall(s, Shift) == (s, [])
  {
  }

  lemma AdditionIs(s: Spec, value: int)
    ensures SpecCall(s, Push(value)).0 == Spec(s.contents + [value], s.frontStale && s.contents != [], false)
    ensures SpecCall(s, Unshift(value)).0 == Spec([value] + s.contents, false, s.backStale && s.contents != [])
  {
  }

  lemma ShiftIs(s: Spec, value: int, rest: seq<int>)
    requires s.contents == [value] + rest
    ensures SpecCall(s, Shift) == (Spec(rest, rest != [], s.backStale && rest != []), [value])
    ensures Good(s, Shift) <==> rest != [] || !s.backStale
  {
  }

  lemma PopIs(s: Spec, value: int, front: seq<int>)
    requires s.contents == front + [value]
    ensures SpecCall(s, Pop) == (Spec(front, s.frontStale && front != [], front != []), [value])
    ensures Good(s, Pop) <==> front != [] || !s.frontStale
  {
  }

  function SpecRun(s: Spec, calls: seq<Call>): (Spec, seq<int>)
    decreases |calls|
  {
    if calls == [] then (s, [])
    else
      var (s', out) := SpecCall(s, calls[0]);
      var (end, outs) := SpecRun(s', calls[1..]);
      (end, out + outs)
  }

  predicate GoodRun(s: Spec, calls: seq<Call>)
    decreases |calls|
  {
    calls == [] || (Good(s, calls[0]) && GoodRun(SpecCall(s, calls[0]).0, calls[1..]))
  }

  /** One call. The queue is sound afterwards if and only if the call was good. */
  method DoCall(queue: Queue, call: Call) returns (out: seq<int>)
    requires queue.Settled()
    modifies queue, queue.Footprint()
    ensures queue.Settled() <==> Good(old(queue.View()), call)
    ensures (queue.View(), out) == SpecCall(old(queue.View()), call)
    ensures queue.numWaiters == old(queue.numWaiters)
    ensures fresh(queue.Footprint() - old(queue.Footprint()))
  {
    hide Queue.Ends, Queue.FreeList, Queue.Linked, Queue.FrontFresh, Queue.BackFresh, Values;
    queue.EmptyIsFresh();
    ghost var q := P.Queue(queue.state, queue.Contents(), queue.count, queue.numWaiters, 0, [P.Idle], call == Pop,
                           [], []);
    out := [];
    match call {
      case Push(v) => var wake := queue.Add(v, false, q);
      case Unshift(v) => var wake := queue.Add(v, true, q);
      case _ => out := DoRemoval(queue, call == Pop, q);
    }
  }

  method DoRemoval(queue: Queue, popping: bool, ghost q: P.Queue) returns (out: seq<int>)
    requires queue.Settled() && queue.Agrees(q) && q.popping == popping && |q.consumers| == 1
    modifies queue, queue.Footprint()
    ensures queue.Settled() <==> Good(old(queue.View()), Removal(popping))
    ensures (queue.View(), out) == SpecCall(old(queue.View()), Removal(popping))
    ensures queue.numWaiters == old(queue.numWaiters)
    ensures queue.Footprint() <= old(queue.Footprint())
  {
    hide Queue.Ends, Queue.FreeList, Queue.Linked, Queue.FrontFresh, Queue.BackFresh, Values;
    queue.EmptyIsFresh();
    out := [];
    if queue.state == P.Ready {
      queue.numWaiters := queue.numWaiters + 1;
      var v, wake := queue.Take(popping, q.(numWaiters := q.numWaiters + 1), 0);
      out := [v];
    }
  }

  /** Any run of good calls behaves as on a sequence. */
  method DoCalls(queue: Queue, calls: seq<Call>) returns (outputs: seq<int>)
    requires queue.Settled() && GoodRun(queue.View(), calls)
    modifies queue, queue.Footprint()
    ensures queue.Settled() && (queue.View(), outputs) == SpecRun(old(queue.View()), calls)
    ensures queue.numWaiters == old(queue.numWaiters)
  {
    hide Queue.Settled, Queue.View, SpecCall, Good;
    outputs := [];
    ghost var start := queue.View();
    assert calls[0..] == calls && outputs + SpecRun(start, calls).1 == SpecRun(start, calls).1;
    for i := 0 to |calls|
      invariant queue.Settled() && GoodRun(queue.View(), calls[i..]) && queue.numWaiters == old(queue.numWaiters)
      invariant fresh(queue.Footprint() - old(queue.Footprint()))
      invariant var (end, outs) := SpecRun(queue.View(), calls[i..]); SpecRun(start, calls) == (end, outputs + outs)
    {
      assert calls[i..][0] == calls[i] && calls[i..][1..] == calls[i + 1..];
      var out := DoCall(queue, calls[i]);
      ghost var outs := SpecRun(queue.View(), calls[i + 1..]).1;
      assert outputs + (out + outs) == (outputs + out) + outs;
      outputs := outputs + out;
    }
    assert outputs + [] == outputs;
  }

  /** Use of one end for removals is always good: a link can be stale only at the end that is removed from. The link
      at the back, which walks follow, stays good if removals are shifts. */
  lemma {:induction false} OneEndedIsGood(s: Spec, calls: seq<Call>, popping: bool)
    requires if popping then !s.frontStale else !s.backStale
    requires forall k :: 0 <= k < |calls| ==> calls[k] != Removal(!popping)
    ensures GoodRun(s, calls) && (!popping ==> !SpecRun(s, calls).0.backStale)
    decreases |calls|
  {
    if calls != [] { OneEndedIsGood(SpecCall(s, calls[0]).0, calls[1..], popping); }
  }

  /** The shortest use of both ends that goes wrong: two pushes, a pop and a shift. Another push in between, or
      another pop in place of the shift, makes it good again. */
  lemma PopThenShift(a: int, b: int)
    ensures var s := SpecRun(Spec([], false, false), [Push(a), Push(b), Pop]).0;
      && s == Spec([a], false, true)
      && !Good(s, Shift) && Good(s, Pop) && forall c :: Good(SpecCall(s, Push(c)).0, Shift)
  {
    var s0 := Spec([], false, false);
    var s1, s2 := Spec([a], false, false), Spec([a, b], false, false);
    assert [] + [a] == [a] && [a] + [b] == [a, b] && [a, b][..1] == [a];
    assert SpecCall(s0, Push(a)) == (s1, []) && SpecCall(s1, Push(b)) == (s2, []);
    var s3 := Spec([a], false, true);
    assert SpecCall(s2, Pop) == (s3, [b]);
    var calls := [Push(a), Push(b), Pop];
    assert calls[1..] == [Push(b), Pop] && calls[1..][1..] == [Pop] && calls[1..][1..][1..] == [];
    assert SpecRun(s2, calls[1..][1..]).0 == SpecRun(s3, []).0;
    assert SpecRun(s1, calls[1..]).0 == s3;
  }
}
