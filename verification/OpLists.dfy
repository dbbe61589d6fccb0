/**
 The three lists of um_op.c in the source's own form: op records threaded by one shared `next` pointer
 through the runqueue (FIFO), the transient list (doubly linked, removal anywhere) and the freelist (LIFO).
 A record's `link` says which list threads it; that is what keeps the lists apart on the heap.
 */
module OpLists {

  datatype Link = Unlinked | InRunqueue | InTransient | InFreelist

  class OpNode {
    var prev: OpNode?
    var next: OpNode?
    ghost var link: Link

    constructor ()
      ensures prev == null && next == null && link == Unlinked
    {
      prev, next, link := null, null, Unlinked;
    }
  }

  /** `next` pointers from `head` visit exactly the records of `list`, in order, each once. */
  ghost predicate Chain(list: seq<OpNode>, head: OpNode?, link: Link)
    reads list
  {
    && head == (if list == [] then null else list[0])
    && (forall j, k :: 0 <= j < k < |list| ==> list[j] != list[k])
    && (forall k :: 0 <= k < |list| ==> list[k].link == link)
    && (forall k :: 0 <= k < |list| - 1 ==> list[k].next == list[k + 1])
    && (list != [] ==> list[|list| - 1].next == null)
  }

  class Runqueue {
    var head: OpNode?
    var tail: OpNode?
    var count: int
    ghost var list: seq<OpNode>

    ghost predicate Valid()
      reads this, list
    {
      && Chain(list, head, InRunqueue)
      && tail == (if list == [] then null else list[|list| - 1])
      && count == |list|
    }

    constructor ()
      ensures Valid() && list == []
    {
      head, tail, count, list := null, null, 0, [];
    }

    /** `um_runqueue_push`. */
    method Push(op: OpNode)
      requires Valid() && op.link == Unlinked
      modifies this, op, list`next
      ensures Valid() && list == old(list) + [op]
    {
      if tail != null {
        op.prev := tail;
        tail.next := op;
        tail := op;
      } else {
        head := op;
        tail := op;
      }
      op.next := null;
      count := count + 1;
      op.link := InRunqueue;
      list := list + [op];
    }

    /** `um_runqueue_shift`. */
    method Shift() returns (op: OpNode?)
      requires Valid()
      modifies this, list`link
      ensures Valid()
      ensures old(list) == [] ==> op == null && list == []
      ensures old(list) != [] ==> op == old(list)[0] && op.link == Unlinked && list == old(list)[1..]
    {
      op := head;
      if op == null { return; }
      head := op.next;
      if head == null { tail := null; }
      count := count - 1;
      op.link := Unlinked;
      list := list[1..];
    }
  }

  class TransientList {
    var head: OpNode?
    var count: int
    ghost var list: seq<OpNode>

    ghost predicate Valid()
      reads this, list
    {
      && Chain(list, head, InTransient)
      && (list != [] ==> list[0].prev == null)
      && (forall k :: 0 <= k < |list| - 1 ==> list[k + 1].prev == list[k])
      && count == |list|
    }

    constructor ()
      ensures Valid() && list == []
    {
      head, count, list := null, 0, [];
    }

    /** `um_op_transient_add`, on a record `um_prep_op` has just cleared. */
    method Add(op: OpNode)
      requires Valid() && op.link == Unlinked && op.prev == null && op.next == null
      modifies this, op, list`prev
      ensures Valid() && list == [op] + old(list)
    {
      if head != null {
        op.next := head;
        head.prev := op;
      }
      head := op;
      count := count + 1;
      op.link := InTransient;
      list := [op] + list;
    }

    /** `um_op_transient_remove`: unlinks the record wherever it is; its own pointers are left stale. */
    method Remove(op: OpNode)
      requires Valid() && op in list
      modifies this, list
      ensures Valid() && op.link == Unlinked
      ensures exists k :: 0 <= k < |old(list)| && old(list)[k] == op && list == old(list)[..k] + old(list)[k + 1..]
    {
      ghost var k :| 0 <= k < |list| && list[k] == op;
      assert op.prev == if k == 0 then null else list[k - 1];
      assert op.next == if k + 1 == |list| then null else list[k + 1];
      if op.prev != null { op.prev.next := op.next; }
      if op.next != null { op.next.prev := op.prev; }
      if head == op { head := op.next; }
      count := count - 1;
      op.link := Unlinked;
      Bypassed(list, k, head);
      list := list[..k] + list[k + 1..];
    }
  }

  ghost predicate Adjacent(a: OpNode, b: OpNode)
    reads a, b
  {
    a.next == b && b.prev == a
  }

  /** Bypassing one record of a doubly linked list leaves a doubly linked list. */
  lemma Bypassed(was: seq<OpNode>, k: nat, head: OpNode?)
    requires k < |was|
    requires forall i, j :: 0 <= i < j < |was| ==> was[i] != was[j]
    requires forall j :: 0 <= j < |was| && j != k ==> was[j].link == InTransient
    requires forall j :: 0 <= j < |was| - 1 && j != k && j + 1 != k ==> Adjacent(was[j], was[j + 1])
    requires 0 < k < |was| - 1 ==> Adjacent(was[k - 1], was[k + 1])
    requires |was| > 1 ==>
      var first, last := if k == 0 then was[1] else was[0], if k == |was| - 1 then was[k - 1] else was[|was| - 1];
      head == first && first.prev == null && last.next == null
    requires |was| == 1 ==> head == null
    ensures var list := was[..k] + was[k + 1..];
      && Chain(list, head, InTransient)
      && (list != [] ==> list[0].prev == null)
      && (forall j :: 0 <= j < |list| - 1 ==> list[j + 1].prev == list[j])
  {
    var list := was[..k] + was[k + 1..];
    forall j | 0 <= j < |list| - 1 ensures Adjacent(list[j], list[j + 1]) {
      if j + 1 < k {
        assert Adjacent(was[j], was[j + 1]);
      } else if j >= k {
        assert Adjacent(was[j + 1], was[j + 2]);
      }
    }
  }

  const BATCH: nat := 256

  class Freelist {
    var head: OpNode?
    var count: int
    ghost var list: seq<OpNode>

    ghost predicate Valid()
      reads this, list
    {
      Chain(list, head, InFreelist) && count == |list|
    }

    constructor ()
      ensures Valid() && list == []
    {
      head, count, list := null, 0, [];
    }

    /** `um_op_free`. */
    method Free(op: OpNode)
      requires Valid() && op.link == Unlinked
      modifies this, op
      ensures Valid() && list == [op] + old(list)
    {
      op.next := head;
      head := op;
      count := count + 1;
      op.link := InFreelist;
      list := [op] + list;
    }

    /** `um_op_alloc` with records to spare. */
    method Pop() returns (op: OpNode)
      requires Valid() && list != []
      modifies this, list`link
      ensures Valid() && op.link == Unlinked
      ensures op == old(list)[0] && list == old(list)[1..]
    {
      op := head;
      head := op.next;
      count := count - 1;
      op.link := Unlinked;
      list := list[1..];
    }

    /** `um_op_alloc` on an empty freelist: a new batch, of which all but the first record stay free. */
    method Grow() returns (op: OpNode)
      requires Valid() && list == []
      modifies this
      ensures Valid() && op.link == Unlinked && fresh(op)
      ensures |list| == 255 && forall n | n in list :: fresh(n)
    {
      op := new OpNode();
      var last := new OpNode();
      last.link := InFreelist;
      head, list, count := last, [last], count + (BATCH - 1);
      for i := 2 to BATCH
        invariant Chain(list, head, InFreelist) && |list| == i - 1
        invariant op.link == Unlinked && count == BATCH - 1
        invariant last == list[|list| - 1] && forall n | n in list :: fresh(n)
      {
        assert last in list;
        last := Append(last);
      }
    }

    /** One more record of the batch, behind the last. */
    method Append(last: OpNode) returns (node: OpNode)
      requires Chain(list, head, InFreelist) && list != [] && last == list[|list| - 1]
      modifies `list, last`next
      ensures Chain(list, head, InFreelist) && fresh(node) && list == old(list) + [node]
    {
      node := new OpNode();
      last.next := node;
      node.link := InFreelist;
      list := list + [node];
    }
  }
}
