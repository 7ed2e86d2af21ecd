/** The linked queue of queue.c, and the write queue of netio.c kept in it. */
module PacketQueue {
  import opened Radix
  import opened FramingRuns

  class Link {
    var item: Out
    var link: Link?

    constructor (item: Out)
      ensures this.item == item && link == null
    {
      this.item, link := item, null;
    }
  }

  ghost function Following(spine: seq<Link>, i: int): Link?
  {
    if 0 <= i + 1 < |spine| then spine[i + 1] else null
  }

  /** What one round of packet_queue_consume does: a partial write ends it. */
  function AfterFirst(q: seq<Out>, n: nat): (seq<Out>, nat)
  {
    if q == [] then (q, 0)
    else
      var len := |Rest(q[0])|;
      if len > n then ([q[0].(pos := q[0].pos + n)] + q[1..], 0) else (q[1..], n - len)
  }

  lemma FirstGone(q: seq<Out>, n: nat)
    requires 0 < n <= |Remaining(q)| && forall o <- q :: Unwritten(o)
    ensures var (r, left) := AfterFirst(q, n);
            left <= |Remaining(r)| && (forall o <- r :: Unwritten(o)) && Consume(r, left) == Consume(q, n)
  {
  }

  class Queue {
    var head: Link?
    var tail: Link?
    var count: nat

    /** The links from head to tail. */
    ghost var spine: seq<Link>

    ghost predicate Valid()
      reads this, spine
    {
      && count == |spine|
      && (forall i, j :: 0 <= i < j < |spine| ==> spine[i] != spine[j])
      && (forall i :: 0 <= i < |spine| ==> spine[i].link == Following(spine, i))
      && head == (if spine == [] then null else spine[0])
      && tail == (if spine == [] then null else spine[|spine| - 1])
    }

    /** The items in order. */
    ghost function Items(): (s: seq<Out>)
      reads this, spine
      ensures |s| == |spine|
    {
      seq(|spine|, i requires 0 <= i < |spine| reads this, spine => spine[i].item)
    }

    /** initqueue. */
    constructor ()
      ensures Valid() && Items() == [] && fresh(this)
    {
      head, tail, count := null, null, 0;
      spine := [];
    }

    /** isempty. */
    function IsEmpty(): (empty: bool)
      reads this, spine
      requires Valid()
      ensures empty <==> Items() == []
    {
      head == null
    }

    /** examine. */
    method Examine() returns (item: Out)
      requires Valid() && !IsEmpty()
      ensures item == Items()[0]
    {
      item := head.item;
    }

    /** enqueue. */
    method Enqueue(item: Out)
      requires Valid()
      modifies this, spine
      ensures Valid() && Items() == old(Items()) + [item]
      ensures forall l <- spine :: l in old(spine) || fresh(l)
    {
      var newlink := new Link(item);
      ghost var was := spine;
      if tail != null {
        tail.link := newlink;
      }
      tail := newlink;
      if head == null {
        head := newlink;
      }
      count := count + 1;
      spine := spine + [newlink];
      assert forall i :: 0 <= i < |was| ==> spine[i] == was[i] && spine[i].item == old(was[i].item);
    }

    /** dequeue. */
    method Dequeue() returns (item: Out)
      requires Valid() && !IsEmpty()
      modifies this
      ensures Valid() && [item] + Items() == old(Items())
      ensures spine == old(spine)[1..]
    {
      ghost var was := spine;
      var oldhead := head;
      assert was[0] == oldhead && was[0].link == Following(was, 0);
      item := oldhead.item;
      if oldhead.link != null {
        head := oldhead.link;
      } else {
        head := null;
        tail := null;
      }
      count := count - 1;
      spine := spine[1..];
      assert forall i :: 0 <= i < |spine| ==> spine[i] == was[i + 1] && spine[i].link == was[i + 1].link;
    }

    /** The partial write of packet_queue_consume: buf_incrpos on the first buffer. */
    method AdvanceFirst(n: nat)
      requires Valid() && !IsEmpty()
      modifies head`item
      ensures Valid()
      ensures Items() == [old(Items())[0].(pos := old(Items())[0].pos + n)] + old(Items())[1..]
    {
      head.item := head.item.(pos := head.item.pos + n);
      assert forall i :: 1 <= i < |spine| ==> spine[i] != head;
    }

    /** One round of packet_queue_consume. */
    method ConsumeFirst(written: nat) returns (left: nat)
      requires Valid() && 0 < written <= |Remaining(Items())| && forall o <- Items() :: Unwritten(o)
      modifies this, head
      ensures Valid() && left < written && forall l <- spine :: l in old(spine)
      ensures (Items(), left) == AfterFirst(old(Items()), written)
    {
      assert Items() != [] && Unwritten(Items()[0]);
      assert head == spine[0];
      var writebuf := Examine();
      var len := |writebuf.bytes| - writebuf.pos;
      assert len > 0 && |Rest(writebuf)| == len;
      if len > written {
        AdvanceFirst(written);
        left := 0;
      } else {
        ghost var was := Items();
        var gone := Dequeue();
        assert was[1..] == Items();
        left := written - len;
      }
    }

    /** packet_queue_consume. */
    method ConsumeWritten(n: nat)
      requires Valid() && n <= |Remaining(Items())| && forall o <- Items() :: Unwritten(o)
      modifies this, spine
      ensures Valid() && Items() == Consume(old(Items()), n)
    {
      var written := n;
      while written > 0
        invariant Valid() && (forall l <- spine :: l in old(spine))
        invariant 0 <= written <= |Remaining(Items())| && forall o <- Items() :: Unwritten(o)
        invariant Consume(Items(), written) == Consume(old(Items()), n)
        decreases written
      {
        FirstGone(Items(), written);
        assert Items() != [] && head == spine[0] && head in spine;
        written := ConsumeFirst(written);
      }
    }

    /** packet_queue_to_iovec: at most as many buffers as it is given room for. */
    method ToIovec(room: nat) returns (iov: seq<seq<byte>>)
      requires Valid() && forall o <- Items() :: Unwritten(o)
      ensures |iov| == if |Items()| < room then |Items()| else room
      ensures forall i :: 0 <= i < |iov| ==> iov[i] == Rest(Items()[i]) && iov[i] != []
    {
      var n := if count < room then count else room;
      var l, i := head, 0;
      iov := [];
      while i < n
        invariant 0 <= i <= n == |iov| + (n - i) && n <= |spine|
        invariant l == Following(spine, i - 1)
        invariant forall k :: 0 <= k < i ==> iov[k] == Rest(Items()[k]) && iov[k] != []
      {
        var writebuf := l.item;
        assert Items()[i] == writebuf && Unwritten(Items()[i]);
        assert spine[i].link == Following(spine, i);
        var len := |writebuf.bytes| - writebuf.pos;
        assert len > 0;
        iov := iov + [writebuf.bytes[writebuf.pos..]];
        l := l.link;
        i := i + 1;
      }
    }
  }
}
