/**
 The doubly linked queue with positional operations.  Positions count from one;
 a node is looked up from whichever end is nearer.  Every operation is proved to
 act on the sequence of the queued data.
 */
module DtQueue {

  /** What a pop or peek hands back: nothing, an item, or a read through a null
      pointer on the way. */
  datatype Outcome<T> = Null | Data(value: T) | Fault

  class Node<T> {
    const data: T
    var next: Node?<T>
    var prev: Node?<T>

    constructor (data: T, prev: Node?<T>, next: Node?<T>)
      ensures this.data == data && this.prev == prev && this.next == next
    {
      this.data := data;
      this.prev := prev;
      this.next := next;
    }
  }

  function DataOf<T>(nodes: seq<Node<T>>): (q: seq<T>)
    ensures |q| == |nodes|
    ensures forall i :: 0 <= i < |nodes| ==> q[i] == nodes[i].data
  {
    seq(|nodes|, i requires 0 <= i < |nodes| => nodes[i].data)
  }

  lemma DataInserted<T>(nodes: seq<Node<T>>, node: Node<T>, i: nat)
    requires i <= |nodes|
    ensures DataOf(nodes[..i] + [node] + nodes[i..]) == DataOf(nodes)[..i] + [node.data] + DataOf(nodes)[i..]
  {
  }

  lemma DataRemoved<T>(nodes: seq<Node<T>>, i: nat)
    requires i < |nodes|
    ensures DataOf(nodes[..i] + nodes[i + 1..]) == DataOf(nodes)[..i] + DataOf(nodes)[i + 1..]
  {
  }

  lemma InsertedAtEnds<T>(q: seq<T>, x: T)
    ensures q[..|q|] + [x] + q[|q|..] == q + [x]
    ensures q[..0] + [x] + q[0..] == [x] + q
  {
  }

  /** The index at which `push_nth` inserts: before the n-th item, or at the end. */
  function InsertIndex(length: nat, n: nat): (i: nat)
    ensures i <= length
  {
    if n > length then length else if n <= 1 then 0 else n - 1
  }

  /** The index that `pop_nth` and `peek_nth` mean, in a queue that has one. */
  function PickIndex(length: nat, n: nat): (i: nat)
    requires length > 0
    ensures i < length
  {
    if n > length then length - 1 else if n <= 1 then 0 else n - 1
  }

  /** `pop_nth(n)` means the item that `push_nth(n)` put in, for every n and every
      queue; it faults on it exactly when the push went one past the end of a
      queue that was not empty. */
  lemma PopMeansWhatPushPut<T>(q: seq<T>, x: T, n: nat)
    ensures var i := InsertIndex(|q|, n);
            var r := q[..i] + [x] + q[i..];
            && r[PickIndex(|r|, n)] == x
            && r[..PickIndex(|r|, n)] + r[PickIndex(|r|, n) + 1..] == q
            && (2 <= n == |r| <==> q != [] && n == |q| + 1)
  {
    var i := InsertIndex(|q|, n);
    assert PickIndex(|q| + 1, n) == i;
    assert q[..i] + q[i..] == q;
  }

  class Queue<T> {
    var head: Node?<T>
    var tail: Node?<T>
    var length: nat
    ghost var nodes: seq<Node<T>>

    ghost predicate Valid()
      reads this, nodes
    {
      && length == |nodes|
      && (forall i, j :: 0 <= i < j < |nodes| ==> nodes[i] != nodes[j])
      && (forall i {:trigger nodes[i].next} :: 0 <= i < |nodes| - 1 ==> nodes[i].next == nodes[i + 1])
      && (forall i {:trigger nodes[i].prev} :: 0 < i < |nodes| ==> nodes[i].prev == nodes[i - 1])
      && (if nodes == [] then head == null && tail == null
          else && head == nodes[0] && tail == nodes[|nodes| - 1]
               && head.prev == null && tail.next == null)
    }

    ghost function Contents(): (q: seq<T>)
      reads this
    {
      DataOf(nodes)
    }

    constructor ()
      ensures Valid() && nodes == []
    {
      head, tail, length := null, null, 0;
      nodes := [];
    }

    method PushHead(data: T)
      requires Valid()
      modifies this, nodes
      ensures Valid() && Contents() == [data] + old(Contents())
      ensures |nodes| == |old(nodes)| + 1 && fresh(nodes[0]) && nodes[1..] == old(nodes)
    {
      var node := new Node(data, null, head);
      if head != null {
        head.prev := node;
      }
      head := node;
      if tail == null {
        tail := head;
      }
      length := length + 1;
      nodes := [node] + nodes;
    }

    method PushTail(data: T)
      requires Valid()
      modifies this, nodes
      ensures Valid() && Contents() == old(Contents()) + [data]
      ensures |nodes| == |old(nodes)| + 1 && nodes[..|old(nodes)|] == old(nodes) && fresh(nodes[|nodes| - 1])
    {
      var node := new Node(data, tail, null);
      if tail != null {
        tail.next := node;
      }
      tail := node;
      if head == null {
        head := tail;
      }
      length := length + 1;
      nodes := nodes + [node];
    }

    /** The n-th node, walked to from the head in the first half and from the tail
        in the second. */
    method GetNodeLinkNth(n: nat) returns (p: Node<T>)
      requires Valid() && 1 <= n <= length
      ensures p == nodes[n - 1]
    {
      if n < length / 2 {
        p := head;
        var left := n - 1;
        while left > 0
          invariant 0 <= left <= n - 1 && p == nodes[n - 1 - left]
        {
          p := p.next;
          left := left - 1;
        }
      } else {
        p := tail;
        var left := length - n;
        while left > 0
          invariant 0 <= left <= length - n && p == nodes[n - 1 + left]
        {
          p := p.prev;
          left := left - 1;
        }
      }
    }

    method PushNth(data: T, n: nat)
      requires Valid()
      modifies this, nodes
      ensures Valid()
      ensures var i := InsertIndex(|old(Contents())|, n);
              Contents() == old(Contents())[..i] + [data] + old(Contents())[i..]
    {
      hide DataOf;
      InsertedAtEnds(Contents(), data);
      if n > length {
        PushTail(data);
        return;
      }
      if n <= 1 {
        PushHead(data);
        return;
      }
      var p := GetNodeLinkNth(n - 1);
      var node := LinkAfter(p, n - 2, data);
      DataInserted(old(nodes), node, n - 1);
    }

    /** Link a new node in behind one that has a successor. */
    method LinkAfter(p: Node<T>, ghost k: nat, data: T) returns (node: Node<T>)
      requires Valid() && k + 1 < |nodes| && p == nodes[k]
      modifies this, nodes
      ensures Valid() && node.data == data
      ensures nodes == old(nodes)[..k + 1] + [node] + old(nodes)[k + 1..]
    {
      node := new Node(data, p, p.next);
      ghost var before := nodes;
      assert p.next == nodes[k + 1] && nodes[k + 1].prev == p;
      p.next := node;
      node.next.prev := node;
      length := length + 1;
      nodes := nodes[..k + 1] + [node] + nodes[k + 1..];
      forall i {:trigger nodes[i].next} | 0 <= i < |nodes| - 1
        ensures nodes[i].next == nodes[i + 1]
      {
        if i < k {
          assert nodes[i] == before[i] && nodes[i + 1] == before[i + 1];
        } else if i > k + 1 {
          assert nodes[i] == before[i - 1] && nodes[i + 1] == before[i];
        }
      }
      forall i {:trigger nodes[i].prev} | 0 < i < |nodes|
        ensures nodes[i].prev == nodes[i - 1]
      {
        if i <= k {
          assert nodes[i] == before[i] && nodes[i - 1] == before[i - 1];
        } else if i > k + 2 {
          assert nodes[i] == before[i - 1] && nodes[i - 1] == before[i - 2];
        }
      }
    }

    method PopHead() returns (r: Outcome<T>)
      requires Valid()
      modifies this, nodes
      ensures Valid() && nodes == (if old(nodes) == [] then [] else old(nodes)[1..])
      ensures if old(Contents()) == [] then r == Null
              else r == Data(old(Contents())[0]) && Contents() == old(Contents())[1..]
    {
      if head == null {
        return Null;
      }
      var p := head;
      head := p.next;
      if head != null {
        head.prev := null;
      } else {
        tail := null;
      }
      length := length - 1;
      nodes := nodes[1..];
      r := Data(p.data);
    }

    method PopTail() returns (r: Outcome<T>)
      requires Valid()
      modifies this, nodes
      ensures Valid() && nodes == (if old(nodes) == [] then [] else old(nodes)[..|old(nodes)| - 1])
      ensures var q := old(Contents());
              if q == [] then r == Null
              else r == Data(q[|q| - 1]) && Contents() == q[..|q| - 1]
    {
      if tail == null {
        return Null;
      }
      var p := tail;
      tail := p.prev;
      if tail != null {
        tail.next := null;
      } else {
        head := null;
      }
      length := length - 1;
      nodes := nodes[..|nodes| - 1];
      r := Data(p.data);
    }

    /** The interior branch relinks the successor without asking whether there is
        one, so it faults exactly on the last of two or more items. */
    method PopNth(n: nat) returns (r: Outcome<T>)
      requires Valid()
      modifies this, nodes
      ensures r.Fault? <==> 2 <= n == |old(Contents())|
      ensures !r.Fault? ==> Valid()
      ensures !r.Fault? ==>
        var q := old(Contents());
        if q == [] then r == Null && Contents() == q
        else var i := PickIndex(|q|, n); r == Data(q[i]) && Contents() == q[..i] + q[i + 1..]
    {
      if n > length {
        r := PopTail();
        return;
      }
      if n <= 1 {
        r := PopHead();
        return;
      }
      hide DataOf;
      var p := GetNodeLinkNth(n);
      DataRemoved(nodes, n - 1);
      var linked := Unlink(p, n - 1);
      r := if linked then Data(p.data) else Fault;
    }

    /** Link an inner node's neighbours to each other; false stands for the read
        through the missing successor of the last node. */
    method Unlink(p: Node<T>, ghost k: nat) returns (linked: bool)
      requires Valid() && 1 <= k < |nodes| && p == nodes[k]
      modifies this, nodes
      ensures linked <==> k + 1 < |old(nodes)|
      ensures linked ==> Valid() && nodes == old(nodes)[..k] + old(nodes)[k + 1..]
    {
      var q := p.prev;
      q.next := p.next;
      if p.next == null {
        return false;
      }
      p.next.prev := q;
      length := length - 1;
      nodes := nodes[..k] + nodes[k + 1..];
      linked := true;
    }

    /** `queue_pre_pop_head` and `queue_peek_head`. */
    method PeekHead() returns (r: Outcome<T>)
      requires Valid()
      ensures r == if Contents() == [] then Null else Data(Contents()[0])
    {
      r := if head != null then Data(head.data) else Null;
    }

    method PeekTail() returns (r: Outcome<T>)
      requires Valid()
      ensures r == if Contents() == [] then Null else Data(Contents()[|Contents()| - 1])
    {
      r := if tail != null then Data(tail.data) else Null;
    }

    method PeekNth(n: nat) returns (r: Outcome<T>)
      requires Valid()
      ensures r == if Contents() == [] then Null else Data(Contents()[PickIndex(|Contents()|, n)])
    {
      if n > length {
        r := PeekTail();
        return;
      }
      if n <= 1 {
        r := PeekHead();
        return;
      }
      var p := GetNodeLinkNth(n);
      r := Data(p.data);
    }

    /** Pop from the tail until nothing comes; the items go in reverse order. */
    method Flush() returns (freed: seq<T>)
      requires Valid()
      modifies this, nodes
      ensures Valid() && Contents() == []
      ensures |freed| == |old(Contents())|
      ensures forall i :: 0 <= i < |freed| ==> freed[i] == old(Contents())[|freed| - 1 - i]
    {
      freed := [];
      ghost var all := Contents();
      ghost var start := nodes;
      var r := PopTail();
      while r.Data?
        invariant Valid() && nodes <= start && !r.Fault?
        invariant |freed| + |nodes| + (if r.Data? then 1 else 0) == |all|
        invariant r.Null? ==> nodes == []
        invariant r.Data? ==> r.value == all[|nodes|]
        invariant forall i :: 0 <= i < |freed| ==> freed[i] == all[|all| - 1 - i]
        decreases |nodes| + (if r.Data? then 1 else 0)
      {
        freed := freed + [r.value];
        r := PopTail();
      }
    }
  }
}
