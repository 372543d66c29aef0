/**
 A port queue as the heap holds it: a singly linked list of packets with its
 first and last node and two running totals.
 */
module PortQueue {
  import opened Common
  import opened PacketPath

  class Node {
    const frame: Packet
    var next: Node?

    constructor (frame: Packet)
      ensures this.frame == frame && next == null
    {
      this.frame := frame;
      next := null;
    }
  }

  function Frames(nodes: seq<Node>): (q: seq<Packet>)
    ensures |q| == |nodes|
    ensures forall i :: 0 <= i < |nodes| ==> q[i] == nodes[i].frame
  {
    seq(|nodes|, i requires 0 <= i < |nodes| => nodes[i].frame)
  }

  lemma SizeGrows(q: seq<Packet>, frame: Packet)
    ensures Size([]) == 0 && Size(q + [frame]) == Size(q) + frame.size
  {
    assert (q + [frame])[..|q|] == q;
  }

  class PacketQueue {
    var nbPackets: nat
    var size: nat
    var first: Node?
    var last: Node?
    ghost var nodes: seq<Node>

    ghost predicate Linked()
      reads this, nodes
    {
      && (forall i, j :: 0 <= i < j < |nodes| ==> nodes[i] != nodes[j])
      && (forall i {:trigger nodes[i].next} :: 0 <= i < |nodes| - 1 ==> nodes[i].next == nodes[i + 1])
      && (nodes != [] ==> nodes[|nodes| - 1].next == null)
      && first == (if nodes == [] then null else nodes[0])
      && last == (if nodes == [] then null else nodes[|nodes| - 1])
    }

    ghost function Contents(): (q: seq<Packet>)
      reads this
    {
      Frames(nodes)
    }

    /** The list, and the totals that go with it. */
    ghost predicate Valid()
      reads this, nodes
    {
      Linked() && nbPackets == |nodes| && size == Size(Contents())
    }

    constructor ()
      ensures Valid() && Contents() == [] && nodes == [] && nbPackets == 0 && size == 0
    {
      nbPackets, size := 0, 0;
      first, last := null, null;
      nodes := [];
    }

    method PutFrame(frame: Packet)
      requires Valid()
      modifies this, nodes
      ensures Valid() && Contents() == old(Contents()) + [frame]
      ensures fresh(set n | n in nodes && n !in old(nodes))
    {
      hide Size;
      ghost var before := Contents();
      SizeGrows(before, frame);
      var list := new Node(frame);
      if last == null {
        first := list;
      } else {
        last.next := list;
      }
      last := list;
      nbPackets := nbPackets + 1;
      size := size + frame.size;
      nodes := nodes + [list];
      assert Contents() == before + [frame];
    }

    /** `packet_queue_put`: the limits of the frame's own kind decide. */
    method Put(g: Setting, frame: Packet) returns (ok: bool)
      requires Valid()
      modifies this, nodes
      ensures Valid()
      ensures ok == HasRoom(g, old(Contents()), frame.kind)
      ensures ok <==> !(frame.kind.Video? && Size(old(Contents())) >= g.videoMaxSize)
                      && !(frame.kind.Audio? && Size(old(Contents())) >= g.audioMaxSize)
      ensures Contents() == if ok then old(Contents()) + [frame] else old(Contents())
    {
      if frame.kind.Video? && size >= g.videoMaxSize {
        return false;
      }
      if frame.kind.Audio? && size >= g.audioMaxSize {
        return false;
      }
      PutFrame(frame);
      ok := true;
    }

    method GetFrame() returns (frame: Option<Packet>)
      requires Valid()
      modifies this
      ensures Valid()
      ensures if old(Contents()) == [] then frame == None && Contents() == []
              else frame == Some(old(Contents())[0]) && Contents() == old(Contents())[1..]
    {
      if nbPackets == 0 {
        return None;
      }
      ghost var before := Contents();
      var list := first;
      first := list.next;
      if first == null {
        last := null;
      }
      nbPackets := nbPackets - 1;
      SizeWithoutFirst(before);
      size := size - list.frame.size;
      frame := Some(list.frame);
      nodes := nodes[1..];
      assert Contents() == before[1..];
    }

    /** Walk the list, letting go of every packet on the way. */
    method Flush() returns (ghost freed: seq<Packet>)
      requires Valid()
      modifies this
      ensures Valid() && Contents() == [] && freed == old(Contents())
    {
      freed := [];
      var list := first;
      ghost var i := 0;
      while list != null
        invariant i <= |nodes| && list == (if i < |nodes| then nodes[i] else null)
        invariant freed == Contents()[..i]
        decreases |nodes| - i
      {
        freed := freed + [list.frame];
        list := list.next;
        i := i + 1;
      }
      first, last := null, null;
      nbPackets, size := 0, 0;
      nodes := [];
    }
  }
}
