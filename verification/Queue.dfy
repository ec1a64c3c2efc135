/** The input queue: a linked list with a head, a tail that goes stale when the list runs
    empty, and a limit that forced entries may exceed. */
module Queues {

  // ----- what the queue means: a sequence, first in, first out -----

  datatype Op<T> = Enqueue(data: T, force: bool) | Dequeue

  predicate Accepts(length: nat, maxSize: nat, force: bool) {
    force || maxSize == 0 || length < maxSize
  }

  function Enqueued<T>(q: seq<T>, maxSize: nat, data: T, force: bool): seq<T> {
    if Accepts(|q|, maxSize, force) then q + [data] else q
  }

  function Dequeued<T>(q: seq<T>): seq<T> {
    if q == [] then [] else q[1..]
  }

  function Apply<T>(q: seq<T>, maxSize: nat, op: Op<T>): seq<T> {
    match op
    case Enqueue(data, force) => Enqueued(q, maxSize, data, force)
    case Dequeue => Dequeued(q)
  }

  function Run<T>(q: seq<T>, maxSize: nat, ops: seq<Op<T>>): seq<T>
    decreases |ops|
  {
    if ops == [] then q else Run(Apply(q, maxSize, ops[0]), maxSize, ops[1..])
  }

  /** The entries accepted in a run. */
  function Accepted<T>(q: seq<T>, maxSize: nat, ops: seq<Op<T>>): seq<T>
    decreases |ops|
  {
    if ops == [] then []
    else
      (if ops[0].Enqueue? && Accepts(|q|, maxSize, ops[0].force) then [ops[0].data] else [])
      + Accepted(Apply(q, maxSize, ops[0]), maxSize, ops[1..])
  }

  /** The entries handed out in a run. */
  function Taken<T>(q: seq<T>, maxSize: nat, ops: seq<Op<T>>): seq<T>
    decreases |ops|
  {
    if ops == [] then []
    else (if ops[0].Dequeue? && q != [] then [q[0]] else []) + Taken(Apply(q, maxSize, ops[0]), maxSize, ops[1..])
  }

  function Forced<T>(ops: seq<Op<T>>): nat {
    if ops == [] then 0 else (if ops[0].Enqueue? && ops[0].force then 1 else 0) + Forced(ops[1..])
  }

  /** Nothing is lost, repeated or overtaken: what was there and what was accepted is what
      was handed out, followed by what is still there. */
  lemma {:induction false} FirstInFirstOut<T>(q: seq<T>, maxSize: nat, ops: seq<Op<T>>)
    ensures q + Accepted(q, maxSize, ops) == Taken(q, maxSize, ops) + Run(q, maxSize, ops)
    decreases |ops|
  {
    if ops != [] {
      var q' := Apply(q, maxSize, ops[0]);
      FirstInFirstOut(q', maxSize, ops[1..]);
      var accepted := if ops[0].Enqueue? && Accepts(|q|, maxSize, ops[0].force) then [ops[0].data] else [];
      var taken := if ops[0].Dequeue? && q != [] then [q[0]] else [];
      assert q + accepted == taken + q';
      Reassociate(q, accepted, taken, q', Accepted(q', maxSize, ops[1..]), Taken(q', maxSize, ops[1..]), Run(q', maxSize, ops[1..]));
    }
  }

  lemma Reassociate<T>(q: seq<T>, a: seq<T>, t: seq<T>, q': seq<T>, a': seq<T>, t': seq<T>, r: seq<T>)
    requires q + a == t + q' && q' + a' == t' + r
    ensures q + (a + a') == (t + t') + r
  {
    assert q + (a + a') == (q + a) + a';
    assert (t + q') + a' == t + (q' + a');
    assert t + (t' + r) == (t + t') + r;
  }

  /** Only forced entries take a limited queue above its limit, one each. */
  lemma {:induction false} LimitKept<T>(q: seq<T>, maxSize: nat, ops: seq<Op<T>>)
    requires maxSize > 0
    ensures |Run(q, maxSize, ops)| <= (if |q| <= maxSize then maxSize else |q|) + Forced(ops)
    decreases |ops|
  {
    if ops != [] {
      LimitKept(Apply(q, maxSize, ops[0]), maxSize, ops[1..]);
    }
  }

  // ----- the linked list -----

  class Element<T> {
    const data: T
    var next: Element?<T>

    constructor (data: T)
      ensures this.data == data && next == null
    {
      this.data, next := data, null;
    }
  }

  ghost function Data<T>(nodes: seq<Element<T>>): seq<T> {
    seq(|nodes|, i requires 0 <= i < |nodes| => nodes[i].data)
  }

  /** The nodes form a list that ends with null. */
  ghost predicate Linked<T>(nodes: seq<Element<T>>)
    reads nodes
  {
    && (forall i, j :: 0 <= i && j == i + 1 < |nodes| ==> nodes[i].next == nodes[j])
    && (forall i, j :: 0 <= i < j < |nodes| ==> nodes[i] != nodes[j])
    && (nodes != [] ==> nodes[|nodes| - 1].next == null)
  }

  class Queue<T> {
    var head: Element?<T>
    var tail: Element?<T>
    var size: nat
    const maxSize: nat
    ghost var nodes: seq<Element<T>>

    /** The nodes form a list from head to null, and tail is the last of them.  When there
        are none, tail may still point to the node that was dequeued last. */
    ghost predicate Valid()
      reads this, nodes
    {
      && size == |nodes|
      && (head == null <==> nodes == [])
      && (nodes != [] ==> head == nodes[0] && tail == nodes[|nodes| - 1])
      && Linked(nodes)
    }

    ghost function Contents(): seq<T>
      reads this
    {
      Data(nodes)
    }

    constructor (maxSize: nat)
      ensures Valid() && Contents() == [] && this.maxSize == maxSize
    {
      head, tail, size, this.maxSize := null, null, 0, maxSize;
      nodes := [];
    }

    method Enqueue(data: T, force: bool) returns (rc: int)
      requires Valid()
      modifies this, nodes
      ensures Valid() && Contents() == Enqueued(old(Contents()), maxSize, data, force)
      ensures rc == -1 <==> !force && maxSize > 0 && |old(Contents())| >= maxSize
      ensures rc == -1 ==> Contents() == old(Contents())
      ensures rc != -1 ==> Contents() == old(Contents()) + [data] && rc == |Contents()|
      ensures forall n | n in nodes :: n in old(nodes) || fresh(n)
    {
      var el := new Element<T>(data);
      if maxSize > 0 && size >= maxSize {
        if !force {
          return -1;
        }
      }
      if head == null {
        head, tail := el, el;
      } else {
        tail.next := el;
        tail := el;
      }
      size := size + 1;
      DataSnoc(nodes, el);
      nodes := nodes + [el];
      rc := size;
    }

    /** Takes the first entry; returns the size before, which is 0 when there is none. */
    method Dequeue(before: T) returns (rc: nat, data: T)
      requires Valid()
      modifies this
      ensures Valid() && Contents() == Dequeued(old(Contents())) && rc == |old(Contents())|
      ensures rc == 0 ==> Contents() == [] && data == before
      ensures rc > 0 ==> old(Contents()) == [data] + Contents()
      ensures forall n | n in nodes :: n in old(nodes)
    {
      data := before;
      rc := size;
      if size > 0 {
        var el := head;
        assert size > 1 ==> nodes[0].next == nodes[1];
        head := el.next;
        data := el.data;
        size := size - 1;
        DataTail(nodes);
        assert forall i :: 0 <= i < |nodes| - 1 ==> nodes[1..][i] == nodes[i + 1];
        nodes := nodes[1..];
      }
    }
  }

  lemma DataTail<T>(nodes: seq<Element<T>>)
    requires nodes != []
    ensures Data(nodes)[1..] == Data(nodes[1..])
  {
  }

  lemma DataSnoc<T>(nodes: seq<Element<T>>, n: Element<T>)
    ensures Data(nodes + [n]) == Data(nodes) + [n.data]
  {
  }
}
