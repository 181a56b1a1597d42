// queue.go: the FIFO of (command, id) pairs the GRBL and TinyG flows use
// to count what the firmware has not acknowledged yet. It is a singly
// linked list with head and tail pointers, an element count and the
// total length of the queued commands (the "byte budget").
module CommandQueue {

  datatype Cmd = Cmd(data: string, id: string)

  // Total length of the queued command texts.
  function TotalLen(items: seq<Cmd>): nat
  {
    if items == [] then 0 else TotalLen(items[..|items| - 1]) + |items[|items| - 1].data|
  }

  lemma {:induction false} TotalLenAppend(a: seq<Cmd>, b: seq<Cmd>)
    ensures TotalLen(a + b) == TotalLen(a) + TotalLen(b)
    decreases |b|
  {
    if b != [] {
      var last := b[|b| - 1];
      assert (a + b)[..|a + b| - 1] == a + b[..|b| - 1];
      TotalLenAppend(a, b[..|b| - 1]);
    } else {
      assert a + b == a;
    }
  }

  // Removing the oldest command lowers the total by that command's length.
  lemma TotalLenFront(items: seq<Cmd>)
    requires items != []
    ensures TotalLen(items) == |items[0].data| + TotalLen(items[1..])
  {
    assert items == [items[0]] + items[1..];
    TotalLenAppend([items[0]], items[1..]);
    assert [items[0]][..0] == [];
  }

  // Appending a command adds its length to the total.
  lemma TotalLenSnoc(items: seq<Cmd>, x: Cmd)
    ensures TotalLen(items + [x]) == TotalLen(items) + |x.data|
  {
    assert (items + [x])[..|items|] == items;
  }

  class QueueNode {
    const data: string
    const id: string
    var next: QueueNode?

    constructor (data: string, id: string)
      ensures this.data == data && this.id == id && next == null
    {
      this.data := data;
      this.id := id;
      next := null;
    }
  }

  class Queue {
    var head: QueueNode?
    var tail: QueueNode?
    var count: int
    var lenOfCmds: int

    // The nodes from head to tail, the commands they hold, and the
    // objects the queue is made of.
    ghost var nodes: seq<QueueNode>
    ghost var items: seq<Cmd>
    ghost var Repr: set<object>

    ghost function Items(): seq<Cmd>
      reads this`items
    {
      items
    }

    // The chain of nodes from head to tail holds exactly the items.
    ghost predicate Linked()
      reads this`head, this`tail, this`nodes, this`items, this`Repr, Repr
    {
      this !in Repr && |items| == |nodes| &&
      (forall i :: 0 <= i < |nodes| ==> nodes[i] in Repr && items[i] == Cmd(nodes[i].data, nodes[i].id)) &&
      (forall i {:trigger nodes[i].next} :: 0 <= i < |nodes| ==>
        nodes[i].next == if i + 1 < |nodes| then nodes[i + 1] else null) &&
      head == (if nodes == [] then null else nodes[0]) &&
      tail == (if nodes == [] then null else nodes[|nodes| - 1])
    }

    ghost predicate Valid()
      reads this, Repr
    {
      Linked() && count == |nodes| && lenOfCmds == TotalLen(items)
    }

    // NewQueue
    constructor ()
      ensures Valid() && fresh(Repr) && Items() == []
    {
      head, tail := null, null;
      count, lenOfCmds := 0, 0;
      nodes, items := [], [];
      Repr := {};
    }

    method Len() returns (n: int)
      requires Valid()
      ensures n == |Items()|
    {
      n := count;
    }

    method LenOfCmds() returns (n: int)
      requires Valid()
      ensures n == TotalLen(Items())
    {
      n := lenOfCmds;
    }

    // A head without a tail, or a tail without a head, never occurs.
    lemma HeadNullIffTailNull()
      requires Valid()
      ensures (head == null) <==> (tail == null)
      ensures (head == null) <==> (Items() == [])
    {
    }

    method Push(item: string, id: string)
      requires Valid()
      modifies this, Repr
      ensures Valid() && fresh(Repr - old(Repr))
      ensures Items() == old(Items()) + [Cmd(item, id)]
      ensures count == old(count) + 1 && lenOfCmds == old(lenOfCmds) + |item|
    {
      var n := new QueueNode(item, id);
      Link(n);
      TotalLenSnoc(old(items), Cmd(item, id));
      count, lenOfCmds := count + 1, lenOfCmds + |item|;
    }

    // The pointer work of Push: n becomes the new tail.
    method Link(n: QueueNode)
      requires Linked() && n !in Repr && n.next == null
      modifies this`head, this`tail, this`nodes, this`items, this`Repr, Repr
      ensures Linked() && Repr == old(Repr) + {n}
      ensures nodes == old(nodes) + [n] && items == old(items) + [Cmd(n.data, n.id)]
    {
      ghost var ns := nodes;
      nodes, items, Repr := nodes + [n], items + [Cmd(n.data, n.id)], Repr + {n};
      if tail == null {
        tail := n;
        head := n;
      } else {
        tail.next := n;
        tail := n;
      }
      forall i | 0 <= i < |nodes|
        ensures nodes[i].next == if i + 1 < |nodes| then nodes[i + 1] else null
      {
        if i < |ns| - 1 {
          assert old(ns[i].next) == ns[i + 1];
        }
      }
    }

    method Poll() returns (data: string, id: string)
      requires Valid()
      modifies this
      ensures Valid() && Repr == old(Repr)
      ensures old(Items()) == [] ==>
        data == "" && id == "" && Items() == [] && count == old(count) && lenOfCmds == old(lenOfCmds)
      ensures old(Items()) != [] ==>
        Cmd(data, id) == old(Items())[0] && Items() == old(Items())[1..] &&
        count == old(count) - 1 && lenOfCmds == old(lenOfCmds) - |data|
    {
      if head == null {
        return "", "";
      }
      TotalLenFront(items);
      data, id := Unlink();
      count, lenOfCmds := count - 1, lenOfCmds - |data|;
    }

    // The pointer work of Poll: the head node leaves the chain.
    method Unlink() returns (data: string, id: string)
      requires Linked() && nodes != []
      modifies this`head, this`tail, this`nodes, this`items
      ensures Linked() && Cmd(data, id) == old(items)[0]
      ensures nodes == old(nodes)[1..] && items == old(items)[1..]
    {
      var n := head;
      head := n.next;
      if head == null {
        tail := null;
      }
      nodes, items := nodes[1..], items[1..];
      data, id := n.data, n.id;
    }

    method Peek() returns (data: string, id: string)
      requires Valid()
      ensures Items() == [] || Items()[0].data == "" ==> data == "" && id == ""
      ensures Items() != [] && Items()[0].data != "" ==> Cmd(data, id) == Items()[0]
    {
      var n := head;
      if n == null || n.data == "" {
        return "", "";
      }
      data, id := n.data, n.id;
    }

    method Delete()
      requires Valid()
      modifies this
      ensures Valid() && Repr == old(Repr)
      ensures Items() == [] && count == 0 && lenOfCmds == 0
    {
      head, tail := null, null;
      count, lenOfCmds := 0, 0;
      nodes, items := [], [];
    }
  }
}
