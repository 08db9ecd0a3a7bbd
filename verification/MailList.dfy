/** The client's linked list of mail paths. Its last node is a sentinel that
    holds no mail, so the count starts at -1. */
module MailList {
  import opened Text

  class Node {
    var val: string
    var next: Node?

    constructor (val: string, next: Node?)
      ensures this.val == val && this.next == next
    {
      this.val, this.next := val, next;
    }
  }

  class List {
    var head: Node?
    /** All nodes from the head on, the sentinel last. */
    ghost var nodes: seq<Node>

    ghost predicate Valid()
      reads this, nodes
    {
      && head == (if nodes == [] then null else nodes[0])
      && (forall i {:trigger nodes[i].next} :: 0 <= i < |nodes| - 1 ==> nodes[i].next == nodes[i + 1])
      && (nodes != [] ==> nodes[|nodes| - 1].next == null)
    }

    ghost function Values(): (vs: seq<string>)
      reads this, nodes
      ensures |vs| == |nodes|
    {
      seq(|nodes|, i requires 0 <= i < |nodes| reads this, nodes => nodes[i].val)
    }

    /** The mails waiting: every value but the sentinel's. */
    ghost function Pending(): seq<string>
      requires nodes != []
      reads this, nodes
    {
      Values()[..|nodes| - 1]
    }

    /** A list with nothing but the sentinel. */
    constructor ()
      ensures Valid() && nodes != [] && Pending() == [] && fresh(nodes)
    {
      var sentinel := new Node("", null);
      head := sentinel;
      nodes := [sentinel];
    }

    /** add_first */
    method AddFirst(val: string)
      requires Valid()
      modifies this
      ensures Valid() && nodes != [] && fresh(nodes[0]) && nodes[1..] == old(nodes)
      ensures Values() == [val] + old(Values())
    {
      var node := new Node(val, head);
      nodes := [node] + nodes;
      head := node;
    }

    /** remove_first: -1 on an empty list. */
    method RemoveFirst() returns (code: int)
      requires Valid()
      modifies this
      ensures Valid()
      ensures old(nodes) == [] ==> code == -1 && nodes == []
      ensures old(nodes) != [] ==> code == 1 && nodes == old(nodes)[1..] && Values() == old(Values())[1..]
    {
      if head == null {
        return -1;
      }
      var next := head.next;
      assert next == if 1 < |nodes| then nodes[1] else null;
      head := next;
      nodes := nodes[1..];
      return 1;
    }

    /** count: one less than the number of nodes. */
    method Count() returns (n: int)
      requires Valid()
      ensures n == |nodes| - 1
    {
      n := -1;
      var node := head;
      while node != null
        invariant -1 <= n < |nodes|
        invariant node == if n + 1 < |nodes| then nodes[n + 1] else null
        decreases |nodes| - n
      {
        node := node.next;
        n := n + 1;
      }
    }
  }
}
