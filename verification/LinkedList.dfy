/** The heap lists of packages/client/lib/client/linked-list.ts, refining sequences. */
module LinkedList {
  import opened Collections

  class Node<T> {
    const value: T
    var previous: Node?<T>
    var next: Node?<T>

    constructor (value: T, previous: Node?<T>, next: Node?<T>)
      ensures this.value == value && this.previous == previous && this.next == next
    {
      this.value, this.previous, this.next := value, previous, next;
    }
  }

  ghost function Values<T>(nodes: seq<Node<T>>): seq<T> {
    seq(|nodes|, i requires 0 <= i < |nodes| => nodes[i].value)
  }

  ghost function SingleValues<T>(nodes: seq<SingleNode<T>>): seq<T> {
    seq(|nodes|, i requires 0 <= i < |nodes| => nodes[i].value)
  }

  lemma ValuesRemoved<T>(nodes: seq<Node<T>>, k: nat)
    requires k < |nodes|
    ensures Values(RemoveAt(nodes, k)) == RemoveAt(Values(nodes), k)
  {
  }

  lemma SingleValuesRemoved<T>(nodes: seq<SingleNode<T>>, k: nat)
    requires k < |nodes|
    ensures SingleValues(RemoveAt(nodes, k)) == RemoveAt(SingleValues(nodes), k)
  {
  }

  lemma RemovedIsDistinct<T>(s: seq<T>, k: nat)
    requires Distinct(s) && k < |s|
    ensures Distinct(RemoveAt(s, k)) && s[k] !in RemoveAt(s, k)
    ensures forall i :: 0 <= i < |s| && i != k ==> s[i] != s[k]
    ensures |RemoveAt(s, k)| == |s| - 1
    ensures forall i :: 0 <= i < |s| - 1 ==> RemoveAt(s, k)[i] == s[if i < k then i else i + 1]
  {
  }

  lemma ValuesInserted<T>(nodes: seq<Node<T>>, k: nat, node: Node<T>)
    requires k <= |nodes|
    ensures Values(InsertAt(nodes, k, node)) == InsertAt(Values(nodes), k, node.value)
  {
  }

  lemma InsertedIsDistinct<T>(s: seq<T>, k: nat, x: T)
    requires Distinct(s) && k <= |s| && x !in s
    ensures Distinct(InsertAt(s, k, x)) && |InsertAt(s, k, x)| == |s| + 1
    ensures k > 0 ==> InsertAt(s, k, x)[0] == s[0]
    ensures forall i :: 0 <= i <= |s| ==> InsertAt(s, k, x)[i] == if i < k then s[i] else if i == k then x else s[i - 1]
  {
  }

  lemma OthersThan<T>(s: seq<T>, k: nat)
    requires Distinct(s) && k < |s|
    ensures forall i :: 0 <= i < |s| && i != k ==> s[i] != s[k]
  {
  }

  // Every node leads to the next one, and the last to none.
  ghost predicate Forward<T>(nodes: seq<Node<T>>)
    reads nodes
  {
    forall i {:trigger nodes[i].next} :: 0 <= i < |nodes| ==>
      nodes[i].next == if i + 1 < |nodes| then nodes[i + 1] else null
  }

  ghost predicate Backward<T>(nodes: seq<Node<T>>)
    reads nodes
  {
    forall i {:trigger nodes[i].previous} :: 0 <= i < |nodes| ==>
      nodes[i].previous == if i > 0 then nodes[i - 1] else null
  }

  lemma ForwardRemoved<T>(nodes: seq<Node<T>>, k: nat)
    requires k < |nodes|
    requires forall i {:trigger nodes[i].next} :: 0 <= i < |nodes| && i != k ==>
      var j := if i + 1 == k then i + 2 else i + 1;
      nodes[i].next == if j < |nodes| then nodes[j] else null
    ensures Forward(RemoveAt(nodes, k))
  {
    var rest := RemoveAt(nodes, k);
    forall i | 0 <= i < |rest| ensures rest[i].next == if i + 1 < |rest| then rest[i + 1] else null {
      var j := if i < k then i else i + 1;
      assert rest[i] == nodes[j];
      assert nodes[j].next == nodes[j].next;
    }
  }

  lemma BackwardRemoved<T>(nodes: seq<Node<T>>, k: nat)
    requires k < |nodes|
    requires forall i {:trigger nodes[i].previous} :: 0 <= i < |nodes| && i != k ==>
      var j := if i == k + 1 then i - 2 else i - 1;
      nodes[i].previous == if j >= 0 then nodes[j] else null
    ensures Backward(RemoveAt(nodes, k))
  {
    var rest := RemoveAt(nodes, k);
    forall i | 0 <= i < |rest| ensures rest[i].previous == if i > 0 then rest[i - 1] else null {
      var j := if i < k then i else i + 1;
      assert rest[i] == nodes[j];
      assert nodes[j].previous == nodes[j].previous;
    }
  }

  lemma LinksInserted<T>(nodes: seq<Node<T>>, k: nat, node: Node<T>)
    requires k + 1 < |nodes|
    requires forall i {:trigger nodes[i].next} :: 0 <= i < |nodes| ==>
      nodes[i].next == if i == k then node else if i + 1 < |nodes| then nodes[i + 1] else null
    requires forall i {:trigger nodes[i].previous} :: 0 <= i < |nodes| ==>
      nodes[i].previous == if i == k + 1 then node else if i > 0 then nodes[i - 1] else null
    requires node.next == nodes[k + 1] && node.previous == nodes[k]
    ensures Forward(InsertAt(nodes, k + 1, node)) && Backward(InsertAt(nodes, k + 1, node))
  {
    var all := InsertAt(nodes, k + 1, node);
    forall i | 0 <= i < |all|
      ensures all[i].next == if i + 1 < |all| then all[i + 1] else null
      ensures all[i].previous == if i > 0 then all[i - 1] else null
    {
      if i != k + 1 {
        var j := if i <= k then i else i - 1;
        assert all[i] == nodes[j];
        assert nodes[j].next == nodes[j].next && nodes[j].previous == nodes[j].previous;
      }
    }
  }

  class DoublyLinkedList<T> {
    var length: nat
    var head: Node?<T>
    var tail: Node?<T>
    ghost var nodes: seq<Node<T>>
    // the nodes that left by shift or remove
    ghost var gone: set<Node<T>>

    ghost predicate Valid()
      reads this, nodes, gone
    {
      && length == |nodes|
      && (nodes == [] ==> head == null && tail == null)
      && (nodes != [] ==> head == nodes[0] && tail == nodes[|nodes| - 1])
      && Distinct(nodes) && Forward(nodes) && Backward(nodes)
      && (forall i :: 0 <= i < |nodes| ==> nodes[i] !in gone)
      && (forall n <- gone :: n.previous == null && n.next == null)
    }

    ghost function Contents(): seq<T>
      reads this
    {
      Values(nodes)
    }

    constructor ()
      ensures Valid() && nodes == [] && gone == {}
    {
      length, head, tail := 0, null, null;
      nodes, gone := [], {};
    }

    method Push(value: T) returns (node: Node<T>)
      requires Valid()
      modifies this, nodes
      ensures Valid() && fresh(node) && node.value == value
      ensures nodes == old(nodes) + [node] && gone == old(gone)
      ensures Contents() == old(Contents()) + [value]
    {
      length := length + 1;
      node := new Node(value, tail, null);
      if tail == null {
        head := node;
      } else {
        tail.next := node;
      }
      tail := node;
      nodes := nodes + [node];
    }

    method Unshift(value: T) returns (node: Node<T>)
      requires Valid()
      modifies this, nodes
      ensures Valid() && fresh(node) && node.value == value
      ensures nodes == [node] + old(nodes) && gone == old(gone)
      ensures Contents() == [value] + old(Contents())
    {
      length := length + 1;
      node := new Node(value, null, head);
      if head == null {
        tail := node;
      } else {
        head.previous := node;
      }
      head := node;
      nodes := [node] + nodes;
    }

    // The neighbours of a new node point at it.
    method Splice(at: Node<T>, node: Node<T>, ghost k: nat)
      requires Forward(nodes) && Backward(nodes) && Distinct(nodes) && k + 1 < |nodes| && nodes[k] == at
      requires node !in nodes
      modifies nodes
      ensures forall i {:trigger nodes[i].next} :: 0 <= i < |nodes| ==>
        nodes[i].next == if i == k then node else if i + 1 < |nodes| then nodes[i + 1] else null
      ensures forall i {:trigger nodes[i].previous} :: 0 <= i < |nodes| ==>
        nodes[i].previous == if i == k + 1 then node else if i > 0 then nodes[i - 1] else null
    {
      OthersThan(nodes, k);
      OthersThan(nodes, k + 1);
      hide Distinct;
      at.next.previous := node;
      at.next := node;
    }

    // In front of the node that comes next.
    method InsertBetween(at: Node<T>, value: T, ghost k: nat) returns (node: Node<T>)
      requires Valid() && k + 1 < |nodes| && nodes[k] == at
      modifies this, nodes
      ensures Valid() && fresh(node) && node.value == value
      ensures nodes == InsertAt(old(nodes), k + 1, node) && gone == old(gone)
      ensures Contents() == InsertAt(old(Contents()), k + 1, value)
    {
      hide Distinct, Values, InsertAt;
      assert forall n <- gone :: n !in nodes;
      length := length + 1;
      node := new Node(value, at, at.next);
      InsertedIsDistinct(nodes, k + 1, node);
      ValuesInserted(nodes, k + 1, node);
      Splice(at, node, k);
      hide Forward, Backward;
      LinksInserted(nodes, k, node);
      nodes := InsertAt(nodes, k + 1, node);
    }

    method InsertAfter(at: Node<T>, value: T, ghost k: nat) returns (node: Node<T>)
      requires Valid() && k < |nodes| && nodes[k] == at
      modifies this, nodes
      ensures Valid() && fresh(node) && node.value == value
      ensures nodes == InsertAt(old(nodes), k + 1, node) && gone == old(gone)
      ensures Contents() == InsertAt(old(Contents()), k + 1, value)
    {
      if at.next == null {
        node := Push(value);
        return;
      }
      node := InsertBetween(at, value, k);
    }

    method Shift() returns (value: Option<T>)
      requires Valid()
      modifies this, nodes
      ensures Valid()
      ensures old(nodes) == [] ==> value == None && nodes == [] && gone == old(gone)
      ensures old(nodes) != [] ==> value == Some(old(nodes)[0].value) && nodes == old(nodes)[1..]
      ensures old(nodes) != [] ==> gone == old(gone) + {old(nodes)[0]} && Contents() == old(Contents())[1..]
    {
      if head == null { return None; }
      length := length - 1;
      var node := head;
      if node.next != null {
        node.next.previous := null;
        head := node.next;
        node.next := null;
      } else {
        head, tail := null, null;
      }
      nodes, gone := nodes[1..], gone + {node};
      return Some(node.value);
    }

    // The neighbours of the k-th node, and the ends of the list, stop pointing at it.
    method Bypass(node: Node<T>, ghost k: nat)
      requires Valid() && k < |nodes| && nodes[k] == node
      modifies this`length, this`head, this`tail, nodes
      ensures length == old(length) - 1
      ensures head == if k > 0 then old(head) else if |nodes| > 1 then nodes[1] else null
      ensures tail == if k < |nodes| - 1 then old(tail) else if k > 0 then nodes[k - 1] else null
      ensures forall i {:trigger nodes[i].next} :: 0 <= i < |nodes| && i != k ==>
                var j := if i + 1 == k then i + 2 else i + 1;
                nodes[i].next == if j < |nodes| then nodes[j] else null
      ensures forall i {:trigger nodes[i].previous} :: 0 <= i < |nodes| && i != k ==>
                var j := if i == k + 1 then i - 2 else i - 1;
                nodes[i].previous == if j >= 0 then nodes[j] else null
    {
      length := length - 1;
      if node.previous != null {
        node.previous.next := node.next;
      } else {
        head := node.next;
      }
      if node.next != null {
        node.next.previous := node.previous;
      } else {
        tail := node.previous;
      }
    }

    // The k-th node leaves the list.
    method Detach(node: Node<T>, ghost k: nat)
      requires Valid() && k < |nodes| && nodes[k] == node
      modifies this, nodes
      ensures Valid() && nodes == RemoveAt(old(nodes), k) && gone == old(gone) + {node}
      ensures Contents() == RemoveAt(old(Contents()), k)
    {
      RemovedIsDistinct(nodes, k);
      ValuesRemoved(nodes, k);
      hide Distinct, Values, RemoveAt;
      Bypass(node, k);
      node.previous := null;
      node.next := null;
      ForwardRemoved(nodes, k);
      BackwardRemoved(nodes, k);
      hide Forward, Backward;
      nodes, gone := RemoveAt(nodes, k), gone + {node};
    }

    /** Removes a node from wherever it is; a node that already left is left alone. */
    method Remove(node: Node<T>) returns (ghost k: nat)
      requires Valid() && (node in nodes || node in gone)
      modifies this, nodes
      ensures Valid()
      ensures old(node in gone) ==> nodes == old(nodes) && gone == old(gone) && unchanged(this) && unchanged(old(nodes))
      ensures old(node in nodes) ==> k < |old(nodes)| && old(nodes)[k] == node && nodes == RemoveAt(old(nodes), k)
      ensures old(node in nodes) ==> Contents() == RemoveAt(old(Contents()), k)
      ensures gone == old(gone) + {node}
    {
      k := 0;
      if length == 0 { return; }
      if node != head && node != tail && node.previous == null && node.next == null { return; }
      k :| 0 <= k < |nodes| && nodes[k] == node;
      Detach(node, k);
    }

    method Reset()
      requires Valid()
      modifies this
      ensures Valid() && nodes == [] && gone == old(gone)
    {
      length, head, tail := 0, null, null;
      nodes := [];
    }
  }

  class SingleNode<T> {
    const value: T
    var next: SingleNode?<T>
    var removed: bool

    constructor (value: T)
      ensures this.value == value && next == null && !removed
    {
      this.value, next, removed := value, null, false;
    }
  }

  class SinglyLinkedList<T> {
    var length: nat
    var head: SingleNode?<T>
    var tail: SingleNode?<T>
    ghost var nodes: seq<SingleNode<T>>
    ghost var gone: set<SingleNode<T>>

    ghost predicate Valid()
      reads this, nodes, gone
    {
      && length == |nodes|
      && (nodes == [] ==> head == null && tail == null)
      && (nodes != [] ==> head == nodes[0] && tail == nodes[|nodes| - 1] && tail.next == null)
      && Distinct(nodes)
      && (forall i {:trigger nodes[i].next} :: 0 <= i < |nodes| - 1 ==> nodes[i].next == nodes[i + 1])
      && (forall i :: 0 <= i < |nodes| ==> !nodes[i].removed)
      && (forall n <- gone :: n.removed)
    }

    ghost function Contents(): seq<T>
      reads this
    {
      SingleValues(nodes)
    }

    constructor ()
      ensures Valid() && nodes == [] && gone == {}
    {
      length, head, tail := 0, null, null;
      nodes, gone := [], {};
    }

    method Push(value: T) returns (node: SingleNode<T>)
      requires Valid()
      modifies this, nodes
      ensures Valid() && fresh(node) && node.value == value
      ensures nodes == old(nodes) + [node] && gone == old(gone)
      ensures Contents() == old(Contents()) + [value]
    {
      length := length + 1;
      node := new SingleNode(value);
      if head == null {
        head := node;
      } else {
        tail.next := node;
      }
      tail := node;
      nodes := nodes + [node];
    }

    // The k-th node leaves the list.
    method Detach(node: SingleNode<T>, parent: SingleNode?<T>, ghost k: nat)
      requires Valid() && k < |nodes| && nodes[k] == node && (k > 0 ==> parent == nodes[k - 1])
      modifies this, nodes
      ensures Valid() && nodes == RemoveAt(old(nodes), k) && gone == old(gone) + {node}
      ensures Contents() == RemoveAt(old(Contents()), k)
    {
      RemovedIsDistinct(nodes, k);
      SingleValuesRemoved(nodes, k);
      hide Distinct, SingleValues, RemoveAt;
      length := length - 1;
      if head == node {
        if tail == node {
          head, tail := null, null;
        } else {
          head := node.next;
        }
      } else if tail == node {
        tail := parent;
        parent.next := null;
      } else {
        parent.next := node.next;
      }
      node.removed := true;
      nodes, gone := RemoveAt(nodes, k), gone + {node};
    }

    /** Throws on a node that already left; otherwise `parent` must be the node in front of it. */
    method Remove(node: SingleNode<T>, parent: SingleNode?<T>) returns (thrown: bool, ghost k: nat)
      requires Valid() && (node in nodes || node in gone)
      requires forall k :: 0 < k < |nodes| && nodes[k] == node ==> parent == nodes[k - 1]
      modifies this, nodes
      ensures Valid() && thrown == old(node in gone)
      ensures thrown ==> unchanged(this) && unchanged(old(nodes))
      ensures old(node in nodes) ==> k < |old(nodes)| && old(nodes)[k] == node && nodes == RemoveAt(old(nodes), k)
      ensures old(node in nodes) ==> Contents() == RemoveAt(old(Contents()), k)
      ensures gone == old(gone) + {node}
    {
      if node.removed { return true, 0; }
      k :| 0 <= k < |nodes| && nodes[k] == node;
      Detach(node, parent, k);
      thrown := false;
    }

    method Shift() returns (value: Option<T>)
      requires Valid()
      modifies this, nodes
      ensures Valid()
      ensures old(nodes) == [] ==> value == None && nodes == [] && gone == old(gone)
      ensures old(nodes) != [] ==> value == Some(old(nodes)[0].value) && nodes == old(nodes)[1..]
      ensures old(nodes) != [] ==> gone == old(gone) + {old(nodes)[0]} && Contents() == old(Contents())[1..]
    {
      if head == null { return None; }
      var node := head;
      length := length - 1;
      if length == 0 {
        head, tail := null, null;
      } else {
        head := node.next;
      }
      node.removed := true;
      nodes, gone := nodes[1..], gone + {node};
      return Some(node.value);
    }

    method Reset()
      requires Valid()
      modifies this
      ensures Valid() && nodes == [] && gone == old(gone)
    {
      length, head, tail := 0, null, null;
      nodes := [];
    }
  }
}
