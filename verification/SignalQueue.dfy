/** The linked lists of `psignals.c`: `PID_Array` and `SignalQueue` have the same
    links and are built by the same two functions, here over any element type. */
module SignalQueue {

  class Node<T> {
    var value: T
    var next: Node?<T>
    var prev: Node?<T>
    var first: Node?<T>

    /** `pid_array_new` and `signalqueue_new`. */
    constructor (value: T, first: Node?<T>)
      ensures this.value == value && next == null && prev == null
      ensures this.first == if first == null then this else first
    {
      this.value := value;
      next, prev := null, null;
      if first == null {
        this.first := this;
      } else {
        this.first := first;
      }
    }

    /** `pid_array_is_first`, for a node that exists. */
    predicate IsFirst()
      reads this
    {
      this == first
    }
  }

  // ---------- The shape ----------

  /** `spine` lists the nodes of a finite, acyclic, doubly linked list: `next` and
      `prev` are mutually inverse and null at the two ends. */
  ghost predicate Chain<T>(spine: seq<Node<T>>)
    reads spine
  {
    && spine != []
    && (forall i, j :: 0 <= i < j < |spine| ==> spine[i] != spine[j])
    && spine[0].prev == null && spine[|spine| - 1].next == null
    && (forall i :: 0 <= i < |spine| - 1 ==> spine[i].next == spine[i + 1])
    && (forall i :: 1 <= i < |spine| ==> spine[i].prev == spine[i - 1])
  }

  /** All nodes name the same one, the first of the list, as the first one. */
  ghost predicate NameHead<T>(spine: seq<Node<T>>)
    reads spine
  {
    forall i :: 0 <= i < |spine| ==> spine[i].first == spine[0]
  }

  /** A chain all of whose nodes name its head as the first one. */
  ghost predicate Headed<T>(spine: seq<Node<T>>)
    reads spine
  {
    Chain(spine) && NameHead(spine)
  }

  ghost function ValuesOf<T>(spine: seq<Node<T>>): (vs: seq<T>)
    reads spine
    ensures |vs| == |spine| && forall i :: 0 <= i < |spine| ==> vs[i] == spine[i].value
  {
    if spine == [] then [] else ValuesOf(spine[..|spine| - 1]) + [spine[|spine| - 1].value]
  }

  /** `pid_array_is_first` holds exactly at the head. */
  lemma FirstIsHead<T>(spine: seq<Node<T>>, k: nat)
    requires Headed(spine) && k < |spine|
    ensures spine[k].IsFirst() <==> k == 0
  {
    assert k > 0 ==> spine[0] != spine[k];
  }

  /** `next` is null at the tail only, and `prev` at the head only. */
  lemma TailAt<T>(spine: seq<Node<T>>, i: nat)
    requires Chain(spine) && i < |spine|
    ensures spine[i].next == null <==> i == |spine| - 1
  {
    if i < |spine| - 1 { assert spine[i].next == spine[i + 1]; }
  }

  lemma HeadAt<T>(spine: seq<Node<T>>, i: nat)
    requires Chain(spine) && i < |spine|
    ensures spine[i].prev == null <==> i == 0
  {
    if i > 0 { assert spine[i].prev == spine[i - 1]; }
  }

  // ---------- Appending ----------

  lemma HeadedAfter<T>(spine: seq<Node<T>>, added: Node<T>, k: nat)
    requires k < |spine| && Chain(spine + [added]) && added.first == spine[k]
    ensures Headed(spine + [added]) <==> NameHead(spine) && k == 0
  {
    var longer := spine + [added];
    assert longer[0] == spine[0] && longer[k] == spine[k] && longer[|spine|] == added;
    assert k > 0 ==> longer[0] != longer[k];
    if Headed(longer) {
      assert forall i :: 0 <= i < |spine| ==> longer[i] == spine[i];
    }
  }

  /** Linking a new node behind the tail makes a longer chain. */
  lemma ChainAfter<T>(spine: seq<Node<T>>, added: Node<T>)
    requires spine != [] && added !in spine && forall i, j :: 0 <= i < j < |spine| ==> spine[i] != spine[j]
    requires spine[0].prev == null && added.next == null
    requires spine[|spine| - 1].next == added && added.prev == spine[|spine| - 1]
    requires forall i :: 0 <= i < |spine| - 1 ==> spine[i].next == spine[i + 1]
    requires forall i :: 1 <= i < |spine| ==> spine[i].prev == spine[i - 1]
    ensures Chain(spine + [added])
  {
  }

  /** `pid_array_add` and `signalqueue_add`, called on the node `spine[k]` of any
      list: the walk to the tail terminates, and the new node is appended there.
      The new node names the node of the call as the first one, so the list is
      headed afterwards exactly when it was and the call was made on its head. */
  method Add<T>(value: T, node: Node<T>, ghost spine: seq<Node<T>>, ghost k: nat, ghost tail: Node<T>)
    returns (added: Node<T>)
    requires Chain(spine) && k < |spine| && node == spine[k] && tail == spine[|spine| - 1]
    modifies tail`next
    ensures fresh(added) && added.value == value && added.first == node
    ensures Chain(spine + [added])
    ensures Headed(spine + [added]) <==> old(Headed(spine)) && k == 0
    ensures ValuesOf(spine + [added]) == old(ValuesOf(spine)) + [value]
  {
    added := new Node(value, node);
    var last := node;
    ghost var i := k;
    while last.next != null
      invariant k <= i < |spine| && last == spine[i]
      decreases |spine| - i
    {
      last := last.next;
      i := i + 1;
    }
    TailAt(spine, i);
    last.next := added;
    added.prev := last;
    ChainAfter(spine, added);
    HeadedAfter(spine, added, k);
  }

  lemma Reassociate<T>(before: seq<T>, values: seq<T>)
    requires values != []
    ensures (before + [values[0]]) + values[1..] == before + values
  {
  }

  /** A series of calls on the same node appends all the values in call order; the
      list is headed afterwards exactly when it was before and the node is its
      head, or nothing was added. */
  method AddEach<T>(values: seq<T>, node: Node<T>, ghost spine: seq<Node<T>>, ghost k: nat, ghost tail: Node<T>)
    returns (ghost longer: seq<Node<T>>)
    requires Chain(spine) && k < |spine| && node == spine[k] && tail == spine[|spine| - 1]
    modifies tail`next
    ensures Chain(longer) && spine <= longer && forall i :: |spine| <= i < |longer| ==> fresh(longer[i])
    ensures ValuesOf(longer) == old(ValuesOf(spine)) + values
    ensures Headed(longer) <==> old(Headed(spine)) && (k == 0 || values == [])
  {
    ghost var before, headed := ValuesOf(spine), Headed(spine);
    if values == [] {
      longer := spine;
      assert before + values == before;
    } else {
      var added := Add(values[0], node, spine, k, tail);
      ghost var middle := spine + [added];
      assert middle[|middle| - 1] == added && middle[k] == node;
      longer := AddEach(values[1..], node, middle, k, added);
      Reassociate(before, values);
      assert Headed(longer) <==> headed && k == 0;
    }
  }

  /** A list of two nodes, well formed, to which a call on its second node adds a
      third: the third node names the second one as the first of the list. */
  method LosesHead() returns (head: Node<nat>, ghost spine: seq<Node<nat>>)
    ensures fresh(head) && |spine| == 3 && head == spine[0] && ValuesOf(spine) == [1, 2, 3]
    ensures Chain(spine) && NameHead(spine[..2]) && !NameHead(spine)
  {
    head := new Node(1, null);
    var second := Add(2, head, [head], 0, head);
    assert [head] + [second] == [head, second];
    assert ValuesOf([head]) == [1];
    var third := Add(3, second, [head, second], 1, second);
    spine := [head, second] + [third];
    assert spine[..2] == [head, second];
  }

  // ---------- Reading ----------

  /** Following `next` from the head reads the values in the order of insertion. */
  method ReadForward<T>(head: Node<T>, ghost spine: seq<Node<T>>) returns (vs: seq<T>)
    requires Chain(spine) && head == spine[0]
    ensures vs == ValuesOf(spine)
  {
    vs := [head.value];
    var cur := head;
    ghost var i := 0;
    while cur.next != null
      invariant 0 <= i < |spine| && cur == spine[i] && |vs| == i + 1
      invariant forall j :: 0 <= j <= i ==> vs[j] == spine[j].value
      decreases |spine| - i
    {
      cur := cur.next;
      i := i + 1;
      vs := vs + [cur.value];
    }
    TailAt(spine, i);
  }

  /** Following `prev` from the tail reads them in reverse. */
  method ReadBackward<T>(tail: Node<T>, ghost spine: seq<Node<T>>) returns (vs: seq<T>)
    requires Chain(spine) && tail == spine[|spine| - 1]
    ensures |vs| == |spine| && forall i :: 0 <= i < |vs| ==> vs[i] == ValuesOf(spine)[|spine| - 1 - i]
  {
    vs := [tail.value];
    var cur := tail;
    ghost var i := |spine| - 1;
    while cur.prev != null
      invariant 0 <= i < |spine| && cur == spine[i] && |vs| == |spine| - i
      invariant forall j :: 0 <= j < |vs| ==> vs[j] == spine[|spine| - 1 - j].value
      decreases i
    {
      cur := cur.prev;
      i := i - 1;
      vs := vs + [cur.value];
    }
    HeadAt(spine, i);
  }

  /** A chain is determined by its head: no second list of nodes reads the same
      links, so what the links mean does not depend on the choice of `spine`. */
  lemma {:induction false} ChainUnique<T>(a: seq<Node<T>>, b: seq<Node<T>>, k: nat)
    requires Chain(a) && Chain(b) && a[0] == b[0]
    requires k < |a|
    ensures k < |b| && b[k] == a[k]
    ensures k == |a| - 1 ==> a == b
  {
    if k > 0 {
      ChainUnique(a, b, k - 1);
      assert a[k - 1].next == a[k];
    }
    if k == |a| - 1 {
      TailAt(a, k);
      TailAt(b, k);
      forall j | 0 <= j < |a| ensures a[j] == b[j] {
        if j < k { ChainUnique(a, b, j); }
      }
    }
  }

  // ---------- Signals ----------

  class Signal {
    var processedByIds: Node?<nat>
    ghost var spine: seq<Node<nat>>

    ghost predicate Valid()
      reads this, spine
    {
      if processedByIds == null then spine == [] else Headed(spine) && spine[0] == processedByIds
    }

    /** The process ids recorded so far, in order. */
    ghost function Receivers(): seq<nat>
      reads this, spine
    {
      ValuesOf(spine)
    }

    constructor ()
      ensures Valid() && Receivers() == []
    {
      processedByIds := null;
      spine := [];
    }

    /** `signal_add_receiver`: repeated calls append in call order, and the list
        stays headed by the first receiver. */
    static method AddReceiver(sig: Signal?, pid: nat) returns (ok: bool)
      requires sig != null ==> sig.Valid()
      modifies sig, if sig == null then {} else set n | n in sig.spine
      ensures ok <==> sig != null
      ensures ok ==> sig.Valid() && sig.Receivers() == old(sig.Receivers()) + [pid]
      ensures ok && old(sig.processedByIds) != null ==> sig.processedByIds == old(sig.processedByIds)
    {
      if sig == null {
        return false;
      } else if sig.processedByIds == null {
        var n := new Node(pid, null);
        sig.processedByIds := n;
        sig.spine := [n];
      } else {
        var n := Add(pid, sig.processedByIds, sig.spine, 0, sig.spine[|sig.spine| - 1]);
        sig.spine := sig.spine + [n];
      }
      return true;
    }
  }
}
