/** The singly linked queues of the probe: only a head pointer; an append walks to the tail. */
module LinkedQueue {
  import opened Text

  class Node<T> {
    var value: T
    var next: Node?<T>

    constructor (value: T)
      ensures this.value == value && this.next == null
    {
      this.value := value;
      this.next := null;
    }
  }

  class Queue<T> {
    var first: Node?<T>
    ghost var Contents: seq<T>
    ghost var spine: seq<Node<T>>
    ghost var Repr: set<object>

    /** `first` and the `next` fields lead through the nodes of `spine`, all different, to null, and the
        nodes hold the contents in order. */
    ghost predicate Valid()
      reads this, Repr
      ensures Valid() ==> this in Repr
    {
      && this in Repr
      && (forall i :: 0 <= i < |spine| ==> spine[i] in Repr)
      && first == (if spine == [] then null else spine[0])
      && (forall i :: 0 <= i < |spine| ==> spine[i].next == Successor(i))
      && |Contents| == |spine| && (forall i :: 0 <= i < |spine| ==> spine[i].value == Contents[i])
      && (forall i, j :: 0 <= i < j < |spine| ==> spine[i] != spine[j])
    }

    ghost function Successor(i: nat): Node?<T>
      reads this
    {
      if i + 1 < |spine| then spine[i + 1] else null
    }

    constructor ()
      ensures Valid() && Contents == [] && fresh(Repr)
    {
      first := null;
      Contents, spine, Repr := [], [], {this};
    }

    /** The unlocked peek. */
    method IsEmpty() returns (empty: bool)
      requires Valid()
      ensures empty <==> Contents == []
    {
      empty := first == null;
    }

    /** Appends at the tail; the walk starts at the head and stops at the node without successor. */
    method Append(value: T)
      requires Valid()
      modifies Repr
      ensures Valid() && Contents == old(Contents) + [value]
      ensures fresh(Repr - old(Repr))
    {
      var node := new Node(value);
      if first != null {
        var last: Node<T> := first;
        ghost var k := 0;
        while last.next != null
          invariant 0 <= k < |spine| && last == spine[k]
          decreases |spine| - k
        {
          assert spine[k].next == Successor(k);
          last := last.next;
          k := k + 1;
        }
        assert spine[k].next == Successor(k);
        assert last in spine;
        last.next := node;
      } else {
        first := node;
      }
      Contents, spine, Repr := Contents + [value], spine + [node], Repr + {node};
    }

    /** Unlinks the head; nothing happens to an empty queue. */
    method RemoveFirst()
      requires Valid()
      modifies this
      ensures Valid() && Repr == old(Repr)
      ensures Contents == if old(Contents) == [] then [] else old(Contents)[1..]
    {
      if first != null {
        assert spine[0].next == Successor(0);
        first := first.next;
        Contents, spine := Contents[1..], spine[1..];
      }
    }

    method Head() returns (value: T)
      requires Valid() && Contents != []
      ensures value == Contents[0]
    {
      value := first.value;
    }
  }

  /** One call on a queue. */
  datatype Call<T> = Push(value: T) | Pop

  /** What a sequence of calls does to the contents. */
  function Replay<T>(contents: seq<T>, calls: seq<Call<T>>): seq<T>
    decreases |calls|
  {
    if calls == [] then contents
    else match calls[0]
      case Push(v) => Replay(contents + [v], calls[1..])
      case Pop => Replay(if contents == [] then [] else contents[1..], calls[1..])
  }

  function Pushes<T>(calls: seq<Call<T>>): seq<T>
  {
    if calls == [] then []
    else (match calls[0] case Push(v) => [v] case Pop => []) + Pushes(calls[1..])
  }

  /** The values that the calls take out, oldest first. */
  function Popped<T>(contents: seq<T>, calls: seq<Call<T>>): seq<T>
    decreases |calls|
  {
    if calls == [] then []
    else match calls[0]
      case Push(v) => Popped(contents + [v], calls[1..])
      case Pop => if contents == [] then Popped([], calls[1..]) else [contents[0]] + Popped(contents[1..], calls[1..])
  }

  /** Takes out the head, if there is one. */
  method Take<T>(q: Queue<T>) returns (taken: seq<T>)
    requires q.Valid()
    modifies q
    ensures q.Valid() && q.Repr == old(q.Repr)
    ensures old(q.Contents) == taken + q.Contents && |taken| == if old(q.Contents) == [] then 0 else 1
  {
    taken := [];
    var empty := q.IsEmpty();
    if !empty {
      var value := q.Head();
      taken := [value];
    }
    q.RemoveFirst();
  }

  lemma PoppedFirst<T>(before: seq<T>, contents: seq<T>, calls: seq<Call<T>>, taken: seq<T>)
    requires calls != [] && calls[0].Pop? && before == taken + contents && |taken| == if before == [] then 0 else 1
    ensures Popped(before, calls) == taken + Popped(contents, calls[1..])
    ensures Replay(before, calls) == Replay(contents, calls[1..])
  {
    if before != [] {
      assert before[1..] == contents && taken == [before[0]];
    } else {
      assert taken + Popped(contents, calls[1..]) == Popped(contents, calls[1..]);
    }
  }

  /** Every mixed sequence of calls on the heap structure takes out and leaves what the sequence operations
      do. */
  method Perform<T>(q: Queue<T>, calls: seq<Call<T>>) returns (popped: seq<T>)
    requires q.Valid()
    modifies q.Repr
    ensures q.Valid() && fresh(q.Repr - old(q.Repr))
    ensures q.Contents == Replay(old(q.Contents), calls) && popped == Popped(old(q.Contents), calls)
  {
    popped := [];
    var i := 0;
    while i < |calls|
      invariant 0 <= i <= |calls|
      invariant q.Valid() && fresh(q.Repr - old(q.Repr))
      invariant Replay(q.Contents, calls[i..]) == Replay(old(q.Contents), calls)
      invariant popped + Popped(q.Contents, calls[i..]) == Popped(old(q.Contents), calls)
    {
      ghost var rest := calls[i..];
      assert rest[0] == calls[i] && rest[1..] == calls[i + 1..];
      match calls[i] {
        case Push(v) => q.Append(v);
        case Pop =>
          ghost var before, done := q.Contents, popped;
          var taken := Take(q);
          PoppedFirst(before, q.Contents, rest, taken);
          Regroup3(done, taken, Popped(q.Contents, rest[1..]));
          popped := popped + taken;
      }
      i := i + 1;
    }
  }

  /** What the calls take out, followed by what they leave, is what was there followed by what was pushed. */
  ghost predicate Fifo<T>(contents: seq<T>, calls: seq<Call<T>>)
  {
    Popped(contents, calls) + Replay(contents, calls) == contents + Pushes(calls)
  }

  lemma PushFirst<T>(contents: seq<T>, calls: seq<Call<T>>)
    requires calls != [] && calls[0].Push? && Fifo(contents + [calls[0].value], calls[1..])
    ensures Fifo(contents, calls)
  {
    Regroup3(contents, [calls[0].value], Pushes(calls[1..]));
  }

  lemma PopEmptyFirst<T>(calls: seq<Call<T>>)
    requires calls != [] && calls[0].Pop? && Fifo([], calls[1..])
    ensures Fifo([], calls)
  {
    assert Pushes(calls) == Pushes(calls[1..]);
  }

  lemma PopFirst<T>(contents: seq<T>, calls: seq<Call<T>>)
    requires contents != [] && calls != [] && calls[0].Pop? && Fifo(contents[1..], calls[1..])
    ensures Fifo(contents, calls)
  {
    assert Pushes(calls) == Pushes(calls[1..]);
    Regroup3([contents[0]], Popped(contents[1..], calls[1..]), Replay(contents[1..], calls[1..]));
    Regroup3([contents[0]], contents[1..], Pushes(calls[1..]));
    assert [contents[0]] + contents[1..] == contents;
  }

  /** First in, first out, for every sequence of calls. */
  lemma {:induction false} ReplayIsFifo<T>(contents: seq<T>, calls: seq<Call<T>>)
    ensures Fifo(contents, calls)
    decreases |calls|
  {
    if calls == [] {
      assert contents + [] == contents && [] + contents == contents;
    } else {
      match calls[0] {
        case Push(v) =>
          ReplayIsFifo(contents + [v], calls[1..]);
          PushFirst(contents, calls);
        case Pop =>
          if contents == [] {
            ReplayIsFifo([], calls[1..]);
            PopEmptyFirst(calls);
          } else {
            ReplayIsFifo(contents[1..], calls[1..]);
            PopFirst(contents, calls);
          }
      }
    }
  }
}
