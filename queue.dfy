/** A player's hand: a FIFO queue tagged with the name of its owner.
    The queue keeps the list representation of the original: the back of the
    queue is at index 0 of `items` and the front is its last element, so
    enqueueing inserts at index 0 and dequeueing pops the last element. */
module Queue {

  /** The items of the list read from the front of the queue (the end of the
      list) to its back (index 0). */
  function FrontFirst<T>(items: seq<T>): (r: seq<T>)
    ensures |r| == |items|
  {
    if items == [] then [] else [items[|items| - 1]] + FrontFirst(items[..|items| - 1])
  }

  /** Inserting at the start of the list puts the item at the back of the queue. */
  lemma {:induction false} FrontFirstInsert<T>(x: T, items: seq<T>)
    ensures FrontFirst([x] + items) == FrontFirst(items) + [x]
  {
    if items != [] {
      var n := |items|;
      assert ([x] + items)[..n] == [x] + items[..n - 1];
      FrontFirstInsert(x, items[..n - 1]);
    }
  }

  /** Read front first, the list is reversed: the i-th item of the queue is
      the i-th item from the end of the list. */
  lemma {:induction false} FrontFirstAt<T>(items: seq<T>, i: nat)
    requires i < |items|
    ensures FrontFirst(items)[i] == items[|items| - 1 - i]
    decreases |items|
  {
    if i > 0 {
      FrontFirstAt(items[..|items| - 1], i - 1);
    }
  }

  class Queue<T> {
    const owner: string
    var items: seq<T>

    /** The abstract queue, front first. */
    ghost function Contents(): seq<T>
      reads this
    {
      FrontFirst(items)
    }

    constructor (owner: string)
      ensures this.owner == owner
      ensures Contents() == [] && Size() == 0 && IsEmpty()
    {
      this.owner := owner;
      items := [];
    }

    function IsEmpty(): (r: bool)
      reads this
      ensures r <==> Contents() == []
      ensures r <==> Size() == 0
    {
      items == []
    }

    method Enqueue(item: T)
      modifies this
      ensures Contents() == old(Contents()) + [item]
      ensures Size() == old(Size()) + 1
    {
      FrontFirstInsert(item, items);
      items := [item] + items;
    }

    /** Popping from an empty list raises in the original, so callers must
        check the size first. */
    method Dequeue() returns (item: T)
      requires Size() > 0
      modifies this
      ensures item == old(Contents())[0]
      ensures Contents() == old(Contents())[1..]
      ensures Size() == old(Size()) - 1
    {
      item := items[|items| - 1];
      items := items[..|items| - 1];
    }

    function Size(): (n: nat)
      reads this
      ensures n == |Contents()|
    {
      |items|
    }
  }

  /** Enqueueing a sequence of items into a fresh queue and then dequeueing as
      many times gives the items back in the order they were enqueued. */
  method FifoOrder<T>(xs: seq<T>) returns (ys: seq<T>)
    ensures ys == xs
  {
    var q := new Queue<T>("owner");
    for i := 0 to |xs|
      invariant q.Contents() == xs[..i]
    {
      q.Enqueue(xs[i]);
      assert xs[..i + 1] == xs[..i] + [xs[i]];
    }
    ys := [];
    for i := 0 to |xs|
      invariant ys == xs[..i]
      invariant q.Contents() == xs[i..]
    {
      var y := q.Dequeue();
      ys := ys + [y];
      assert xs[..i + 1] == xs[..i] + [xs[i]];
    }
  }
}
