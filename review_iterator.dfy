/** backend/.../iterator/ReviewIterator.java and its identical copy
    backend/.../ReviewIterator.java: a forward cursor over a list of reviews. */
module Reviews {
  import opened Wrappers
  import opened Catalog

  /** `NoSuchElementException("No more reviews")`. */
  datatype NoSuchElement = NoSuchElement

  class ReviewIterator {
    const reviews: seq<Review>
    var position: nat

    constructor(reviews: seq<Review>)
      ensures this.reviews == reviews && position == 0
      ensures Valid()
    {
      this.reviews := reviews;
      position := 0;
    }

    /** The cursor never passes the end of the list. */
    predicate Valid()
      reads this
    {
      position <= |reviews|
    }

    /** The reviews not returned yet. */
    function Remaining(): (r: seq<Review>)
      requires Valid()
      reads this
      ensures |r| == |reviews| - position
      ensures reviews[..position] + r == reviews
    {
      reviews[position..]
    }

    /** `hasNext()`. */
    function HasNext(): (r: bool)
      requires Valid()
      reads this
      ensures r <==> Remaining() != []
    {
      position < |reviews|
    }

    /** `next()`: the review at the cursor, moving the cursor one step; at the
        end, an error and the cursor stays where it is. */
    method Next() returns (r: Result<Review, NoSuchElement>)
      requires Valid()
      modifies this
      ensures Valid()
      ensures old(HasNext()) ==> r == Ok(old(Remaining())[0]) && Remaining() == old(Remaining())[1..]
      ensures old(HasNext()) ==> position == old(position) + 1
      ensures !old(HasNext()) ==> r == Err(NoSuchElement) && position == old(position)
    {
      if !HasNext() {
        return Err(NoSuchElement);
      }
      r := Ok(reviews[position]);
      position := position + 1;
    }
  }

  /** Draining an iterator with `hasNext`/`next` yields the remaining reviews in
      order, one call to `next` per review, and leaves it exhausted. */
  method Drain(it: ReviewIterator) returns (out: seq<Review>, calls: nat)
    requires it.Valid()
    modifies it
    ensures it.Valid() && !it.HasNext()
    ensures out == old(it.Remaining())
    ensures calls == |out|
  {
    out, calls := [], 0;
    ghost var start := it.position;
    while it.HasNext()
      invariant it.Valid() && start <= it.position
      invariant out == it.reviews[start..it.position]
      invariant calls == it.position - start
      decreases |it.reviews| - it.position
    {
      var r := it.Next();
      out := out + [r.value];
      calls := calls + 1;
    }
  }
}
