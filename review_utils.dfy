/** backend/.../util/ReviewUtils.java: an iterator over a product's reviews, the
    reviews ordered from the highest rating to the lowest, and the rating total
    and count behind the average rating. */
module ReviewTools {
  import opened Wrappers
  import opened Catalog
  import opened Reviews

  /** A product's reviews, a null list read as the empty one. */
  function ReviewsOf(product: Product): (r: seq<Review>)
    ensures product.reviews.None? ==> r == []
    ensures product.reviews.Some? ==> r == product.reviews.value
  {
    if product.reviews.Some? then product.reviews.value else []
  }

  /** `getReviewIterator(product)`: a fresh iterator at the start of the
      product's reviews, or of an empty list when they are null. */
  method GetReviewIterator(product: Product) returns (it: ReviewIterator)
    ensures fresh(it) && it.Valid()
    ensures it.reviews == ReviewsOf(product) && it.position == 0
  {
    it := new ReviewIterator(if product.reviews.Some? then product.reviews.value else []);
  }

  /** From the highest rating to the lowest. */
  ghost predicate NonIncreasing(s: seq<Review>) {
    forall i, j :: 0 <= i < j < |s| ==> s[i].rating >= s[j].rating
  }

  /** The reviews with one given rating, in their order in `s`. */
  function WithRating(s: seq<Review>, rating: int): (r: seq<Review>)
    ensures |r| <= |s|
    ensures forall x :: x in r ==> x in s && x.rating == rating
  {
    if s == [] then []
    else if s[0].rating == rating then [s[0]] + WithRating(s[1..], rating)
    else WithRating(s[1..], rating)
  }

  /** Puts `x` in front of the first review rated no higher than it. */
  function Insert(x: Review, sorted: seq<Review>): (r: seq<Review>)
    ensures |r| == |sorted| + 1
  {
    if sorted == [] || sorted[0].rating <= x.rating then [x] + sorted
    else [sorted[0]] + Insert(x, sorted[1..])
  }

  /** `new ArrayList<>(reviews)` sorted with the comparator
      `Integer.compare(r2.getRating(), r1.getRating())` by the stable `List.sort`:
      insertion of each review, from the last one back, into the sorted rest. */
  function SortByRating(s: seq<Review>): (r: seq<Review>)
    ensures |r| == |s|
  {
    if s == [] then [] else Insert(s[0], SortByRating(s[1..]))
  }

  lemma {:induction false} InsertNonIncreasing(x: Review, sorted: seq<Review>)
    requires NonIncreasing(sorted)
    ensures NonIncreasing(Insert(x, sorted))
    ensures Insert(x, sorted) != [] && (Insert(x, sorted)[0] == x || Insert(x, sorted)[0] == sorted[0])
  {
    if sorted != [] && sorted[0].rating > x.rating {
      var rest := sorted[1..];
      assert NonIncreasing(rest) by {
        forall i, j | 0 <= i < j < |rest| ensures rest[i].rating >= rest[j].rating {
          assert rest[i] == sorted[i + 1] && rest[j] == sorted[j + 1];
        }
      }
      InsertNonIncreasing(x, rest);
      var r := Insert(x, sorted);
      var tail := Insert(x, rest);
      assert r == [sorted[0]] + tail;
      forall i, j | 0 <= i < j < |r| ensures r[i].rating >= r[j].rating {
        if i == 0 {
          if j == 1 {
            assert r[1] == tail[0];
            if tail[0] != x {
              assert tail[0] == sorted[1];
            }
          } else {
            assert r[j] == tail[j - 1];
            assert tail[0].rating >= tail[j - 1].rating;
            assert r[1] == tail[0];
            if tail[0] != x {
              assert tail[0] == sorted[1];
            }
          }
        } else {
          assert r[i] == tail[i - 1] && r[j] == tail[j - 1];
        }
      }
    }
  }

  lemma {:induction false} InsertWithRating(x: Review, sorted: seq<Review>, rating: int)
    ensures WithRating(Insert(x, sorted), rating) ==
      if x.rating == rating then [x] + WithRating(sorted, rating) else WithRating(sorted, rating)
  {
    if sorted == [] || sorted[0].rating <= x.rating {
      assert Insert(x, sorted)[1..] == sorted;
    } else {
      InsertWithRating(x, sorted[1..], rating);
      assert Insert(x, sorted)[1..] == Insert(x, sorted[1..]);
    }
  }

  lemma {:induction false} InsertMultiset(x: Review, sorted: seq<Review>)
    ensures multiset(Insert(x, sorted)) == multiset(sorted) + multiset{x}
  {
    if sorted != [] && sorted[0].rating > x.rating {
      InsertMultiset(x, sorted[1..]);
      assert sorted == [sorted[0]] + sorted[1..];
    }
  }

  /** The sorted list runs from the highest rating to the lowest and holds the
      same reviews, each as often as before. */
  lemma {:induction false} SortIsOrderedPermutation(s: seq<Review>)
    ensures NonIncreasing(SortByRating(s))
    ensures multiset(SortByRating(s)) == multiset(s)
  {
    if s != [] {
      SortIsOrderedPermutation(s[1..]);
      InsertNonIncreasing(s[0], SortByRating(s[1..]));
      InsertMultiset(s[0], SortByRating(s[1..]));
      assert s == [s[0]] + s[1..];
    }
  }

  /** The sort is stable: reviews with equal ratings keep their original order. */
  lemma {:induction false} SortIsStable(s: seq<Review>, rating: int)
    ensures WithRating(SortByRating(s), rating) == WithRating(s, rating)
  {
    if s != [] {
      SortIsStable(s[1..], rating);
      InsertWithRating(s[0], SortByRating(s[1..]), rating);
    }
  }

  /** Why `getReviewsSortedByRating` fails: `new ArrayList<>(null)` throws. */
  datatype NullPointer = NullPointer

  /** `getReviewsSortedByRating` as written: a product whose review list is null
      makes the copy constructor throw. */
  function SortedByRatingAsWritten(product: Product): (r: Result<seq<Review>, NullPointer>)
    ensures r.Err? <==> product.reviews.None?
    ensures r.Ok? ==> r.value == SortByRating(product.reviews.value)
  {
    match product.reviews
    case None => Err(NullPointer)
    case Some(reviews) => Ok(SortByRating(reviews))
  }

  /** The two other helpers of the class read a null list as empty, the sort
      does not: for a product without reviews the iterator yields nothing but
      the sort throws. */
  lemma NullReviewsBreakSort()
    ensures var p := Product("p", "", "", 0.0, [], [], None);
      ReviewsOf(p) == [] && SortedByRatingAsWritten(p).Err?
  {
  }

  /** `getReviewsSortedByRating` with a null list read as empty, like the other
      helpers: a new ordered permutation of the product's reviews, stable for
      equal ratings; the product itself is a value and is left as it was. */
  function SortedByRating(product: Product): (r: seq<Review>)
    ensures NonIncreasing(r) && multiset(r) == multiset(ReviewsOf(product))
    ensures forall rating :: WithRating(r, rating) == WithRating(ReviewsOf(product), rating)
    ensures product.reviews.Some? ==> SortedByRatingAsWritten(product) == Ok(r)
  {
    var s := ReviewsOf(product);
    SortIsOrderedPermutation(s);
    forall rating ensures WithRating(SortByRating(s), rating) == WithRating(s, rating) {
      SortIsStable(s, rating);
    }
    SortByRating(s)
  }

  /** The sum of the ratings. */
  function SumRatings(s: seq<Review>): int {
    if s == [] then 0 else SumRatings(s[..|s| - 1]) + s[|s| - 1].rating
  }

  /** Ratings between `lo` and `hi` give a total between `lo` and `hi` times the count. */
  lemma {:induction false} SumRatingsBounds(s: seq<Review>, lo: int, hi: int)
    requires forall i :: 0 <= i < |s| ==> lo <= s[i].rating <= hi
    ensures lo * |s| <= SumRatings(s) <= hi * |s|
  {
    if s != [] {
      SumRatingsBounds(s[..|s| - 1], lo, hi);
    }
  }

  /** The integer part of `getAverageRating`: 0 and 0 for a null or empty list
      (the early return); otherwise the loop over the iterator, which ends with
      `sum` the total of the ratings and `count` the number of reviews. The
      average is `sum / count` in floating point. */
  method RatingTotals(product: Product) returns (sum: int, count: int)
    ensures sum == SumRatings(ReviewsOf(product)) && count == |ReviewsOf(product)|
    ensures ReviewsOf(product) == [] ==> sum == 0 && count == 0
  {
    if product.reviews.None? || product.reviews.value == [] {
      return 0, 0;
    }
    var it := GetReviewIterator(product);
    sum, count := 0, 0;
    while it.HasNext()
      invariant it.Valid() && it.reviews == ReviewsOf(product)
      invariant count == it.position
      invariant sum == SumRatings(it.reviews[..it.position])
      decreases |it.reviews| - it.position
    {
      var next := it.Next();
      assert it.reviews[..it.position][..it.position - 1] == it.reviews[..it.position - 1];
      sum := sum + next.value.rating;
      count := count + 1;
    }
    assert it.reviews[..it.position] == it.reviews;
  }
}
