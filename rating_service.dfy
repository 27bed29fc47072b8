/** The rating collection: an append-only list of rating documents, the two
    lookups over it and the per-user average. `create` checks nothing about
    the swap: not that it is completed, not that the rater took part, not that
    the rater has not rated it already. Nor does it touch the rated user's
    `rating`/`totalRatings` fields. */
module RatingService {
  import opened Common
  import opened RatingSchema
  import opened RatingDto

  /** The sum of the values, `reduce((sum, r) => sum + r.rating, 0)`. */
  function Sum(rs: seq<Rating>): real {
    if rs == [] then 0.0 else rs[0].rating + Sum(rs[1..])
  }

  /** Every value lies between 1 and 5. */
  predicate AllInRange(rs: seq<Rating>) {
    forall i :: 0 <= i < |rs| ==> InRange(rs[i].rating)
  }

  /** `Math.round`: the nearest integer, halves rounded up. */
  function RoundHalfUp(x: real): (n: int)
    ensures n as real - 0.5 <= x < n as real + 0.5
  {
    (x + 0.5).Floor
  }

  /** What `getAverageRating` returns: the mean in hundredths and the number
      of ratings. */
  datatype Average = Average(hundredths: int, total: nat) {
    /** The `average` field as a number. */
    function Value(): real {
      hundredths as real / 100.0
    }
  }

  /** `getAverageRating` over the ratings of one user: 0 and 0 for none,
      otherwise the mean rounded half up to two decimals. */
  function AverageOf(rs: seq<Rating>): (a: Average)
    ensures a.total == |rs|
    ensures rs == [] ==> a == Average(0, 0)
    ensures rs != [] ==>
      var mean := Sum(rs) / |rs| as real;
      a.hundredths as real - 0.5 <= 100.0 * mean < a.hundredths as real + 0.5
  {
    if rs == [] then Average(0, 0)
    else Average(RoundHalfUp(100.0 * (Sum(rs) / |rs| as real)), |rs|)
  }

  lemma {:induction false} SumBounds(rs: seq<Rating>)
    requires AllInRange(rs)
    ensures |rs| as real <= Sum(rs) <= 5.0 * |rs| as real
  {
    if rs != [] {
      assert AllInRange(rs[1..]) by {
        forall i | 0 <= i < |rs[1..]| ensures InRange(rs[1..][i].rating) {
          assert rs[1..][i] == rs[i + 1];
        }
      }
      SumBounds(rs[1..]);
      assert InRange(rs[0].rating);
    }
  }

  lemma MeanBounds(total: real, n: real)
    requires n > 0.0 && n <= total <= 5.0 * n
    ensures 1.0 <= total / n <= 5.0
  {
    var m := total / n;
    assert m * n == total;
    assert (1.0 - m) * n == n - total;
    assert (m - 5.0) * n == total - 5.0 * n;
    if m < 1.0 {
      PositiveProduct(1.0 - m, n);
      assert false;
    }
    if m > 5.0 {
      PositiveProduct(m - 5.0, n);
      assert false;
    }
  }

  /** With every value between 1 and 5, so is the average, to the
      hundredth: between 1.00 and 5.00. */
  lemma {:induction false} AverageInRange(rs: seq<Rating>)
    requires rs != [] && AllInRange(rs)
    ensures 100 <= AverageOf(rs).hundredths <= 500
    ensures 1.0 <= AverageOf(rs).Value() <= 5.0
  {
    SumBounds(rs);
    var n := |rs| as real;
    var mean := Sum(rs) / n;
    MeanBounds(Sum(rs), n);
    var h := AverageOf(rs).hundredths;
    assert h as real - 0.5 <= 100.0 * mean < h as real + 0.5;
  }

  /** Three ratings 4, 5 and 5 average 4.67. */
  lemma AverageExample(a: Rating, b: Rating, c: Rating)
    requires a.rating == 4.0 && b.rating == 5.0 && c.rating == 5.0
    ensures AverageOf([a, b, c]) == Average(467, 3)
  {
    var rs := [a, b, c];
    assert rs[1..] == [b, c] && rs[1..][1..] == [c];
    assert Sum([c]) == 5.0 by { assert [c][1..] == []; }
    assert Sum(rs) == 4.0 + Sum([b, c]) == 4.0 + 5.0 + Sum([c]);
  }

  /** The store's invariant: every saved value passed the schema's bounds. */
  ghost predicate StoreValid(rs: seq<Rating>) {
    AllInRange(rs)
  }

  /** The rating collection. Documents are kept in insertion order. */
  class RatingStore {
    var ratings: seq<Rating>

    ghost predicate Valid()
      reads this
    {
      StoreValid(ratings)
    }

    constructor ()
      ensures Valid() && ratings == []
    {
      ratings := [];
    }

    /** `create(dto, raterId)`: saves one rating whose rater is the caller,
        the other fields copied from the payload. `newId` is the ObjectId the
        driver generates. */
    method Create(dto: CreateRatingDto, raterId: Id, newId: Id, now: Time) returns (r: Result<Rating>)
      requires Valid()
      modifies this
      ensures Valid()
      ensures r == NewRating(newId, dto.swapId, raterId, dto.ratedUserId, dto.rating, dto.comment, dto.tags, now)
      ensures r.Ok? ==> ratings == old(ratings) + [r.value]
      ensures r.Err? ==> ratings == old(ratings)
    {
      r := NewRating(newId, dto.swapId, raterId, dto.ratedUserId, dto.rating, dto.comment, dto.tags, now);
      if r.Ok? {
        ratings := ratings + [r.value];
      }
    }

    /** `findByUser(userId)`: the ratings the user received, in store order. */
    function FindByUser(userId: Id): (r: seq<Rating>)
      reads this
      ensures forall i :: 0 <= i < |r| ==> r[i].ratedUserId == userId && r[i] in ratings
      ensures forall i :: 0 <= i < |ratings| && ratings[i].ratedUserId == userId ==> ratings[i] in r
      ensures multiset(r) <= multiset(ratings)
    {
      Filter(ratings, (x: Rating) => x.ratedUserId == userId)
    }

    /** `findBySwap(swapId)`: the ratings given for the swap, in store order. */
    function FindBySwap(swapId: Id): (r: seq<Rating>)
      reads this
      ensures forall i :: 0 <= i < |r| ==> r[i].swapId == swapId && r[i] in ratings
      ensures forall i :: 0 <= i < |ratings| && ratings[i].swapId == swapId ==> ratings[i] in r
      ensures multiset(r) <= multiset(ratings)
    {
      Filter(ratings, (x: Rating) => x.swapId == swapId)
    }

    /** `getAverageRating(userId)`: the average of the ratings the user
        received and how many there are. */
    function GetAverageRating(userId: Id): (a: Average)
      reads this
      ensures a == AverageOf(FindByUser(userId))
      ensures a.total == Count(ratings, (x: Rating) => x.ratedUserId == userId)
    {
      AverageOf(FindByUser(userId))
    }
  }

  /** On a valid store, a user's average lies between 1.00 and 5.00 as soon
      as they have been rated at all. */
  lemma {:induction false} StoredAverageInRange(store: RatingStore, userId: Id)
    requires store.Valid()
    requires store.GetAverageRating(userId).total > 0
    ensures 100 <= store.GetAverageRating(userId).hundredths <= 500
  {
    var rs := store.FindByUser(userId);
    assert AllInRange(rs) by {
      forall i | 0 <= i < |rs| ensures InRange(rs[i].rating) {
        assert rs[i] in store.ratings;
      }
    }
    AverageInRange(rs);
  }

  /** A new rating for one user leaves every other user's average as it
      was, and adds one to the rated user's count. */
  lemma {:induction false} CreateOnlyAffectsRatedUser(rs: seq<Rating>, x: Rating, userId: Id)
    ensures var p := (y: Rating) => y.ratedUserId == userId;
            Filter(rs + [x], p) == Filter(rs, p) + (if x.ratedUserId == userId then [x] else [])
  {
    var p := (y: Rating) => y.ratedUserId == userId;
    FilterAppend(rs, [x], p);
    assert [x][1..] == [];
  }
}
