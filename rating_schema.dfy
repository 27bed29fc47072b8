/** The persisted rating record: three required references, a required
    value between 1 and 5, an optional comment and a tag list that defaults
    to empty. */
module RatingSchema {
  import opened Common

  /** A rating document. `rating` is a JavaScript number: nothing makes it
      whole, so it is a real here. */
  datatype Rating = Rating(
    id: Id,
    swapId: Id,
    raterId: Id,
    ratedUserId: Id,
    rating: real,
    comment: Option<string>,
    tags: seq<string>,
    createdAt: Time,
    updatedAt: Time)

  /** The `min: 1, max: 5` bounds of the `rating` path. */
  predicate InRange(v: real) {
    1.0 <= v <= 5.0
  }

  /** A document built from the given fields and saved at `now`. A value
      outside 1..5 fails the save on the `rating` path; absent tags take
      their empty default. */
  function NewRating(id: Id, swapId: Id, raterId: Id, ratedUserId: Id, rating: real,
                     comment: Option<string>, tags: Option<seq<string>>, now: Time): (r: Result<Rating>)
    ensures r.Ok? <==> InRange(rating)
    ensures r.Err? ==> r.error == SchemaViolation("rating")
    ensures r.Ok? ==>
      && r.value.id == id && r.value.swapId == swapId && r.value.raterId == raterId
      && r.value.ratedUserId == ratedUserId && r.value.rating == rating && r.value.comment == comment
      && r.value.tags == (if tags.Some? then tags.value else [])
      && r.value.createdAt == now && r.value.updatedAt == now
  {
    if !InRange(rating) then Err(SchemaViolation("rating"))
    else Ok(Rating(id, swapId, raterId, ratedUserId, rating, comment, tags.GetOr([]), now, now))
  }
}
