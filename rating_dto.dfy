/** The body of `POST /ratings` and the validation its decorators perform. */
module RatingDto {
  import opened Common
  import opened Wire

  datatype CreateRatingDto = CreateRatingDto(
    swapId: string,
    ratedUserId: string,
    rating: real,
    comment: Option<string>,
    tags: Option<seq<string>>)

  const MustBeNumber := "rating must be a number conforming to the specified constraints"
  const BelowMin := "rating must not be less than 1"
  const AboveMax := "rating must not be greater than 5"
  const TagsMustBeArray := "tags must be an array"
  const EachTagMustBeString := "each value in tags must be a string"

  /** `@IsNumber() @Min(1) @Max(5)`: every constraint is checked, and a
      value that is no number fails all three. */
  function RatingValueErrors(body: Body): seq<string> {
    if NumberAt(body, "rating") then
      (if body["rating"].num < 1.0 then [BelowMin] else [])
      + (if body["rating"].num > 5.0 then [AboveMax] else [])
    else [MustBeNumber, BelowMin, AboveMax]
  }

  /** `@IsOptional() @IsArray() @IsString({ each: true })`: the string check
      runs over the elements of an array, and over the value itself
      otherwise. */
  function TagsErrors(body: Body): seq<string> {
    if Absent(body, "tags") then []
    else
      match body["tags"]
      case JArray(items) => if AllStrings(items) then [] else [EachTagMustBeString]
      case JString(_) => [TagsMustBeArray]
      case _ => [TagsMustBeArray, EachTagMustBeString]
  }

  function CreateRatingErrors(body: Body): seq<string> {
    (if StringAt(body, "swapId") then [] else [MustBeString("swapId")])
    + (if StringAt(body, "ratedUserId") then [] else [MustBeString("ratedUserId")])
    + RatingValueErrors(body)
    + (if Absent(body, "comment") || StringAt(body, "comment") then [] else [MustBeString("comment")])
    + TagsErrors(body)
  }

  /** The tag list of a body whose tags passed validation. */
  function TagsOf(body: Body): Option<seq<string>>
    requires TagsErrors(body) == []
  {
    if Absent(body, "tags") then None else Some(Strings(body["tags"].items))
  }

  /** Validates a `POST /ratings` body: two id strings, a number between 1
      and 5 (not necessarily whole), an optional comment string and an
      optional array of strings. */
  function ParseCreateRating(body: Body): (r: Result<CreateRatingDto>)
    ensures r.Ok? <==>
      && StringAt(body, "swapId") && StringAt(body, "ratedUserId")
      && NumberAt(body, "rating") && 1.0 <= body["rating"].num <= 5.0
      && (Absent(body, "comment") || StringAt(body, "comment"))
      && (Absent(body, "tags") || (body["tags"].JArray? && AllStrings(body["tags"].items)))
    ensures r.Err? ==> r.error == Invalid(CreateRatingErrors(body)) && r.error.messages != []
    ensures r.Ok? ==>
      && 1.0 <= r.value.rating <= 5.0
      && body["swapId"] == JString(r.value.swapId)
      && body["ratedUserId"] == JString(r.value.ratedUserId)
      && body["rating"] == JNumber(r.value.rating)
      && r.value.comment == OptString(body, "comment")
      && (r.value.tags.None? <==> Absent(body, "tags"))
      && (r.value.tags.Some? ==> body["tags"] == JArray(StringValues(r.value.tags.value)))
  {
    var errors := CreateRatingErrors(body);
    if errors != [] then Err(Invalid(errors))
    else
      var tags := TagsOf(body);
      assert tags.Some? ==> StringValues(tags.value) == body["tags"].items;
      Ok(CreateRatingDto(body["swapId"].str, body["ratedUserId"].str, body["rating"].num,
                         OptString(body, "comment"), tags))
  }

  /** The JSON body a client sends for a `CreateRatingDto`. */
  function EncodeCreateRating(dto: CreateRatingDto): Body {
    var required := map["swapId" := JString(dto.swapId),
                        "ratedUserId" := JString(dto.ratedUserId),
                        "rating" := JNumber(dto.rating)];
    var withComment := PutOptString(required, "comment", dto.comment);
    match dto.tags
    case Some(ts) => withComment["tags" := JArray(StringValues(ts))]
    case None => withComment - {"tags"}
  }

  /** A payload whose value lies between 1 and 5 validates as itself. */
  lemma CreateRatingRoundTrip(dto: CreateRatingDto)
    requires 1.0 <= dto.rating <= 5.0
    ensures ParseCreateRating(EncodeCreateRating(dto)) == Ok(dto)
  {
    var body := EncodeCreateRating(dto);
    assert StringAt(body, "swapId") && StringAt(body, "ratedUserId") && NumberAt(body, "rating");
    if dto.tags.Some? {
      assert body["tags"] == JArray(StringValues(dto.tags.value));
    }
  }

  /** Half stars pass validation: the value need not be whole. */
  lemma FractionalRatingAccepted()
    ensures ParseCreateRating(map["swapId" := JString("s"), "ratedUserId" := JString("u"),
                                  "rating" := JNumber(4.5)]).Ok?
  {
    var body := map["swapId" := JString("s"), "ratedUserId" := JString("u"), "rating" := JNumber(4.5)];
    assert StringAt(body, "swapId") && StringAt(body, "ratedUserId") && NumberAt(body, "rating");
  }

  /** A value out of range is reported by the bound it breaks. */
  lemma OutOfRangeMessages(body: Body)
    requires NumberAt(body, "rating")
    ensures body["rating"].num < 1.0 ==> BelowMin in CreateRatingErrors(body)
    ensures body["rating"].num > 5.0 ==> AboveMax in CreateRatingErrors(body)
    ensures 1.0 <= body["rating"].num <= 5.0 ==>
      BelowMin !in CreateRatingErrors(body) && AboveMax !in CreateRatingErrors(body)
  {
  }
}
