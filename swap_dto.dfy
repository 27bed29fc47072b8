/** The request payloads of the swap endpoints and the validation their
    decorators perform. The ISO 8601 recogniser behind `@IsDateString()` is a
    parameter (`isIsoDate`): it belongs to the validation library. */
module SwapDto {
  import opened Common
  import opened Wire
  import opened SwapSchema

  /** The body of `POST /swaps`. It names no requester (that is the caller)
      and no status (that is the schema default). */
  datatype CreateSwapDto = CreateSwapDto(
    providerId: string,
    requestedSkill: string,
    offeredSkill: string,
    message: Option<string>,
    scheduledDate: Option<string>)

  /** The body of `PATCH /swaps/:id`: every field optional, and none that
      names a participant or a skill. */
  datatype UpdateSwapDto = UpdateSwapDto(
    status: Option<SwapStatus>,
    message: FieldUpdate<string>,
    scheduledDate: FieldUpdate<string>)

  const CreateFields: set<string> := {"providerId", "requestedSkill", "offeredSkill", "message", "scheduledDate"}
  const UpdateFields: set<string> := {"status", "message", "scheduledDate"}

  /** `@IsString()` on a required field. */
  function RequiredStringErrors(body: Body, field: string): seq<string> {
    if StringAt(body, field) then [] else [MustBeString(field)]
  }

  /** `@IsOptional() @IsString()`. */
  function OptionalStringErrors(body: Body, field: string): seq<string> {
    if Absent(body, field) || StringAt(body, field) then [] else [MustBeString(field)]
  }

  /** `@IsOptional() @IsDateString()`. */
  function OptionalDateErrors(body: Body, field: string, isIsoDate: string -> bool): seq<string> {
    if Absent(body, field) || (StringAt(body, field) && isIsoDate(body[field].str)) then []
    else [MustBeIsoDate(field)]
  }

  /** The message for a failed `@IsEnum(SwapStatus)`. */
  function MustBeStatus(field: string): string {
    field + " must be one of the following values: pending, accepted, rejected, completed, cancelled"
  }

  /** `@IsOptional() @IsEnum(SwapStatus)`. */
  function OptionalStatusErrors(body: Body, field: string): seq<string> {
    if Absent(body, field) || (StringAt(body, field) && ParseStatus(body[field].str).Some?) then []
    else [MustBeStatus(field)]
  }

  /** The constraint messages a `CreateSwapDto` body fails, field by field. */
  function CreateSwapErrors(body: Body, isIsoDate: string -> bool): seq<string> {
    RequiredStringErrors(body, "providerId")
    + RequiredStringErrors(body, "requestedSkill")
    + RequiredStringErrors(body, "offeredSkill")
    + OptionalStringErrors(body, "message")
    + OptionalDateErrors(body, "scheduledDate", isIsoDate)
  }

  /** Validates a `POST /swaps` body: the three required strings must be
      strings, `message` a string if given, `scheduledDate` an ISO date string
      if given. */
  function ParseCreateSwap(body: Body, isIsoDate: string -> bool): (r: Result<CreateSwapDto>)
    ensures r.Ok? <==>
      && StringAt(body, "providerId") && StringAt(body, "requestedSkill") && StringAt(body, "offeredSkill")
      && (Absent(body, "message") || StringAt(body, "message"))
      && (Absent(body, "scheduledDate") || (StringAt(body, "scheduledDate") && isIsoDate(body["scheduledDate"].str)))
    ensures r.Err? ==> r.error == Invalid(CreateSwapErrors(body, isIsoDate)) && r.error.messages != []
    ensures r.Ok? ==>
      && body["providerId"] == JString(r.value.providerId)
      && body["requestedSkill"] == JString(r.value.requestedSkill)
      && body["offeredSkill"] == JString(r.value.offeredSkill)
      && r.value.message == OptString(body, "message")
      && r.value.scheduledDate == OptString(body, "scheduledDate")
  {
    var errors := CreateSwapErrors(body, isIsoDate);
    if errors != [] then Err(Invalid(errors))
    else Ok(CreateSwapDto(body["providerId"].str, body["requestedSkill"].str, body["offeredSkill"].str,
                          OptString(body, "message"), OptString(body, "scheduledDate")))
  }

  /** The JSON body a client sends for a `CreateSwapDto`. */
  function EncodeCreateSwap(dto: CreateSwapDto): Body {
    var required := map["providerId" := JString(dto.providerId),
                        "requestedSkill" := JString(dto.requestedSkill),
                        "offeredSkill" := JString(dto.offeredSkill)];
    PutOptString(PutOptString(required, "message", dto.message), "scheduledDate", dto.scheduledDate)
  }

  /** A payload whose date, if any, is an ISO date validates as itself. */
  lemma CreateSwapRoundTrip(dto: CreateSwapDto, isIsoDate: string -> bool)
    requires dto.scheduledDate.Some? ==> isIsoDate(dto.scheduledDate.value)
    ensures ParseCreateSwap(EncodeCreateSwap(dto), isIsoDate) == Ok(dto)
  {
    var body := EncodeCreateSwap(dto);
    assert StringAt(body, "providerId") && StringAt(body, "requestedSkill") && StringAt(body, "offeredSkill");
  }

  /** Validation looks at the five declared fields only. */
  lemma CreateSwapIgnoresOtherFields(body: Body, field: string, v: JsonValue, isIsoDate: string -> bool)
    requires field !in CreateFields
    ensures ParseCreateSwap(body[field := v], isIsoDate) == ParseCreateSwap(body, isIsoDate)
  {
    var body' := body[field := v];
    assert Agree(body', body, "providerId") && Agree(body', body, "requestedSkill")
        && Agree(body', body, "offeredSkill") && Agree(body', body, "message")
        && Agree(body', body, "scheduledDate");
    SameFieldsSameCreate(body', body, isIsoDate);
  }

  lemma SameFieldsSameCreate(b1: Body, b2: Body, isIsoDate: string -> bool)
    requires Agree(b1, b2, "providerId") && Agree(b1, b2, "requestedSkill") && Agree(b1, b2, "offeredSkill")
    requires Agree(b1, b2, "message") && Agree(b1, b2, "scheduledDate")
    ensures ParseCreateSwap(b1, isIsoDate) == ParseCreateSwap(b2, isIsoDate)
  {
    AgreeSameRequiredErrors(b1, b2, "providerId");
    AgreeSameRequiredErrors(b1, b2, "requestedSkill");
    AgreeSameRequiredErrors(b1, b2, "offeredSkill");
    AgreeSameStringErrors(b1, b2, "message");
    AgreeSameDateErrors(b1, b2, "scheduledDate", isIsoDate);
    assert CreateSwapErrors(b1, isIsoDate) == CreateSwapErrors(b2, isIsoDate);
  }

  /** The constraint messages an `UpdateSwapDto` body fails. */
  function UpdateSwapErrors(body: Body, isIsoDate: string -> bool): seq<string> {
    OptionalStatusErrors(body, "status")
    + OptionalStringErrors(body, "message")
    + OptionalDateErrors(body, "scheduledDate", isIsoDate)
  }

  /** Validates a `PATCH /swaps/:id` body: every field may be left out or
      `null`; a given status must name a member of the enumeration. A
      message or date left out is kept, a `null` one is cleared. */
  function ParseUpdateSwap(body: Body, isIsoDate: string -> bool): (r: Result<UpdateSwapDto>)
    ensures r.Ok? <==>
      && (Absent(body, "status") || (StringAt(body, "status") && ParseStatus(body["status"].str).Some?))
      && (Absent(body, "message") || StringAt(body, "message"))
      && (Absent(body, "scheduledDate") || (StringAt(body, "scheduledDate") && isIsoDate(body["scheduledDate"].str)))
    ensures r.Err? ==> r.error == Invalid(UpdateSwapErrors(body, isIsoDate)) && r.error.messages != []
    ensures r.Ok? && r.value.status.Some? ==> "status" in body && body["status"] == JString(StatusName(r.value.status.value))
    ensures r.Ok? ==> (r.value.status.None? <==> Absent(body, "status"))
    ensures r.Ok? ==> (r.value.message.Keep? <==> "message" !in body)
    ensures r.Ok? ==> (r.value.message.Clear? <==> "message" in body && body["message"] == JNull)
    ensures r.Ok? && r.value.message.SetTo? ==> "message" in body && body["message"] == JString(r.value.message.value)
    ensures r.Ok? ==> (r.value.scheduledDate.Keep? <==> "scheduledDate" !in body)
    ensures r.Ok? ==> (r.value.scheduledDate.Clear? <==> "scheduledDate" in body && body["scheduledDate"] == JNull)
    ensures r.Ok? && r.value.scheduledDate.SetTo? ==>
      && "scheduledDate" in body && body["scheduledDate"] == JString(r.value.scheduledDate.value)
      && isIsoDate(r.value.scheduledDate.value)
  {
    var errors := UpdateSwapErrors(body, isIsoDate);
    UpdateSwapErrorsEmpty(body, isIsoDate);
    if errors != [] then Err(Invalid(errors))
    else
      var status := if StringAt(body, "status") then ParseStatus(body["status"].str) else None;
      StringUpdateCases(body, "message");
      StringUpdateCases(body, "scheduledDate");
      Ok(UpdateSwapDto(status, StringUpdate(body, "message"), StringUpdate(body, "scheduledDate")))
  }

  /** An update body passes validation exactly when each field passes its
      own constraint. */
  lemma UpdateSwapErrorsEmpty(body: Body, isIsoDate: string -> bool)
    ensures UpdateSwapErrors(body, isIsoDate) == [] <==>
      && (Absent(body, "status") || (StringAt(body, "status") && ParseStatus(body["status"].str).Some?))
      && (Absent(body, "message") || StringAt(body, "message"))
      && (Absent(body, "scheduledDate") || (StringAt(body, "scheduledDate") && isIsoDate(body["scheduledDate"].str)))
  {
    var a := OptionalStatusErrors(body, "status");
    var b := OptionalStringErrors(body, "message");
    var c := OptionalDateErrors(body, "scheduledDate", isIsoDate);
    assert UpdateSwapErrors(body, isIsoDate) == a + b + c;
    assert |a + b + c| == |a| + |b| + |c|;
  }

  /** Update validation looks at its three declared fields only: a body
      naming a participant or a skill is read as if those keys were not there. */
  lemma UpdateSwapIgnoresOtherFields(body: Body, field: string, v: JsonValue, isIsoDate: string -> bool)
    requires field !in UpdateFields
    ensures ParseUpdateSwap(body[field := v], isIsoDate) == ParseUpdateSwap(body, isIsoDate)
  {
    var body' := body[field := v];
    assert Agree(body', body, "status") && Agree(body', body, "message") && Agree(body', body, "scheduledDate");
    SameFieldsSameUpdate(body', body, isIsoDate);
  }

  /** `b1` and `b2` hold the same value (or none) under `f`. */
  predicate Agree(b1: Body, b2: Body, f: string) {
    (f in b1 <==> f in b2) && (f in b1 ==> b1[f] == b2[f])
  }

  /** Two bodies that agree on the update fields validate alike. */
  lemma SameFieldsSameUpdate(b1: Body, b2: Body, isIsoDate: string -> bool)
    requires Agree(b1, b2, "status") && Agree(b1, b2, "message") && Agree(b1, b2, "scheduledDate")
    ensures ParseUpdateSwap(b1, isIsoDate) == ParseUpdateSwap(b2, isIsoDate)
  {
    SameUpdateErrors(b1, b2, isIsoDate);
    SameUpdateValues(b1, b2);
  }

  lemma SameUpdateErrors(b1: Body, b2: Body, isIsoDate: string -> bool)
    requires Agree(b1, b2, "status") && Agree(b1, b2, "message") && Agree(b1, b2, "scheduledDate")
    ensures UpdateSwapErrors(b1, isIsoDate) == UpdateSwapErrors(b2, isIsoDate)
  {
    AgreeSameStatusErrors(b1, b2, "status");
    AgreeSameStringErrors(b1, b2, "message");
    AgreeSameDateErrors(b1, b2, "scheduledDate", isIsoDate);
  }

  lemma AgreeSameStatusErrors(b1: Body, b2: Body, f: string)
    requires Agree(b1, b2, f)
    ensures OptionalStatusErrors(b1, f) == OptionalStatusErrors(b2, f)
  {
    assert Absent(b1, f) <==> Absent(b2, f);
    assert StringAt(b1, f) <==> StringAt(b2, f);
    if StringAt(b1, f) {
      var t := b1[f].str;
      assert b2[f].str == t;
      assert ParseStatus(b1[f].str) == ParseStatus(b2[f].str);
    }
  }

  lemma AgreeSameRequiredErrors(b1: Body, b2: Body, f: string)
    requires Agree(b1, b2, f)
    ensures RequiredStringErrors(b1, f) == RequiredStringErrors(b2, f)
  {
    if f in b1 {
      assert b1[f] == b2[f];
    }
  }

  lemma AgreeSameStringErrors(b1: Body, b2: Body, f: string)
    requires Agree(b1, b2, f)
    ensures OptionalStringErrors(b1, f) == OptionalStringErrors(b2, f)
  {
    if f in b1 {
      assert b1[f] == b2[f];
    }
  }

  lemma AgreeSameDateErrors(b1: Body, b2: Body, f: string, isIsoDate: string -> bool)
    requires Agree(b1, b2, f)
    ensures OptionalDateErrors(b1, f, isIsoDate) == OptionalDateErrors(b2, f, isIsoDate)
  {
    if f in b1 {
      assert b1[f] == b2[f];
    }
  }


  lemma SameUpdateValues(b1: Body, b2: Body)
    requires Agree(b1, b2, "status") && Agree(b1, b2, "message") && Agree(b1, b2, "scheduledDate")
    ensures (if StringAt(b1, "status") then ParseStatus(b1["status"].str) else None)
         == (if StringAt(b2, "status") then ParseStatus(b2["status"].str) else None)
    ensures StringUpdate(b1, "message") == StringUpdate(b2, "message")
    ensures StringUpdate(b1, "scheduledDate") == StringUpdate(b2, "scheduledDate")
  {
  }

  /** The empty body is a valid update that changes nothing. */
  lemma EmptyUpdateIsValid(isIsoDate: string -> bool)
    ensures ParseUpdateSwap(map[], isIsoDate) == Ok(UpdateSwapDto(None, Keep, Keep))
  {
  }

  /** `{"message": null}` is a valid update, one that clears the message. */
  lemma NullMessageClears(isIsoDate: string -> bool)
    ensures ParseUpdateSwap(map["message" := JNull], isIsoDate) == Ok(UpdateSwapDto(None, Clear, Keep))
  {
    var body := map["message" := JNull];
    assert "status" !in body && "scheduledDate" !in body;
    assert UpdateSwapErrors(body, isIsoDate) == [];
    assert StringUpdate(body, "message") == Clear;
  }
}
