/** The swap ledger: a store of swap documents keyed by id, the queries over
    it, the unguarded `update`, and the four guarded transitions (accept,
    reject, complete, cancel). Each transition looks the swap up, checks the
    caller first and the current status second, and then writes the new
    status through `update`. */
module SwapService {
  import opened Common
  import opened SwapSchema
  import opened SwapDto

  const SwapNotFound := "Swap not found"
  const OnlyProviderAccept := "Only the provider can accept this swap"
  const OnlyProviderReject := "Only the provider can reject this swap"
  const NotPending := "Swap is not in pending status"
  const OnlyParticipantsComplete := "Only swap participants can complete this swap"
  const MustBeAccepted := "Swap must be accepted before completion"
  const OnlyParticipantsCancel := "Only swap participants can cancel this swap"
  const CannotCancel := "Swap cannot be cancelled in current status"

  /** The fields `update` writes; an absent field is left as it is, and the
      nullable message and date can also be cleared. The transitions pass a
      status (and, for completion, a completion date); `PATCH /swaps/:id`
      passes an `UpdateSwapDto`. */
  datatype SwapPatch = SwapPatch(
    status: Option<SwapStatus>,
    message: FieldUpdate<string>,
    scheduledDate: FieldUpdate<string>,
    completedDate: Option<Time>)

  function PatchOf(dto: UpdateSwapDto): SwapPatch {
    SwapPatch(dto.status, dto.message, dto.scheduledDate, None)
  }

  function Overwrite<T>(old_: T, new_: Option<T>): T {
    if new_.Some? then new_.value else old_
  }

  /** The document after `findByIdAndUpdate(id, patch)` at `now`. */
  function ApplyPatch(s: Swap, p: SwapPatch, now: Time): (r: Swap)
    ensures r.status == (if p.status.Some? then p.status.value else s.status)
    ensures p.message.Keep? ==> r.message == s.message
    ensures p.message.Clear? ==> r.message.None?
    ensures p.message.SetTo? ==> r.message == Some(p.message.value)
    ensures p.scheduledDate.Keep? ==> r.scheduledDate == s.scheduledDate
    ensures p.scheduledDate.Clear? ==> r.scheduledDate.None?
    ensures p.scheduledDate.SetTo? ==> r.scheduledDate == Some(p.scheduledDate.value)
    ensures r.completedDate == (if p.completedDate.Some? then p.completedDate else s.completedDate)
    ensures r.updatedAt == now
    ensures r == s.(status := r.status, message := r.message, scheduledDate := r.scheduledDate,
                    completedDate := r.completedDate, updatedAt := now)
  {
    s.(status := Overwrite(s.status, p.status),
       message := p.message.Apply(s.message),
       scheduledDate := p.scheduledDate.Apply(s.scheduledDate),
       completedDate := if p.completedDate.Some? then p.completedDate else s.completedDate,
       updatedAt := now)
  }

  /** The four guarded operations. */
  datatype Transition = Accept | Reject | Complete | Cancel

  predicate IsParticipant(s: Swap, userId: Id) {
    userId == s.requesterId || userId == s.providerId
  }

  /** The guard of a transition, in the order the service checks it: the
      caller first, then the status. `None` means the transition may go
      ahead. */
  function Guard(t: Transition, s: Swap, userId: Id): (r: Option<Error>)
    ensures r.Some? ==> r.value.BadRequest?
    ensures r.None? ==> IsParticipant(s, userId) && (s.status == Pending || s.status == Accepted)
  {
    match t
    case Accept =>
      if s.providerId != userId then Some(BadRequest(OnlyProviderAccept))
      else if s.status != Pending then Some(BadRequest(NotPending))
      else None
    case Reject =>
      if s.providerId != userId then Some(BadRequest(OnlyProviderReject))
      else if s.status != Pending then Some(BadRequest(NotPending))
      else None
    case Complete =>
      if !IsParticipant(s, userId) then Some(BadRequest(OnlyParticipantsComplete))
      else if s.status != Accepted then Some(BadRequest(MustBeAccepted))
      else None
    case Cancel =>
      if !IsParticipant(s, userId) then Some(BadRequest(OnlyParticipantsCancel))
      else if s.status != Pending && s.status != Accepted then Some(BadRequest(CannotCancel))
      else None
  }

  /** The transition table: who may fire each transition, from which
      statuses, and where it leads. */
  predicate MayActAs(t: Transition, s: Swap, userId: Id) {
    if t == Accept || t == Reject then userId == s.providerId else IsParticipant(s, userId)
  }

  predicate Enabled(t: Transition, from: SwapStatus) {
    match t
    case Accept => from == Pending
    case Reject => from == Pending
    case Complete => from == Accepted
    case Cancel => from == Pending || from == Accepted
  }

  function Target(t: Transition): SwapStatus {
    match t
    case Accept => Accepted
    case Reject => Rejected
    case Complete => Completed
    case Cancel => Cancelled
  }

  /** The write a permitted transition performs at `now`. */
  function TransitionPatch(t: Transition, now: Time): SwapPatch {
    SwapPatch(Some(Target(t)), Keep, Keep, if t == Complete then Some(now) else None)
  }

  /** The guard lets exactly the table's (caller, status) pairs through, and
      reports a bad caller before a bad status. */
  lemma {:induction false} GuardIsTable(t: Transition, s: Swap, userId: Id)
    ensures Guard(t, s, userId).None? <==> MayActAs(t, s, userId) && Enabled(t, s.status)
    ensures !MayActAs(t, s, userId) ==>
      Guard(t, s, userId) == Some(BadRequest(match t
        case Accept => OnlyProviderAccept
        case Reject => OnlyProviderReject
        case Complete => OnlyParticipantsComplete
        case Cancel => OnlyParticipantsCancel))
    ensures MayActAs(t, s, userId) && !Enabled(t, s.status) ==>
      Guard(t, s, userId) == Some(BadRequest(match t
        case Accept => NotPending
        case Reject => NotPending
        case Complete => MustBeAccepted
        case Cancel => CannotCancel))
  {
    match t
    case Accept =>
    case Reject =>
    case Complete =>
    case Cancel =>
  }

  /** As written, the guards compare `swap.providerId.toString()` (and the
      requester's) with the caller's id. `findById` has populated both
      references, so these are user documents, and a document's `toString`
      renders the whole document, not its id. The rendering is abbreviated
      here to its `_id` part; all that matters is that it opens with `{`. */
  function PopulatedToString(u: Id): (r: string)
    ensures |r| > 0 && r[0] == '{'
  {
    "{ _id: new ObjectId('" + u + "') }"
  }

  /** The caller's id as the token carries it: 24 hexadecimal digits. */
  predicate IsObjectIdHex(u: Id) {
    |u| == 24 && forall i :: 0 <= i < |u| ==> ('0' <= u[i] <= '9' || 'a' <= u[i] <= 'f')
  }

  /** The guard as the source writes it, comparing rendered documents with
      the caller's id. */
  function GuardAsWritten(t: Transition, s: Swap, userId: Id): (r: Option<Error>)
    ensures r.Some? ==> r.value.BadRequest?
    ensures r.None? ==> userId == PopulatedToString(s.providerId) || userId == PopulatedToString(s.requesterId)
  {
    var provider := PopulatedToString(s.providerId);
    var requester := PopulatedToString(s.requesterId);
    match t
    case Accept =>
      if provider != userId then Some(BadRequest(OnlyProviderAccept))
      else if s.status != Pending then Some(BadRequest(NotPending))
      else None
    case Reject =>
      if provider != userId then Some(BadRequest(OnlyProviderReject))
      else if s.status != Pending then Some(BadRequest(NotPending))
      else None
    case Complete =>
      if userId !in [requester, provider] then Some(BadRequest(OnlyParticipantsComplete))
      else if s.status != Accepted then Some(BadRequest(MustBeAccepted))
      else None
    case Cancel =>
      if userId !in [requester, provider] then Some(BadRequest(OnlyParticipantsCancel))
      else if s.status != Pending && s.status != Accepted then Some(BadRequest(CannotCancel))
      else None
  }

  /** As written, every guard turns every caller away with its "only the
      provider" or "only participants" message, whatever the swap. */
  lemma {:induction false} AsWrittenGuardRejectsEveryone(t: Transition, s: Swap, userId: Id)
    requires IsObjectIdHex(userId)
    ensures GuardAsWritten(t, s, userId) == Some(BadRequest(match t
        case Accept => OnlyProviderAccept
        case Reject => OnlyProviderReject
        case Complete => OnlyParticipantsComplete
        case Cancel => OnlyParticipantsCancel))
  {
    assert PopulatedToString(s.providerId) != userId by {
      assert PopulatedToString(s.providerId)[0] == '{';
    }
    assert PopulatedToString(s.requesterId) != userId by {
      assert PopulatedToString(s.requesterId)[0] == '{';
    }
  }

  /** A pending swap the caller was asked to provide: the intended guard
      lets the acceptance through, the written one does not. */
  lemma AsWrittenAcceptCounterexample()
    ensures var provider := "507f1f77bcf86cd799439011";
            var s := Swap("s1", "507f191e810c19729de860ea", provider, "Guitar", "Python",
                          Pending, None, None, None, None, None, 0, 0);
            && IsObjectIdHex(provider)
            && Guard(Accept, s, provider) == None
            && GuardAsWritten(Accept, s, provider) == Some(BadRequest(OnlyProviderAccept))
  {
    var provider := "507f1f77bcf86cd799439011";
    var s := Swap("s1", "507f191e810c19729de860ea", provider, "Guitar", "Python",
                  Pending, None, None, None, None, None, 0, 0);
    SampleProviderIsObjectId();
    IntendedGuardAcceptsSample();
    AsWrittenGuardRejectsEveryone(Accept, s, provider);
  }

  /** The counterexample's provider id has the shape of an ObjectId. */
  lemma SampleProviderIsObjectId()
    ensures IsObjectIdHex("507f1f77bcf86cd799439011")
  {
  }

  /** The intended guard lets the counterexample's provider accept. */
  lemma IntendedGuardAcceptsSample()
    ensures var provider := "507f1f77bcf86cd799439011";
            var s := Swap("s1", "507f191e810c19729de860ea", provider, "Guitar", "Python",
                          Pending, None, None, None, None, None, 0, 0);
            Guard(Accept, s, provider) == None
  {
  }

  /** What an operation returns, and the store it leaves behind. */
  datatype Outcome = Outcome(result: Result<Swap>, swaps: map<Id, Swap>)

  /** `update(id, patch)` on the store at `now`. */
  function UpdateOutcome(swaps: map<Id, Swap>, id: Id, p: SwapPatch, now: Time): (o: Outcome)
    ensures id !in swaps ==> o == Outcome(Err(NotFound(SwapNotFound)), swaps)
    ensures id in swaps ==>
      && o.result == Ok(ApplyPatch(swaps[id], p, now))
      && o.swaps == swaps[id := ApplyPatch(swaps[id], p, now)]
  {
    if id !in swaps then Outcome(Err(NotFound(SwapNotFound)), swaps)
    else
      var s := ApplyPatch(swaps[id], p, now);
      Outcome(Ok(s), swaps[id := s])
  }

  /** A transition on the store at `now`: look the swap up, run the guard,
      then write the target status. */
  function TransitionOutcome(swaps: map<Id, Swap>, id: Id, t: Transition, userId: Id, now: Time): (o: Outcome)
    ensures o.result.Ok? <==> id in swaps && MayActAs(t, swaps[id], userId) && Enabled(t, swaps[id].status)
    ensures o.result.Err? ==> o.swaps == swaps
    ensures id !in swaps ==> o.result == Err(NotFound(SwapNotFound))
    ensures o.result.Ok? ==>
      && o.result.value == swaps[id].(status := Target(t), updatedAt := now,
                                      completedDate := if t == Complete then Some(now) else swaps[id].completedDate)
      && o.swaps == swaps[id := o.result.value]
  {
    if id !in swaps then Outcome(Err(NotFound(SwapNotFound)), swaps)
    else
      GuardIsTable(t, swaps[id], userId);
      match Guard(t, swaps[id], userId)
      case Some(e) => Outcome(Err(e), swaps)
      case None => UpdateOutcome(swaps, id, TransitionPatch(t, now), now)
  }

  /** Terminal finality: no transition changes a rejected, completed or
      cancelled swap, whoever asks. */
  lemma TerminalIsFinal(swaps: map<Id, Swap>, id: Id, t: Transition, userId: Id, now: Time)
    requires id in swaps && IsTerminal(swaps[id].status)
    ensures TransitionOutcome(swaps, id, t, userId, now).result.Err?
    ensures TransitionOutcome(swaps, id, t, userId, now).swaps == swaps
  {
  }

  /** Every successful transition is an edge of the lifecycle graph
      pending -> accepted | rejected | cancelled, accepted -> completed |
      cancelled; in particular it never leads into `pending`. */
  lemma TransitionsFollowLifecycle(swaps: map<Id, Swap>, id: Id, t: Transition, userId: Id, now: Time)
    requires TransitionOutcome(swaps, id, t, userId, now).result.Ok?
    ensures var before := swaps[id].status;
            var after := TransitionOutcome(swaps, id, t, userId, now).result.value.status;
            (before == Pending && after in {Accepted, Rejected, Cancelled})
            || (before == Accepted && after in {Completed, Cancelled})
  {
  }

  /** A transition touches only the swap it names. */
  lemma TransitionIsLocal(swaps: map<Id, Swap>, id: Id, t: Transition, userId: Id, now: Time, other: Id)
    requires other != id
    ensures var o := TransitionOutcome(swaps, id, t, userId, now);
            o.swaps.Keys == swaps.Keys && (other in swaps ==> o.swaps[other] == swaps[other])
  {
  }

  /** One swap's life: its requester may not accept it; its provider
      accepts it; its requester then completes it, stamping the completion
      date; after that it can no longer be cancelled. */
  lemma {:induction false} LifecycleScenario(swaps: map<Id, Swap>, id: Id, t0: Time, t1: Time)
    requires id in swaps && swaps[id].status == Pending && swaps[id].requesterId != swaps[id].providerId
    ensures var s := swaps[id];
      && TransitionOutcome(swaps, id, Accept, s.requesterId, t0) == Outcome(Err(BadRequest(OnlyProviderAccept)), swaps)
      && var accepted := TransitionOutcome(swaps, id, Accept, s.providerId, t0);
      && accepted.result.Ok? && accepted.swaps[id].status == Accepted
      && var done := TransitionOutcome(accepted.swaps, id, Complete, s.requesterId, t1);
      && done.result.Ok? && done.swaps[id].status == Completed && done.swaps[id].completedDate == Some(t1)
      && TransitionOutcome(done.swaps, id, Cancel, s.requesterId, t1).result == Err(BadRequest(CannotCancel))
  {
    var s := swaps[id];
    GuardIsTable(Accept, s, s.requesterId);
    var accepted := TransitionOutcome(swaps, id, Accept, s.providerId, t0);
    var done := TransitionOutcome(accepted.swaps, id, Complete, s.requesterId, t1);
    GuardIsTable(Cancel, done.swaps[id], s.requesterId);
  }

  /** The store's invariant: every document is filed under its own id. */
  ghost predicate WellKeyed(swaps: map<Id, Swap>) {
    forall k :: k in swaps ==> swaps[k].id == k
  }

  /** The swap collection. */
  class SwapStore {
    var swaps: map<Id, Swap>

    ghost predicate Valid()
      reads this
    {
      WellKeyed(swaps)
    }

    constructor ()
      ensures Valid() && swaps == map[]
    {
      swaps := map[];
    }

    /** `create(dto, requesterId)`: a new pending swap whose requester is the
        caller. There is no check that the caller differs from the provider,
        nor that either skill belongs to anyone. `newId` is the ObjectId the
        driver generates, fresh by construction. */
    method Create(dto: CreateSwapDto, requesterId: Id, newId: Id, now: Time) returns (r: Result<Swap>)
      requires Valid() && newId !in swaps
      modifies this
      ensures Valid()
      ensures r == NewSwap(newId, requesterId, dto.providerId, dto.requestedSkill, dto.offeredSkill,
                           dto.message, dto.scheduledDate, now)
      ensures r.Ok? ==> swaps == old(swaps)[newId := r.value]
      ensures r.Err? ==> swaps == old(swaps)
    {
      r := NewSwap(newId, requesterId, dto.providerId, dto.requestedSkill, dto.offeredSkill,
                   dto.message, dto.scheduledDate, now);
      if r.Ok? {
        swaps := swaps[newId := r.value];
      }
    }

    /** `findAll()`: every stored swap. */
    function FindAll(): (r: set<Swap>)
      reads this
      ensures forall s :: s in r <==> exists k :: k in swaps && swaps[k] == s
    {
      swaps.Values
    }

    /** `findById(id)`. */
    function FindById(id: Id): (r: Result<Swap>)
      reads this
      ensures r.Ok? <==> id in swaps
      ensures r.Ok? ==> r.value == swaps[id]
      ensures r.Err? ==> r.error == NotFound(SwapNotFound)
    {
      if id in swaps then Ok(swaps[id]) else Err(NotFound(SwapNotFound))
    }

    /** `findByUser(userId)`: the swaps the user requested or was asked to
        provide. */
    function FindByUser(userId: Id): (r: set<Swap>)
      reads this
      ensures forall s :: s in r <==> s in swaps.Values && IsParticipant(s, userId)
    {
      set s | s in swaps.Values && IsParticipant(s, userId)
    }

    /** `update(id, dto)`: writes the given fields, with no caller and no
        status guard (it backs `PATCH /swaps/:id`). */
    method Update(id: Id, dto: UpdateSwapDto, now: Time) returns (r: Result<Swap>)
      requires Valid()
      modifies this
      ensures Valid()
      ensures Outcome(r, swaps) == UpdateOutcome(old(swaps), id, PatchOf(dto), now)
    {
      r := Write(id, PatchOf(dto), now);
    }

    method Write(id: Id, p: SwapPatch, now: Time) returns (r: Result<Swap>)
      requires Valid()
      modifies this
      ensures Valid()
      ensures Outcome(r, swaps) == UpdateOutcome(old(swaps), id, p, now)
    {
      if id !in swaps {
        return Err(NotFound(SwapNotFound));
      }
      var s := ApplyPatch(swaps[id], p, now);
      swaps := swaps[id := s];
      r := Ok(s);
    }

    /** `acceptSwap(id, userId)`. */
    method AcceptSwap(id: Id, userId: Id, now: Time) returns (r: Result<Swap>)
      requires Valid()
      modifies this
      ensures Valid()
      ensures Outcome(r, swaps) == TransitionOutcome(old(swaps), id, Accept, userId, now)
    {
      var found := FindById(id);
      if found.Err? {
        return Err(found.error);
      }
      var swap := found.value;
      if swap.providerId != userId {
        return Err(BadRequest(OnlyProviderAccept));
      }
      if swap.status != Pending {
        return Err(BadRequest(NotPending));
      }
      r := Write(id, TransitionPatch(Accept, now), now);
    }

    /** `rejectSwap(id, userId)`. */
    method RejectSwap(id: Id, userId: Id, now: Time) returns (r: Result<Swap>)
      requires Valid()
      modifies this
      ensures Valid()
      ensures Outcome(r, swaps) == TransitionOutcome(old(swaps), id, Reject, userId, now)
    {
      var found := FindById(id);
      if found.Err? {
        return Err(found.error);
      }
      var swap := found.value;
      if swap.providerId != userId {
        return Err(BadRequest(OnlyProviderReject));
      }
      if swap.status != Pending {
        return Err(BadRequest(NotPending));
      }
      r := Write(id, TransitionPatch(Reject, now), now);
    }

    /** `completeSwap(id, userId)`: also stamps the completion date. */
    method CompleteSwap(id: Id, userId: Id, now: Time) returns (r: Result<Swap>)
      requires Valid()
      modifies this
      ensures Valid()
      ensures Outcome(r, swaps) == TransitionOutcome(old(swaps), id, Complete, userId, now)
    {
      var found := FindById(id);
      if found.Err? {
        return Err(found.error);
      }
      var swap := found.value;
      if !(userId in [swap.requesterId, swap.providerId]) {
        return Err(BadRequest(OnlyParticipantsComplete));
      }
      if swap.status != Accepted {
        return Err(BadRequest(MustBeAccepted));
      }
      r := Write(id, TransitionPatch(Complete, now), now);
    }

    /** `cancelSwap(id, userId)`. */
    method CancelSwap(id: Id, userId: Id, now: Time) returns (r: Result<Swap>)
      requires Valid()
      modifies this
      ensures Valid()
      ensures Outcome(r, swaps) == TransitionOutcome(old(swaps), id, Cancel, userId, now)
    {
      var found := FindById(id);
      if found.Err? {
        return Err(found.error);
      }
      var swap := found.value;
      if !(userId in [swap.requesterId, swap.providerId]) {
        return Err(BadRequest(OnlyParticipantsCancel));
      }
      if swap.status != Pending && swap.status != Accepted {
        return Err(BadRequest(CannotCancel));
      }
      r := Write(id, TransitionPatch(Cancel, now), now);
    }
  }
}
