/** The persisted swap record: its status enumeration, its fields and the
    defaults and `required` checks applied when a new record is saved. */
module SwapSchema {
  import opened Common

  datatype SwapStatus = Pending | Accepted | Rejected | Completed | Cancelled

  /** The string each status is stored and sent as. */
  function StatusName(s: SwapStatus): string {
    match s
    case Pending => "pending"
    case Accepted => "accepted"
    case Rejected => "rejected"
    case Completed => "completed"
    case Cancelled => "cancelled"
  }

  /** The enumeration's members in declaration order. */
  const AllStatuses: seq<SwapStatus> := [Pending, Accepted, Rejected, Completed, Cancelled]

  /** Reads a stored status string; anything but the five names is no
      member of the enumeration. */
  function ParseStatus(t: string): (r: Option<SwapStatus>)
    ensures r.Some? ==> StatusName(r.value) == t
  {
    if t == "pending" then Some(Pending)
    else if t == "accepted" then Some(Accepted)
    else if t == "rejected" then Some(Rejected)
    else if t == "completed" then Some(Completed)
    else if t == "cancelled" then Some(Cancelled)
    else None
  }

  /** The enumeration has exactly five members, all listed, with five
      distinct lowercase names that read back as themselves. */
  lemma StatusEnumeration()
    ensures |AllStatuses| == 5
    ensures forall s: SwapStatus :: s in AllStatuses
    ensures forall i, j :: 0 <= i < j < 5 ==> StatusName(AllStatuses[i]) != StatusName(AllStatuses[j])
    ensures forall s: SwapStatus :: ParseStatus(StatusName(s)) == Some(s)
    ensures forall t :: ParseStatus(t).Some? <==> t in ["pending", "accepted", "rejected", "completed", "cancelled"]
  {
    forall s: SwapStatus ensures s in AllStatuses {
      match s
      case Pending => assert AllStatuses[0] == s;
      case Accepted => assert AllStatuses[1] == s;
      case Rejected => assert AllStatuses[2] == s;
      case Completed => assert AllStatuses[3] == s;
      case Cancelled => assert AllStatuses[4] == s;
    }
  }

  /** The states no guarded transition leaves. */
  predicate IsTerminal(s: SwapStatus) {
    s == Rejected || s == Completed || s == Cancelled
  }

  /** A swap document. `id` is its `_id`; `createdAt` and `updatedAt` are
      the timestamps the schema maintains. */
  datatype Swap = Swap(
    id: Id,
    requesterId: Id,
    providerId: Id,
    requestedSkill: string,
    offeredSkill: string,
    status: SwapStatus,
    message: Option<string>,
    scheduledDate: Option<string>,
    completedDate: Option<Time>,
    requesterRating: Option<Id>,
    providerRating: Option<Id>,
    createdAt: Time,
    updatedAt: Time)

  /** A document built from the given fields and saved at `now`: the status
      takes its default, both timestamps are `now`, the unset optional fields
      stay unset. A `required` string that is empty fails the save, the first
      such path in declaration order being reported. */
  function NewSwap(id: Id, requesterId: Id, providerId: Id, requestedSkill: string, offeredSkill: string,
                   message: Option<string>, scheduledDate: Option<string>, now: Time): (r: Result<Swap>)
    ensures r.Ok? <==> requestedSkill != "" && offeredSkill != ""
    ensures requestedSkill == "" ==> r == Err(SchemaViolation("requestedSkill"))
    ensures requestedSkill != "" && offeredSkill == "" ==> r == Err(SchemaViolation("offeredSkill"))
    ensures r.Ok? ==>
      && r.value.id == id && r.value.requesterId == requesterId && r.value.providerId == providerId
      && r.value.requestedSkill == requestedSkill && r.value.offeredSkill == offeredSkill
      && r.value.status == Pending
      && r.value.message == message && r.value.scheduledDate == scheduledDate
      && r.value.completedDate.None? && r.value.requesterRating.None? && r.value.providerRating.None?
      && r.value.createdAt == now && r.value.updatedAt == now
  {
    if requestedSkill == "" then Err(SchemaViolation("requestedSkill"))
    else if offeredSkill == "" then Err(SchemaViolation("offeredSkill"))
    else Ok(Swap(id, requesterId, providerId, requestedSkill, offeredSkill, Pending,
                 message, scheduledDate, None, None, None, now, now))
  }
}
