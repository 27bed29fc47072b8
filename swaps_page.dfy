/** The "My Swaps" page's pure helpers: the tab filter and counts, the
    partner shown on each card, the buttons a card offers, the rating
    payload it sends and the avatar initials. */
module SwapsPage {
  import opened Common
  import opened Text
  import opened ClientApi
  import SwapSchema
  import SwapService
  import opened RatingDto

  /** `activeTab`: one of three tabs, each showing one status. */
  datatype Tab = PendingTab | AcceptedTab | CompletedTab

  function TabStatus(tab: Tab): SwapSchema.SwapStatus {
    match tab
    case PendingTab => SwapSchema.Pending
    case AcceptedTab => SwapSchema.Accepted
    case CompletedTab => SwapSchema.Completed
  }

  /** The badge on a tab: the number of loaded swaps with its status. */
  function TabCount(swaps: seq<Swap>, tab: Tab): (n: nat)
    ensures n <= |swaps|
  {
    Count(swaps, (s: Swap) => s.status == TabStatus(tab))
  }

  /** `getFilteredSwaps()`: the loaded swaps whose status is the tab's, in
      the order loaded; as many as the tab's badge says. */
  function FilteredSwaps(swaps: seq<Swap>, tab: Tab): (r: seq<Swap>)
    ensures forall x :: x in r <==> x in swaps && x.status == TabStatus(tab)
    ensures multiset(r) <= multiset(swaps)
    ensures |r| == TabCount(swaps, tab)
  {
    FilterMembers(swaps, (s: Swap) => s.status == TabStatus(tab));
    Filter(swaps, (s: Swap) => s.status == TabStatus(tab))
  }

  /** Rejected and cancelled swaps are listed under no tab. */
  lemma ClosedSwapsInNoTab(swaps: seq<Swap>, tab: Tab, x: Swap)
    requires x.status == SwapSchema.Rejected || x.status == SwapSchema.Cancelled
    ensures x !in FilteredSwaps(swaps, tab)
  {
  }

  predicate Closed(s: Swap) {
    s.status == SwapSchema.Rejected || s.status == SwapSchema.Cancelled
  }

  /** The three badges and the swaps no tab shows add up to the whole
      list. */
  lemma {:induction false} TabCountsPartition(swaps: seq<Swap>)
    ensures TabCount(swaps, PendingTab) + TabCount(swaps, AcceptedTab) + TabCount(swaps, CompletedTab)
            + Count(swaps, Closed) == |swaps|
  {
    if swaps != [] {
      TabCountsPartition(swaps[1..]);
    }
  }

  /** `getSwapPartner(swap, currentUserId)`. */
  function SwapPartner(swap: Swap, currentUserId: Id): (r: User)
    ensures r == swap.requesterId || r == swap.providerId
    ensures r.id == currentUserId ==> swap.requesterId.id == currentUserId && swap.providerId.id == currentUserId
  {
    if swap.requesterId.id == currentUserId then swap.providerId else swap.requesterId
  }

  /** `isSwapSentByCurrentUser(swap, currentUserId)`. */
  predicate SentBy(swap: Swap, currentUserId: Id) {
    swap.requesterId.id == currentUserId
  }

  predicate IsParticipant(swap: Swap, userId: Id) {
    userId == swap.requesterId.id || userId == swap.providerId.id
  }

  /** The partner is the provider exactly when the current user sent the
      request, and the requester otherwise; for a participant of a swap
      between two different users it is the other participant. */
  lemma PartnerIsCounterpart(swap: Swap, currentUserId: Id)
    ensures SwapPartner(swap, currentUserId) == (if SentBy(swap, currentUserId) then swap.providerId else swap.requesterId)
    ensures IsParticipant(swap, currentUserId) && swap.requesterId.id != swap.providerId.id ==>
      && SwapPartner(swap, currentUserId).id != currentUserId
      && IsParticipant(swap, SwapPartner(swap, currentUserId).id)
  {
  }

  /** The partner a card shows: the provider when nobody is signed in. */
  function CardPartner(swap: Swap, currentUser: Option<User>): (p: User)
    ensures currentUser.None? ==> p == swap.providerId
    ensures currentUser.Some? ==> p == SwapPartner(swap, currentUser.value.id)
  {
    if currentUser.Some? then SwapPartner(swap, currentUser.value.id) else swap.providerId
  }

  /** Whether a card reads "Request sent to": never when nobody is signed in. */
  function CardSentByMe(swap: Swap, currentUser: Option<User>): (b: bool)
    ensures b <==> currentUser.Some? && SentBy(swap, currentUser.value.id)
  {
    currentUser.Some? && SentBy(swap, currentUser.value.id)
  }

  /** The user `submitRating` rates. */
  function RatedUserId(swap: Swap, currentUser: User): Id {
    if swap.requesterId.id == currentUser.id then swap.providerId.id else swap.requesterId.id
  }

  /** The rated user is the card's partner, so a participant of a swap
      between two different users rates the other one and never themself. */
  lemma {:induction false} RatedUserIsCounterpart(swap: Swap, currentUser: User)
    ensures RatedUserId(swap, currentUser) == SwapPartner(swap, currentUser.id).id
    ensures IsParticipant(swap, currentUser.id) && swap.requesterId.id != swap.providerId.id ==>
      RatedUserId(swap, currentUser) != currentUser.id && IsParticipant(swap, RatedUserId(swap, currentUser))
  {
    PartnerIsCounterpart(swap, currentUser.id);
  }

  /** `submitRating()`: nothing without a selected swap and a signed-in
      user; otherwise the payload for `POST /ratings`, the feedback as its
      comment and no tags. */
  function SubmitRating(selected: Option<Swap>, currentUser: Option<User>, rating: real, feedback: string)
    : (r: Option<CreateRatingDto>)
    ensures r.None? <==> selected.None? || currentUser.None?
    ensures r.Some? ==>
      && r.value.swapId == selected.value.id
      && r.value.ratedUserId == SwapPartner(selected.value, currentUser.value.id).id
      && r.value.rating == rating
      && r.value.comment == Some(feedback)
      && r.value.tags == Some([])
  {
    if selected.None? || currentUser.None? then None
    else
      RatedUserIsCounterpart(selected.value, currentUser.value);
      Some(CreateRatingDto(selected.value.id, RatedUserId(selected.value, currentUser.value),
                           rating, Some(feedback), Some([])))
  }

  /** The submit button is disabled until a star is chosen. */
  predicate SubmitDisabled(rating: real) {
    rating == 0.0
  }

  /** Any payload the page sends with one to five stars passes the rating
      validation unchanged. */
  lemma {:induction false} SubmittedRatingValidates(selected: Option<Swap>, currentUser: Option<User>, rating: real, feedback: string)
    requires selected.Some? && currentUser.Some?
    requires 1.0 <= rating <= 5.0
    ensures !SubmitDisabled(rating)
    ensures SubmitRating(selected, currentUser, rating, feedback).Some?
    ensures ParseCreateRating(EncodeCreateRating(SubmitRating(selected, currentUser, rating, feedback).value))
         == Ok(SubmitRating(selected, currentUser, rating, feedback).value)
  {
    CreateRatingRoundTrip(SubmitRating(selected, currentUser, rating, feedback).value);
  }

  /** Accept and Decline: on a pending swap not sent by the current user, or
      whose provider is the current user. */
  predicate ShowAcceptDecline(swap: Swap, currentUser: Option<User>)
    ensures ShowAcceptDecline(swap, currentUser) ==> swap.status == SwapSchema.Pending
    ensures (swap.status == SwapSchema.Pending && currentUser.Some? && currentUser.value.id == swap.providerId.id)
      ==> ShowAcceptDecline(swap, currentUser)
  {
    swap.status == SwapSchema.Pending
    && (!CardSentByMe(swap, currentUser) || (currentUser.Some? && currentUser.value.id == swap.providerId.id))
  }

  /** "Waiting for response...": on a pending swap the current user sent. */
  predicate ShowWaiting(swap: Swap, currentUser: Option<User>) {
    swap.status == SwapSchema.Pending && CardSentByMe(swap, currentUser)
  }

  /** Mark Complete: on an accepted swap. */
  predicate ShowComplete(swap: Swap) {
    swap.status == SwapSchema.Accepted
  }

  /** Rate Experience: on a completed swap. */
  predicate ShowRate(swap: Swap) {
    swap.status == SwapSchema.Completed
  }

  /** The server's view of a listed swap: the same participants and status. */
  predicate Mirrors(srv: SwapSchema.Swap, swap: Swap) {
    srv.requesterId == swap.requesterId.id && srv.providerId == swap.providerId.id && srv.status == swap.status
  }

  /** For a participant, Accept and Decline are offered exactly when the
      server's accept and reject guards let that user through. */
  lemma {:induction false} AcceptDeclineAgreesWithServer(swap: Swap, u: User, srv: SwapSchema.Swap)
    requires Mirrors(srv, swap)
    requires IsParticipant(swap, u.id)
    ensures ShowAcceptDecline(swap, Some(u)) <==> SwapService.Guard(SwapService.Accept, srv, u.id).None?
    ensures ShowAcceptDecline(swap, Some(u)) <==> SwapService.Guard(SwapService.Reject, srv, u.id).None?
    ensures ShowAcceptDecline(swap, Some(u)) <==> swap.status == SwapSchema.Pending && u.id == swap.providerId.id
  {
    if u.id == swap.providerId.id {
      assert srv.providerId == u.id;
    } else {
      assert SentBy(swap, u.id);
    }
  }

  /** A signed-in user who takes no part in a pending swap is still shown
      Accept and Decline, and the server refuses them. */
  lemma AcceptDeclineShownToOutsider(swap: Swap, u: User, srv: SwapSchema.Swap)
    requires Mirrors(srv, swap)
    requires swap.status == SwapSchema.Pending && !IsParticipant(swap, u.id)
    ensures ShowAcceptDecline(swap, Some(u))
    ensures SwapService.Guard(SwapService.Accept, srv, u.id) == Some(BadRequest(SwapService.OnlyProviderAccept))
  {
  }

  /** With nobody signed in, every pending card offers Accept and Decline
      and none shows the waiting note. */
  lemma AcceptDeclineSignedOut(swap: Swap)
    ensures ShowAcceptDecline(swap, None) <==> swap.status == SwapSchema.Pending
    ensures !ShowWaiting(swap, None)
  {
  }

  /** The waiting note and Accept/Decline appear together only on a swap
      someone sent to themself; each status offers at most one kind of
      action. */
  lemma ActionsExclusive(swap: Swap, currentUser: Option<User>)
    ensures ShowWaiting(swap, currentUser) && ShowAcceptDecline(swap, currentUser) ==>
      swap.requesterId.id == swap.providerId.id
    ensures ShowComplete(swap) ==> !ShowRate(swap) && !ShowAcceptDecline(swap, currentUser) && !ShowWaiting(swap, currentUser)
    ensures ShowRate(swap) ==> !ShowAcceptDecline(swap, currentUser) && !ShowWaiting(swap, currentUser)
    ensures Closed(swap) ==> !ShowAcceptDecline(swap, currentUser) && !ShowWaiting(swap, currentUser)
                             && !ShowComplete(swap) && !ShowRate(swap)
  {
  }

  /** The first character of every non-empty piece; `n[0]` of an empty piece
      is `undefined`, which `join('')` renders as nothing. */
  function Heads(pieces: seq<string>): (r: string)
    ensures |r| <= |pieces|
  {
    if pieces == [] then ""
    else (if pieces[0] == "" then "" else [pieces[0][0]]) + Heads(pieces[1..])
  }

  /** `getInitials(name)`: `name.split(' ').map(n => n[0]).join('')`, upper-cased. */
  function Initials(name: string): (r: string)
    ensures |r| <= Occurrences(name, ' ') + 1
    ensures forall i :: 0 <= i < |r| ==> !('a' <= r[i] <= 'z')
  {
    Upper(Heads(Split(name, ' ')))
  }

  lemma {:induction false} HeadsOfWords(words: seq<string>)
    requires forall k :: 0 <= k < |words| ==> words[k] != ""
    ensures Heads(words) == seq(|words|, k requires 0 <= k < |words| => words[k][0])
  {
    if words != [] {
      HeadsOfWords(words[1..]);
    }
  }

  /** For words that are non-empty and free of spaces, the initials of the
      words joined by single spaces are the words' first characters,
      upper-cased, one per word. */
  lemma {:induction false} InitialsOfWords(words: seq<string>)
    requires |words| >= 1
    requires forall k :: 0 <= k < |words| ==> words[k] != "" && ' ' !in words[k]
    ensures Initials(Join(words, ' ')) == seq(|words|, k requires 0 <= k < |words| => UpperChar(words[k][0]))
  {
    SplitJoin(words, ' ');
    HeadsOfWords(words);
  }

  /** The avatar of a partner with a one-word first and last name shows two
      letters. */
  lemma {:induction false} CardInitials(first: string, last: string)
    requires first != "" && ' ' !in first && last != "" && ' ' !in last
    ensures Initials(first + " " + last) == [UpperChar(first[0]), UpperChar(last[0])]
  {
    var words := [first, last];
    assert Join(words, ' ') == first + " " + last by {
      assert words[1..] == [last];
    }
    InitialsOfWords(words);
  }

  /** Extra spaces add no letters: an empty name has no initials, and
      neither has a name of spaces only. */
  lemma {:induction false} BlankNameNoInitials(n: nat)
    ensures Initials(seq(n, _ => ' ')) == ""
  {
    var s := seq(n, _ => ' ');
    BlankHeads(s);
  }

  lemma {:induction false} BlankHeads(s: string)
    requires forall i :: 0 <= i < |s| ==> s[i] == ' '
    ensures Heads(Split(s, ' ')) == ""
  {
    if s != [] {
      BlankHeads(s[1..]);
      var rest := Split(s[1..], ' ');
      assert Split(s, ' ') == [""] + rest;
      assert ([""] + rest)[1..] == rest;
    }
  }
}
