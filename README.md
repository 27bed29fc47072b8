# Skill-swap back end and client helpers, modelled in Dafny

This project models the core of a skill-exchange application. People list skills
they offer and skills they want. They find partners, propose a *swap* (teach one
skill in exchange for another) and move it through a request / accept / complete
lifecycle. Afterwards they rate each other.

The model covers the following:

- **Swap ledger** (`swap_schema.dfy`, `swap_dto.dfy`, `swap_service.dfy`).
  - The five-status enumeration and the swap document with its defaults.
  - Validation of the create and update payloads.
  - `SwapService.SwapStore`, a class holding `map<Id, Swap>`, with `create`, the queries, the unguarded `update`, and the four guarded transitions: accept, reject, complete and cancel.
  - Each transition checks the caller first, then the current status, then writes the new status.
  - The store's transitions use the intended caller check: a participant's id compared with the caller's. The check as written compares a populated document's `toString()` and refuses every caller; `SwapService.GuardAsWritten` models it, and "## Findings" below has the details.
  - Errors are `NotFound` / `BadRequest` values carrying the service's exact messages.
- **Ratings** (`rating_schema.dfy`, `rating_dto.dfy`, `rating_service.dfy`).
  - An append-only rating collection (a class over `seq<Rating>`) and its two lookups.
  - The per-user average, computed exactly in integer hundredths with half-up rounding.
- **Users and skills** (`user_service.dfy`, `skill_service.dfy`).
  - Stores with unique keys.
  - Registration that refuses a known e-mail.
  - Partial updates, soft deletion, skill search, smart matches limited to ten, and the popularity ranking limited to ten.
- **Client helpers**:
  - the directional match percentage (`client_api.dfy`);
  - the browse filter / score / sort pipeline (`browse.dfy`);
  - the My Swaps tab filter, partner choice, button visibility, rating payload and initials (`swaps_page.dfy`);
  - the admin statistics and the in-place recent-swaps sort (`admin_page.dfy`);
  - the profile form's skill-list editing (`user_form.dfy`);
  - the sign-up form handlers (`login_page.dfy`).
- **Shared pieces**:
  - `common.dfy`: ids, `Option`/`Result`, the error kinds, `filter`/`slice`/`findIndex`.
  - `text.dfy`: JavaScript `trim`, `split`, `join`, `includes` and ASCII case mapping.
  - `sorting.dfy`: a descending sort by key, both as a function and as an in-place insertion sort on an array.
  - `wire.dfy`: JSON request bodies.

The clock and freshly generated ObjectIds are parameters (`now`, `newId`). The
bcrypt hash of a new user's password is a parameter too. So is the ISO-8601
recogniser behind `@IsDateString()` (`isIsoDate`).

Behaviour of the code worth knowing:

- Swap creation has no self-swap check and no check that either skill belongs to anyone.
- Rating creation does not check that the swap is completed, that the rater took part, or that the rater has not already rated it.
- Rating creation does not update the rated user's `rating`/`totalRatings`.
- A rating need not be a whole number (`@IsNumber`, not `@IsInt`).
- The only scoring formula is the directional one, which is not symmetric.
- Wrong caller and wrong status are both `BadRequest`. There is no separate unauthorized or invalid-transition error, and no conflict error for races.

## Model

| member | source | states |
|---|---|---|
| SwapSchema.ParseStatus | server/src/schemas/swap.schema.ts:6-12 | only the five lowercase names are read back, each as the member it names |
| SwapSchema.StatusEnumeration | server/src/schemas/swap.schema.ts:6-12 | exactly five statuses, with five distinct lowercase names that parse back to themselves, and nothing else parses |
| SwapSchema.NewSwap | server/src/schemas/swap.schema.ts:14-44 | a saved swap is pending, has unset message/date/completion/rating fields unless given, and is stamped now; an empty required skill fails on its path |
| SwapDto.ParseCreateSwap | server/src/dto/swap.dto.ts:4-21 | a create body is accepted exactly when the three required fields are strings, message is absent or a string, and scheduledDate is absent or an ISO string; otherwise it fails with a non-empty list of messages |
| SwapDto.CreateSwapRoundTrip | server/src/dto/swap.dto.ts:4-21 | encoding a payload and validating it gives the payload back |
| SwapDto.CreateSwapIgnoresOtherFields | server/src/dto/swap.dto.ts:4-21 | keys other than the five declared ones (requesterId, status, …) do not affect validation |
| SwapDto.ParseUpdateSwap | server/src/dto/swap.dto.ts:23-35 | every update field may be left out or null; a given status must be one of the five names and is read as that member; a message or date left out is kept, a null one is cleared, a string one is set (the date only when ISO) |
| SwapDto.UpdateSwapIgnoresOtherFields | server/src/dto/swap.dto.ts:23-35 | an update body cannot change participants or skills: such keys are ignored |
| SwapDto.EmptyUpdateIsValid | server/src/dto/swap.dto.ts:23-35 | the empty body is a valid update that sets nothing |
| SwapDto.NullMessageClears | server/src/dto/swap.dto.ts:28-30 | `{"message": null}` passes validation and clears the message |
| SwapService.ApplyPatch | server/src/services/swap.service.ts:57-66 | update overwrites exactly the given fields (a null message or date clears it), refreshes updatedAt and leaves everything else alone |
| SwapService.UpdateOutcome | server/src/services/swap.service.ts:57-66 | update of an unknown id is NotFound 'Swap not found' with the store unchanged; otherwise only that swap is rewritten |
| SwapService.GuardIsTable | server/src/services/swap.service.ts:68-153 | under the intended caller check (as written, see GuardAsWritten and Findings): a transition's guard passes exactly for the allowed caller in an allowed status, and reports the caller error before the status error, with the exact messages |
| SwapService.TransitionOutcome | server/src/services/swap.service.ts:68-153 | under the intended caller check: a transition succeeds exactly when the swap exists, the caller may act and the status allows it; on success only status, updatedAt and (for completion) completedDate change; on failure the store is unchanged |
| SwapService.TerminalIsFinal | server/src/services/swap.service.ts:84-147 | no transition changes a rejected, completed or cancelled swap |
| SwapService.TransitionsFollowLifecycle | server/src/services/swap.service.ts:68-153 | every successful transition goes pending to accepted/rejected/cancelled or accepted to completed/cancelled |
| SwapService.TransitionIsLocal | server/src/services/swap.service.ts:57-66 | a transition touches no other swap and adds or removes no id |
| SwapService.LifecycleScenario | server/src/services/swap.service.ts:68-153 | under the intended caller check: the requester cannot accept; the provider accepts; the requester completes with the date stamped; a completed swap cannot be cancelled |
| SwapService.Guard | server/src/services/swap.service.ts:68-153 | the intended caller check: every refusal is a BadRequest, and a pass means the caller is a participant and the swap is pending or accepted (GuardIsTable gives the exact per-transition table) |
| SwapService.GuardAsWritten | server/src/services/swap.service.ts:79-147 | the check as written: every refusal is a BadRequest, and it passes only a caller whose id equals a participant's rendered document (AsWrittenGuardRejectsEveryone: no ObjectId caller passes) |
| SwapService.AsWrittenGuardRejectsEveryone | server/src/services/swap.service.ts:79-137 | comparing a populated participant's toString with the caller's id refuses every caller whose id is a 24-hex-digit ObjectId string |
| SwapService.AsWrittenAcceptCounterexample | server/src/services/swap.service.ts:79-82 | a provider accepting their own pending swap is refused by the guard as written and let through by the intended one |
| SwapService.SwapStore.Create | server/src/services/swap.service.ts:15-25 | a new pending swap whose requester is the caller is added under a fresh id; nothing else changes |
| SwapService.SwapStore.FindAll | server/src/services/swap.service.ts:27-32 | returns every stored swap |
| SwapService.SwapStore.FindById | server/src/services/swap.service.ts:34-43 | returns the stored swap, or NotFound 'Swap not found' |
| SwapService.SwapStore.FindByUser | server/src/services/swap.service.ts:45-55 | returns exactly the stored swaps where the user is requester or provider |
| SwapService.SwapStore.Update | server/src/services/swap.service.ts:57-66 | the unguarded update: the new store and result are UpdateOutcome's |
| SwapService.SwapStore.AcceptSwap | server/src/services/swap.service.ts:68-91 | under the intended caller check (as written, see Findings): provider-only, pending-only, leads to accepted; store and result are TransitionOutcome's |
| SwapService.SwapStore.RejectSwap | server/src/services/swap.service.ts:93-105 | under the intended caller check: provider-only, pending-only, leads to rejected |
| SwapService.SwapStore.CompleteSwap | server/src/services/swap.service.ts:107-128 | under the intended caller check: participants only, accepted-only, leads to completed and stamps completedDate |
| SwapService.SwapStore.CancelSwap | server/src/services/swap.service.ts:130-153 | under the intended caller check: participants only, from pending or accepted only, leads to cancelled |
| RatingSchema.NewRating | server/src/schemas/rating.schema.ts:6-24 | a rating saves exactly when its value lies in 1..5; fields are copied; tags default to empty |
| RatingDto.ParseCreateRating | server/src/dto/rating.dto.ts:10-30 | a rating body is accepted exactly when the ids are strings, rating is a number in [1,5], comment is absent or a string, and tags is absent or an array of strings |
| RatingDto.CreateRatingRoundTrip | server/src/dto/rating.dto.ts:10-30 | a payload with a value in [1,5] validates as itself |
| RatingDto.FractionalRatingAccepted | server/src/dto/rating.dto.ts:17-20 | 4.5 passes validation: whole numbers are not required |
| RatingDto.OutOfRangeMessages | server/src/dto/rating.dto.ts:17-20 | a value below 1 or above 5 is reported by the bound it breaks, and an in-range value by neither |
| RatingService.RoundHalfUp | server/src/services/rating.service.ts:54 | Math.round: the result lies within half of the input, with halves rounding up |
| RatingService.AverageOf | server/src/services/rating.service.ts:47-54 | no ratings give average 0 and total 0; otherwise total is the count and the average is the mean rounded to hundredths |
| RatingService.AverageInRange | server/src/services/rating.service.ts:51-54 | with every value in 1..5, the rounded average lies in 1.00..5.00 |
| RatingService.AverageExample | server/src/services/rating.service.ts:51-54 | ratings 4, 5 and 5 average 4.67, with total 3 |
| RatingService.RatingStore.Create | server/src/services/rating.service.ts:13-24 | appends one rating with the caller as rater and the payload's fields, and checks nothing about swap or duplicates; earlier ratings are unchanged |
| RatingService.RatingStore.FindByUser | server/src/services/rating.service.ts:26-31 | returns exactly the stored ratings of that rated user |
| RatingService.RatingStore.FindBySwap | server/src/services/rating.service.ts:33-38 | returns exactly the stored ratings of that swap |
| RatingService.RatingStore.GetAverageRating | server/src/services/rating.service.ts:40-55 | the average of the user's ratings; total is their number, not their sum |
| RatingService.StoredAverageInRange | server/src/services/rating.service.ts:40-55 | on a valid store, a rated user's average lies between 1.00 and 5.00 |
| RatingService.CreateOnlyAffectsRatedUser | server/src/services/rating.service.ts:13-24 | a new rating changes only the rated user's list of ratings, by one at the end |
| ClientApi.MatchPercentage | client/src/utils/api.ts:61-67 | the share of user1's lower-cased wanted skills that user2 offers, as a percentage, always lies in [0,100]; the MatchPercentage* lemmas below pin its zero, full, case, duplicate and monotonicity behaviour |
| ClientApi.MatchPercentageZero | client/src/utils/api.ts:65-66 | the score is 0 exactly when no wanted skill is offered, and it is 0 without division when nothing is wanted |
| ClientApi.MatchPercentageFull | client/src/utils/api.ts:62-66 | the score is 100 when every wanted skill, lower-cased, is offered |
| ClientApi.MatchPercentageIgnoresCase | client/src/utils/api.ts:62-63 | lower-casing the inputs beforehand does not change the score |
| ClientApi.MatchPercentageIgnoresDuplicates | client/src/utils/api.ts:62-63 | repeating a wanted skill does not change the score |
| ClientApi.DirectionalInputs | client/src/utils/api.ts:61-67 | the score depends only on user1's wanted and user2's offered skills |
| ClientApi.NotSymmetric | client/src/utils/api.ts:61-67 | a pair scores 100 one way and 0 the other |
| ClientApi.MatchPercentageMonotone | client/src/utils/api.ts:63-66 | offering more skills never lowers the score |
| UserService.NewUser | server/src/services/user.service.ts:21-26 | a registration is saved exactly when e-mail, names and hash are non-empty, with the hash as password, bio and location copied from the registration, and the schema defaults: role user, rating 0, 0 ratings, active |
| UserService.ApplyUpdate | server/src/services/user.service.ts:45-54 | a profile update overwrites exactly the given fields (names, bio, location, skill lists, availability, isActive), refreshes updatedAt, and changes nothing else: never the id, e-mail, password, role or rating |
| UserService.UserStore.Create | server/src/services/user.service.ts:15-27 | a known e-mail is refused with 'User with this email already exists'; otherwise exactly one user is added |
| UserService.UserStore.FindAll | server/src/services/user.service.ts:29-31 | returns exactly the active users, each without its password hash |
| UserService.UserStore.FindById | server/src/services/user.service.ts:33-39 | returns the user with that id without its password hash, or NotFound 'User not found' |
| UserService.UserStore.Update | server/src/services/user.service.ts:45-54 | an unknown id is NotFound; otherwise only that user is rewritten, and the result is the new document without its password hash |
| UserService.UserStore.Remove | server/src/services/user.service.ts:56-61 | a soft delete: the user stays, inactive, and leaves findAll; an unknown id is NotFound |
| UserService.UserStore.SearchBySkills | server/src/services/user.service.ts:86-94 | returns exactly the active users offering one of the skills, each without its password hash |
| UserService.MatchesAmong | server/src/services/user.service.ts:104-112 | exactly min(10, number of candidates) active users other than the caller, each offering a wanted skill and without its password hash, none listed more often than stored |
| UserService.UserStore.GetSmartMatches | server/src/services/user.service.ts:96-113 | min(10, number of candidates) active users other than the caller, each offering a wanted skill (exact match) and without its password hash; none if nothing is wanted; NotFound for an unknown user |
| UserService.SmartMatchesComplete | server/src/services/user.service.ts:104-112 | with 10 candidates or fewer, every candidate is returned (without its hash) |
| SkillService.NewSkill | server/src/services/skill.service.ts:12-15 | a skill needs a non-empty name; category 'general', popularity 0 and active are the defaults |
| SkillService.ApplyUpdate | server/src/services/skill.service.ts:35-43 | a skill update overwrites only the given fields |
| SkillService.PopularSkills | server/src/services/skill.service.ts:54-60 | min(10, number of active skills) active skills, in non-increasing popularity, none listed more often than stored |
| SkillService.PopularSkillsAreTop | server/src/services/skill.service.ts:54-60 | an active skill left out is no more popular than any skill returned |
| SkillService.PopularSkillsComplete | server/src/services/skill.service.ts:54-60 | with 10 active skills or fewer, all of them are returned |
| SkillService.SkillStore.Create | server/src/services/skill.service.ts:12-15 | saves one skill; an empty name fails the schema and a taken name breaks the unique index, both leaving the store unchanged |
| SkillService.SkillStore.FindAll | server/src/services/skill.service.ts:17-19 | returns exactly the active skills |
| SkillService.SkillStore.FindById | server/src/services/skill.service.ts:21-27 | returns the skill, or NotFound 'Skill not found' |
| SkillService.SkillStore.Update | server/src/services/skill.service.ts:35-43 | an unknown id is NotFound 'Skill not found'; otherwise only that skill is rewritten |
| SkillService.SkillStore.Remove | server/src/services/skill.service.ts:45-52 | only sets isActive to false, and the skill stays stored; an unknown id is NotFound 'Skill not found' |
| SkillService.SkillStore.GetPopularSkills | server/src/services/skill.service.ts:54-60 | min(10, number of active skills) active stored skills, most popular first, none listed more often than stored |
| Browse.ActiveUsers | client/src/app/browse/page.tsx:42 | the loaded list keeps exactly the active users |
| Browse.DropViewer | client/src/app/browse/page.tsx:64-66 | with a viewer, exactly the users other than the viewer remain |
| Browse.KeepSearchHits | client/src/app/browse/page.tsx:69-79 | with a term, exactly the users whose skill or full name contains it, ignoring case, remain |
| Browse.KeepAvailable | client/src/app/browse/page.tsx:82-84 | unless 'all' is chosen, exactly the users listing that availability remain |
| Browse.Candidates | client/src/app/browse/page.tsx:60-84 | the survivors are exactly the loaded users passing all three filters; nothing is added |
| Browse.Scored | client/src/app/browse/page.tsx:87-91 | with a viewer, each user carries the viewer's match percentage |
| Browse.FilterUsers | client/src/app/browse/page.tsx:60-108 | the result is a reordering of the scored candidates; with a viewer, it is their stable sort by match or by rating (ties keep the candidates' order); without a viewer, the candidates' order; the name sort is only a reordering |
| Browse.ListedUsersPass | client/src/app/browse/page.tsx:60-108 | every listed user is loaded, is not the viewer, passes search and availability, and carries its score |
| SwapsPage.FilteredSwaps | client/src/app/swaps/page.tsx:148-155 | a tab shows exactly the swaps with its status, and as many as its badge counts |
| SwapsPage.ClosedSwapsInNoTab | client/src/app/swaps/page.tsx:148-155 | rejected and cancelled swaps appear in no tab |
| SwapsPage.TabCountsPartition | client/src/app/swaps/page.tsx:268-298 | the three badges plus the rejected and cancelled swaps add up to the whole list |
| SwapsPage.SwapPartner | client/src/app/swaps/page.tsx:157-159 | the partner is one of the two participants, and it is the current user only on a swap with oneself |
| SwapsPage.PartnerIsCounterpart | client/src/app/swaps/page.tsx:157-159 | the partner is the provider when the user sent the request and the requester otherwise, which is the other participant |
| SwapsPage.CardPartner | client/src/app/swaps/page.tsx:374 | a card shows the partner, or the provider when nobody is signed in |
| SwapsPage.CardSentByMe | client/src/app/swaps/page.tsx:375 | "sent by me" holds only for a signed-in requester |
| SwapsPage.RatedUserIsCounterpart | client/src/app/swaps/page.tsx:124-126 | the rated user is the partner, never the rater |
| SwapsPage.SubmitRating | client/src/app/swaps/page.tsx:120-134 | nothing is sent without a selected swap and a user; otherwise the payload rates the partner, with the feedback as comment and no tags |
| SwapsPage.SubmittedRatingValidates | client/src/app/swaps/page.tsx:128-134 | with 1 to 5 stars the button is enabled and the payload passes server validation unchanged |
| SwapsPage.ShowAcceptDecline | client/src/app/swaps/page.tsx:464-469 | Accept/Decline show only on a pending swap, and always when the signed-in user is its provider |
| SwapsPage.AcceptDeclineAgreesWithServer | client/src/app/swaps/page.tsx:464-469 | for a participant, Accept/Decline show exactly when the server's accept and reject guards pass |
| SwapsPage.AcceptDeclineShownToOutsider | client/src/app/swaps/page.tsx:464-469 | a non-participant is shown Accept/Decline on a pending swap, and the server refuses them |
| SwapsPage.AcceptDeclineSignedOut | client/src/app/swaps/page.tsx:464-490 | signed out, every pending card offers Accept/Decline and no waiting note |
| SwapsPage.ActionsExclusive | client/src/app/swaps/page.tsx:464-508 | Mark Complete shows only for accepted swaps and Rate only for completed ones; closed swaps show no action |
| SwapsPage.Initials | client/src/app/swaps/page.tsx:165-167 | at most one initial per space-separated piece, none of them a lowercase letter |
| SwapsPage.InitialsOfWords | client/src/app/swaps/page.tsx:165-167 | for single-space-separated words, the initials are each word's first character, upper-cased |
| SwapsPage.CardInitials | client/src/app/swaps/page.tsx:386 | a one-word first and last name give two initials |
| SwapsPage.BlankNameNoInitials | client/src/app/swaps/page.tsx:165-167 | a name of spaces has no initials |
| AdminPage.ComputeStats | client/src/app/admin/page.tsx:45-50 | totals are the list lengths; active counts accepted swaps and completed counts completed ones |
| AdminPage.ActivePlusCompletedBounded | client/src/app/admin/page.tsx:47-49 | active plus completed never exceeds the total number of swaps |
| AdminPage.GetRecentSwaps | client/src/app/admin/page.tsx:87-91 | sorts the stored array in place into the stable newest-first order (ties keep their order), and returns the newest 10 or fewer |
| AdminPage.RecentSwapsComplete | client/src/app/admin/page.tsx:87-91 | with 10 swaps or fewer, the recent list is the whole sorted list |
| Sorting.SortDesc | client/src/app/browse/page.tsx:94-104 | the order Array.prototype.sort gives with a descending comparator: sorted by key, largest first, and a permutation of the input |
| Sorting.SortDescStable | client/src/app/browse/page.tsx:94-104 | the sort is stable: the elements of each key keep their relative order |
| Sorting.SortInPlaceDesc | client/src/app/browse/page.tsx:94-104 | the in-place sort leaves the array in SortDesc's order of its old contents |
| UserForm.InitialForm | client/src/components/UserForm.tsx:21-28 | defaults are availability 'available', isPublic true, and empty name, bio and lists |
| UserForm.AddSkill | client/src/components/UserForm.tsx:40-52 | an add either leaves the state unchanged or appends the trimmed input to that list and clears that input (AddSkillOutcome says exactly when) |
| UserForm.AddSkillPreserves | client/src/components/UserForm.tsx:40-52 | adding keeps the lists duplicate-free and trimmed, and never touches the other list or input |
| UserForm.AddSkillOutcome | client/src/components/UserForm.tsx:40-51 | an add takes effect exactly for a non-empty, unlisted trimmed input, which is appended with its input cleared; otherwise state is unchanged |
| UserForm.RemoveIndex | client/src/components/UserForm.tsx:57 | removes exactly the element at the index and keeps the order of the rest; an out-of-range index changes nothing |
| UserForm.RemoveSkill | client/src/components/UserForm.tsx:54-59 | removal edits only its own list |
| UserForm.RemoveSkillPreserves | client/src/components/UserForm.tsx:54-59 | removal keeps a list duplicate-free and trimmed, one shorter for a valid index |
| UserForm.RemoveUndoesAdd | client/src/components/UserForm.tsx:40-59 | removing the entry just added restores the form |
| UserForm.SubmitEnabledMeans | client/src/components/UserForm.tsx:255 | submit is enabled only when not loading, with a non-blank name and both lists non-empty; a form with no initial name starts disabled |
| LoginPage.HandleInputChange | client/src/app/login/page.tsx:27-30 | only the named field changes |
| LoginPage.InputChangeLastWins | client/src/app/login/page.tsx:27-30 | rewriting a field's own value is a no-op, and the last of two edits wins |
| LoginPage.HandleSkillsChange | client/src/app/login/page.tsx:32-37 | whitespace-only input changes nothing; otherwise only that list becomes the trimmed comma-split pieces |
| LoginPage.SkillsChangeShape | client/src/app/login/page.tsx:33-35 | one entry per comma plus one, each trimmed and free of commas |
| LoginPage.SkillsChangeKeepsEmptyPieces | client/src/app/login/page.tsx:34-35 | adjacent commas give an empty entry |
| LoginPage.SkillsChangeRoundTrip | client/src/app/login/page.tsx:32-37 | typing a comma-joined list of clean skills yields that list |
| LoginPage.HandleAvailabilityChange | client/src/app/login/page.tsx:39-46 | an absent option is appended at the end; a present one has every copy removed, the other entries keeping their order and multiplicities; no other field changes |
| LoginPage.AvailabilityToggleTwice | client/src/app/login/page.tsx:39-46 | toggling twice restores membership, and restores the list when the option was absent |
| LoginPage.ToggleMode | client/src/app/login/page.tsx:73-87 | flips the mode and clears every field |
| LoginPage.ToggleModeTwice | client/src/app/login/page.tsx:73-87 | switching twice returns to the same mode with an empty form |
| Text.TrimSpec | client/src/components/UserForm.tsx:41 | trim returns the infix between blank ends: empty exactly for blank input, otherwise non-blank at both ends |
| Text.JoinSplit | client/src/app/login/page.tsx:34 | joining a split with its separator gives the string back |
| Text.SplitJoin | client/src/app/login/page.tsx:34 | splitting a join of separator-free pieces gives the pieces back |
| Text.Includes | client/src/app/browse/page.tsx:72 | includes holds exactly when the substring occurs at some position |

## Left out

- Persistence is left out: Mongoose models, `populate`, query building, the NestJS controllers and module wiring. The stores are in-memory collections. `PATCH /swaps/:id` reaches the unguarded `SwapService.SwapStore.Update`.
- Timestamps are not set automatically. The `createdAt`/`updatedAt` handling of `timestamps: true` is written out in each operation, with `now` passed in.
- The casts `new Types.ObjectId(...)` in create, findByUser and the rating service are not modelled. They throw for a string that is not 24 hex digits, and the model's ids are plain strings.
- Malformed ids are not modelled either: `findById` / `findByIdAndUpdate` raise a cast error for an id that is not an ObjectId, and the model treats such an id as unknown (NotFound).
- Password hashing (bcrypt), `login` and JWT signing are left out. Credentials are external; the hash is a parameter of `UserService.UserStore.Create`.
- `SkillService.findByName` is left out: its regex is built from user input, and regex matching is not modelled.
- Concurrency is left out. The transitions read and then write non-atomically, and the model runs every operation sequentially.
- Floating point is not modelled. Match percentages are reals, and averages are exact integer hundredths.
- SwapDto.ParseUpdateSwap: an explicit `"status": null` passes validation, and `findByIdAndUpdate` would then store a null status, which no transition accepts. The model reads it as "status not given" and keeps the old status, because a swap's status is never null here.
- UserService.ApplyUpdate: an explicit `null` in a profile update (bio, location, a name) would be written as null. The user payload arrives already validated and has no JSON parser here, so the model treats an absent field and a null one alike (left as it is).
- Browse.FilterUsers: the 'name' sort (`localeCompare`) is not modelled; for it the model returns the filtered order.
- AdminPage.GetRecentSwaps: `createdAt` is modelled as always present. The `new Date(createdAt || '')` fallback for a missing date (NaN) is not modelled.
- Case mapping covers ASCII only (`toLowerCase`/`toUpperCase`), and `getInitials` works on UTF-16 units as characters.
- Class-validator and the global validation pipe are not fully modelled. Unknown body keys are taken to be ignored. `@IsDateString` is a parameter.
- The UI is left out: rendering, toasts, routing, the simulated chat on the swaps page, and the admin ban/delete buttons.

## Findings

| source | as written | input that shows it | evidently intended | confidence | as-written member | corrected member |
|---|---|---|---|---|---|---|
| server/src/services/swap.service.ts:79 | the guards compare `swap.providerId.toString()` (and the requester's) with the caller's id, after `findById` has populated both references with user documents, whose `toString()` renders the whole document | a pending swap whose provider is `507f1f77bcf86cd799439011` and a call to accept from that same id: the rendered document starts with `{`, so the comparison fails and 'Only the provider can accept this swap' is thrown | compare the participants' ids (`_id`) with the caller's id, so the provider may accept or reject and either participant may complete or cancel | medium, not executed | SwapService.AsWrittenAcceptCounterexample | SwapService.GuardIsTable |
