/** The browse page's user list: the active users it loads, and the
    filter, score and sort pipeline it applies for the current viewer, search
    term, availability choice and sort order. */
module Browse {
  import opened Common
  import opened Text
  import opened Sorting
  import opened ClientApi

  /** A listed user, scored when there is a viewer. */
  datatype UserWithMatch = UserWithMatch(user: User, matchPercentage: Option<real>)

  datatype SortBy = ByMatch | ByName | ByRating

  /** `users.filter(user => user.isActive)`: what the page keeps of the
      fetched list. */
  function ActiveUsers(users: seq<User>): (r: seq<User>)
    ensures forall i :: 0 <= i < |r| ==> r[i].isActive && r[i] in users
    ensures forall i :: 0 <= i < |users| && users[i].isActive ==> users[i] in r
    ensures multiset(r) <= multiset(users)
  {
    Filter(users, (u: User) => u.isActive)
  }

  /** Some name in `names`, lower-cased, contains `term` lower-cased. */
  predicate SomeContains(names: seq<string>, term: string) {
    exists k :: 0 <= k < |names| && Includes(Lower(names[k]), Lower(term))
  }

  function AnyContains(names: seq<string>, term: string): (b: bool)
    ensures b <==> SomeContains(names, term)
  {
    FirstIndex(names, (n: string) => Includes(Lower(n), Lower(term))).Some?
  }

  /** `${firstName} ${lastName}`. */
  function FullName(u: User): string {
    u.firstName + " " + u.lastName
  }

  /** The search test: an offered skill, a wanted skill or the full name
      contains the term, ignoring case. */
  predicate SearchHit(u: User, term: string) {
    SomeContains(u.offeredSkills, term) || SomeContains(u.wantedSkills, term)
    || Includes(Lower(FullName(u)), Lower(term))
  }

  function IsSearchHit(u: User, term: string): (b: bool)
    ensures b <==> SearchHit(u, term)
  {
    AnyContains(u.offeredSkills, term) || AnyContains(u.wantedSkills, term)
    || Includes(Lower(FullName(u)), Lower(term))
  }

  /** Whether a user survives the three filters of `filterUsers`. */
  predicate Passes(u: User, viewer: Option<User>, searchTerm: string, availability: string) {
    && (viewer.Some? ==> u.id != viewer.value.id)
    && (searchTerm != "" ==> SearchHit(u, searchTerm))
    && (availability != "all" ==> availability in u.availability)
  }

  /** Drops the viewer, when there is one. */
  function DropViewer(users: seq<User>, viewer: Option<User>): (r: seq<User>)
    ensures forall x :: x in r <==> x in users && (viewer.Some? ==> x.id != viewer.value.id)
    ensures multiset(r) <= multiset(users)
  {
    if viewer.None? then users
    else
      FilterMembers(users, (u: User) => u.id != viewer.value.id);
      Filter(users, (u: User) => u.id != viewer.value.id)
  }

  /** Keeps the search hits, when the term is not empty. */
  function KeepSearchHits(users: seq<User>, term: string): (r: seq<User>)
    ensures forall x :: x in r <==> x in users && (term != "" ==> SearchHit(x, term))
    ensures multiset(r) <= multiset(users)
  {
    if term == "" then users
    else
      FilterMembers(users, (u: User) => IsSearchHit(u, term));
      Filter(users, (u: User) => IsSearchHit(u, term))
  }

  /** Keeps the users with the selected availability, unless it is `all`. */
  function KeepAvailable(users: seq<User>, availability: string): (r: seq<User>)
    ensures forall x :: x in r <==> x in users && (availability != "all" ==> availability in x.availability)
    ensures multiset(r) <= multiset(users)
  {
    if availability == "all" then users
    else
      FilterMembers(users, (u: User) => availability in u.availability);
      Filter(users, (u: User) => availability in u.availability)
  }

  /** The users that survive the filters, in the order loaded: exactly the
      loaded users that pass all three tests, and nothing added. */
  function Candidates(users: seq<User>, viewer: Option<User>, searchTerm: string, availability: string): (r: seq<User>)
    ensures forall x :: x in r <==> x in users && Passes(x, viewer, searchTerm, availability)
    ensures multiset(r) <= multiset(users)
  {
    KeepAvailable(KeepSearchHits(DropViewer(users, viewer), searchTerm), availability)
  }

  /** The candidates, scored against the viewer when there is one. */
  function Scored(users: seq<User>, viewer: Option<User>): (r: seq<UserWithMatch>)
    ensures |r| == |users|
    ensures forall i :: 0 <= i < |r| ==> r[i].user == users[i]
    ensures forall i :: 0 <= i < |r| ==>
      r[i].matchPercentage == if viewer.Some? then Some(MatchPercentage(viewer.value, users[i])) else None
  {
    seq(|users|, i requires 0 <= i < |users| =>
      UserWithMatch(users[i], if viewer.Some? then Some(MatchPercentage(viewer.value, users[i])) else None))
  }

  /** `matchPercentage || 0`. */
  function MatchKey(x: UserWithMatch): real {
    x.matchPercentage.GetOr(0.0)
  }

  function RatingKey(x: UserWithMatch): real {
    x.user.rating
  }

  /** `filterUsers()`: the scored candidates, sorted in place by score or by
      rating when there is a viewer. Sorting by name keeps the candidates'
      order here. */
  method FilterUsers(users: seq<User>, viewer: Option<User>, searchTerm: string, availability: string, sortBy: SortBy)
    returns (result: seq<UserWithMatch>)
    ensures Permutation(result, Scored(Candidates(users, viewer, searchTerm, availability), viewer))
    ensures viewer.None? ==> result == Scored(Candidates(users, viewer, searchTerm, availability), viewer)
    ensures viewer.Some? && sortBy == ByMatch ==>
      result == SortDesc(Scored(Candidates(users, viewer, searchTerm, availability), viewer), MatchKey)
    ensures viewer.Some? && sortBy == ByRating ==>
      result == SortDesc(Scored(Candidates(users, viewer, searchTerm, availability), viewer), RatingKey)
    ensures viewer.Some? && sortBy == ByMatch ==> SortedDesc(result, MatchKey)
    ensures viewer.Some? && sortBy == ByRating ==> SortedDesc(result, RatingKey)
  {
    var filtered := Scored(Candidates(users, viewer, searchTerm, availability), viewer);
    if viewer.None? || sortBy == ByName {
      return filtered;
    }
    if sortBy == ByMatch {
      result := SortedCopy(filtered, MatchKey);
    } else {
      result := SortedCopy(filtered, RatingKey);
    }
  }

  /** `filtered.sort(comparator)` on a fresh array holding `s`. */
  method SortedCopy(s: seq<UserWithMatch>, key: UserWithMatch -> real) returns (r: seq<UserWithMatch>)
    ensures r == SortDesc(s, key)
    ensures Permutation(r, s) && SortedDesc(r, key)
  {
    var a := new UserWithMatch[|s|](i requires 0 <= i < |s| => s[i]);
    assert a[..] == s;
    SortInPlaceDesc(a, key);
    r := a[..];
  }

  /** Every listed user is a loaded user other than the viewer, passes the
      search and availability tests, and carries the viewer's score. */
  lemma {:induction false} ListedUsersPass(users: seq<User>, viewer: Option<User>, searchTerm: string,
                                           availability: string, result: seq<UserWithMatch>)
    requires Permutation(result, Scored(Candidates(users, viewer, searchTerm, availability), viewer))
    ensures forall i :: 0 <= i < |result| ==>
      && result[i].user in users
      && Passes(result[i].user, viewer, searchTerm, availability)
      && (viewer.Some? ==> result[i].matchPercentage == Some(MatchPercentage(viewer.value, result[i].user)))
      && (viewer.None? ==> result[i].matchPercentage.None?)
  {
    var c := Candidates(users, viewer, searchTerm, availability);
    forall i | 0 <= i < |result|
      ensures result[i].user in users && Passes(result[i].user, viewer, searchTerm, availability)
      ensures viewer.Some? ==> result[i].matchPercentage == Some(MatchPercentage(viewer.value, result[i].user))
      ensures viewer.None? ==> result[i].matchPercentage.None?
    {
      assert result[i] in multiset(result);
      ScoredMember(c, viewer, result[i]);
    }
  }

  lemma ScoredMember(c: seq<User>, viewer: Option<User>, x: UserWithMatch)
    requires x in Scored(c, viewer)
    ensures x.user in c
    ensures x.matchPercentage == if viewer.Some? then Some(MatchPercentage(viewer.value, x.user)) else None
  {
    var s := Scored(c, viewer);
    var j :| 0 <= j < |s| && s[j] == x;
  }
}
