/** The shapes the client receives from the server, and the one scoring
    formula it applies to them: how much of what one user wants another
    user offers. */
module ClientApi {
  import opened Common
  import opened Text
  import opened SwapSchema

  datatype Role = UserRole | AdminRole

  /** A user as the API returns it (without the password). */
  datatype User = User(
    id: Id,
    email: string,
    firstName: string,
    lastName: string,
    bio: Option<string>,
    location: Option<string>,
    role: Role,
    offeredSkills: seq<string>,
    wantedSkills: seq<string>,
    availability: seq<string>,
    rating: real,
    totalRatings: int,
    isActive: bool)

  /** A swap as the API returns it: both participants populated, the status
      one of the five literals of the server's enumeration. */
  datatype Swap = Swap(
    id: Id,
    requesterId: User,
    providerId: User,
    requestedSkill: string,
    offeredSkill: string,
    status: SwapStatus,
    message: Option<string>,
    scheduledDate: Option<string>,
    completedDate: Option<string>,
    createdAt: Time)

  /** `new Set(names.map(s => s.toLowerCase()))`. */
  function LowerSet(names: seq<string>): set<string> {
    set k | 0 <= k < |names| :: Lower(names[k])
  }

  /** `calculateMatchPercentage(user1, user2)`: the share of user1's wanted
      skills (lower-cased, duplicates collapsed) that user2 offers, as a
      percentage; 0 when nothing matches. */
  function MatchPercentage(user1: User, user2: User): (r: real)
    ensures 0.0 <= r <= 100.0
  {
    var wanted := LowerSet(user1.wantedSkills);
    var offered := LowerSet(user2.offeredSkills);
    var matches := wanted * offered;
    if |matches| > 0 then
      SubsetCard(matches, wanted);
      RatioAtMostOne(|matches|, |wanted|);
      (|matches| as real / |wanted| as real) * 100.0
    else 0.0
  }

  lemma SubsetCard<T>(a: set<T>, b: set<T>)
    requires a <= b
    ensures |a| <= |b|
  {
    assert b == a + (b - a);
  }

  lemma RatioAtMostOne(m: nat, w: nat)
    requires 0 < m <= w
    ensures 0.0 < m as real / w as real <= 1.0
  {
    var q := m as real / w as real;
    assert q * w as real == m as real;
    assert (q - 1.0) * w as real == m as real - w as real;
    PositiveProduct(q - 1.0, w as real);
  }

  /** Zero exactly when no wanted skill is offered, in particular when
      user1 wants nothing (and then without dividing by zero). */
  lemma {:induction false} MatchPercentageZero(user1: User, user2: User)
    ensures MatchPercentage(user1, user2) == 0.0 <==>
      forall k :: 0 <= k < |user1.wantedSkills| ==> Lower(user1.wantedSkills[k]) !in LowerSet(user2.offeredSkills)
    ensures user1.wantedSkills == [] ==> MatchPercentage(user1, user2) == 0.0
  {
    var wanted := LowerSet(user1.wantedSkills);
    var matches := wanted * LowerSet(user2.offeredSkills);
    if |matches| > 0 {
      SubsetCard(matches, wanted);
      RatioAtMostOne(|matches|, |wanted|);
      var x :| x in matches;
      var k :| 0 <= k < |user1.wantedSkills| && Lower(user1.wantedSkills[k]) == x;
    } else {
      assert matches == {};
      forall k | 0 <= k < |user1.wantedSkills| ensures Lower(user1.wantedSkills[k]) !in LowerSet(user2.offeredSkills) {
        var x := Lower(user1.wantedSkills[k]);
        assert x in wanted;
        assert x !in matches;
      }
    }
  }

  /** A hundred when user2 offers every skill user1 wants, up to case. */
  lemma {:induction false} MatchPercentageFull(user1: User, user2: User)
    requires user1.wantedSkills != []
    requires forall k :: 0 <= k < |user1.wantedSkills| ==> Lower(user1.wantedSkills[k]) in LowerSet(user2.offeredSkills)
    ensures MatchPercentage(user1, user2) == 100.0
  {
    var wanted := LowerSet(user1.wantedSkills);
    var offered := LowerSet(user2.offeredSkills);
    assert Lower(user1.wantedSkills[0]) in wanted;
    assert wanted * offered == wanted;
  }

  /** Case does not matter: lower-casing user1's wanted skills and user2's
      offered skills beforehand leaves the score as it is. */
  lemma {:induction false} MatchPercentageIgnoresCase(user1: User, user2: User)
    ensures MatchPercentage(user1.(wantedSkills := LowerAll(user1.wantedSkills)),
                            user2.(offeredSkills := LowerAll(user2.offeredSkills)))
         == MatchPercentage(user1, user2)
  {
    LowerSetOfLowered(user1.wantedSkills);
    LowerSetOfLowered(user2.offeredSkills);
  }

  function LowerAll(names: seq<string>): (r: seq<string>)
    ensures |r| == |names| && forall k :: 0 <= k < |names| ==> r[k] == Lower(names[k])
  {
    seq(|names|, k requires 0 <= k < |names| => Lower(names[k]))
  }

  lemma LowerSetOfLowered(names: seq<string>)
    ensures LowerSet(LowerAll(names)) == LowerSet(names)
  {
    var l := LowerAll(names);
    forall k | 0 <= k < |names| ensures Lower(l[k]) == Lower(names[k]) {
      LowerIdempotent(names[k]);
    }
  }

  /** Repeating a wanted skill changes nothing: the set collapses it. */
  lemma {:induction false} MatchPercentageIgnoresDuplicates(user1: User, user2: User, k: int)
    requires 0 <= k < |user1.wantedSkills|
    ensures MatchPercentage(user1.(wantedSkills := user1.wantedSkills + [user1.wantedSkills[k]]), user2)
         == MatchPercentage(user1, user2)
  {
    var w := user1.wantedSkills;
    var w' := w + [w[k]];
    assert LowerSet(w') == LowerSet(w) by {
      forall j | 0 <= j < |w'| ensures Lower(w'[j]) in LowerSet(w) {
        if j < |w| { assert w'[j] == w[j]; } else { assert w'[j] == w[k]; }
      }
      forall j | 0 <= j < |w| ensures Lower(w[j]) in LowerSet(w') {
        assert w'[j] == w[j];
      }
    }
  }

  /** The score reads user1's wanted skills and user2's offered skills and
      nothing else. */
  lemma DirectionalInputs(user1: User, user2: User, other1: User, other2: User)
    requires other1.wantedSkills == user1.wantedSkills && other2.offeredSkills == user2.offeredSkills
    ensures MatchPercentage(other1, other2) == MatchPercentage(user1, user2)
  {
  }

  /** It is not symmetric: one skill wanted and offered, but nothing wanted
      back, scores 100 one way and 0 the other. */
  lemma {:induction false} NotSymmetric(a: User, b: User)
    requires a.wantedSkills == ["Guitar"] && a.offeredSkills == []
    requires b.wantedSkills == [] && b.offeredSkills == ["guitar"]
    ensures MatchPercentage(a, b) == 100.0
    ensures MatchPercentage(b, a) == 0.0
  {
    assert Lower("Guitar") == "guitar";
    assert Lower(b.offeredSkills[0]) in LowerSet(b.offeredSkills);
    assert Lower(b.offeredSkills[0]) == "guitar";
    MatchPercentageFull(a, b);
    MatchPercentageZero(b, a);
  }

  /** Offering more never lowers the score. */
  lemma {:induction false} MatchPercentageMonotone(user1: User, user2: User, more: seq<string>)
    ensures MatchPercentage(user1, user2) <= MatchPercentage(user1, user2.(offeredSkills := user2.offeredSkills + more))
  {
    var u2 := user2.(offeredSkills := user2.offeredSkills + more);
    var wanted := LowerSet(user1.wantedSkills);
    var before := wanted * LowerSet(user2.offeredSkills);
    var after := wanted * LowerSet(u2.offeredSkills);
    LowerSetGrows(user2.offeredSkills, more);
    assert before <= after;
    SubsetCard(before, after);
    SubsetCard(after, wanted);
    if |before| > 0 {
      var w := |wanted| as real;
      assert w > 0.0;
      DivMonotone(|before| as real, |after| as real, w);
    }
  }

  lemma LowerSetGrows(names: seq<string>, more: seq<string>)
    ensures LowerSet(names) <= LowerSet(names + more)
  {
    forall k | 0 <= k < |names| ensures Lower(names[k]) in LowerSet(names + more) {
      assert (names + more)[k] == names[k];
    }
  }

  lemma DivMonotone(x: real, y: real, w: real)
    requires 0.0 <= x <= y && w > 0.0
    ensures (x / w) * 100.0 <= (y / w) * 100.0
  {
    assert x / w <= y / w by {
      assert (x / w - y / w) * w == x - y;
      PositiveProduct(x / w - y / w, w);
    }
  }
}
