/** Shared vocabulary of the skill-swap back end and client: identifiers,
    timestamps, optional values and the error kinds the services raise. */
module Common {

  /** A Mongo ObjectId, in its string form. */
  type Id = string

  /** A point in time (milliseconds since the epoch). The clock is never read
      by the model: every operation that stamps a record receives `now`. */
  type Time = int

  datatype Option<+T> = None | Some(value: T) {
    function GetOr(default: T): T {
      match this
      case Some(v) => v
      case None => default
    }
  }

  /** A partial update of one nullable field: leave it as it is, clear it,
      or set it. */
  datatype FieldUpdate<+T> = Keep | Clear | SetTo(value: T) {
    function Apply(current: Option<T>): Option<T> {
      match this
      case Keep => current
      case Clear => None
      case SetTo(v) => Some(v)
    }
  }

  /** The exceptions the services throw, each with the text it carries.
      NotFound, BadRequest and Conflict are the NestJS HTTP exceptions the
      services raise themselves; Invalid is the request validation failure
      (the failing constraint messages); SchemaViolation and DuplicateKey are
      what the persistence layer raises when a save breaks a `required` or
      `unique` declaration of a schema. */
  datatype Error =
    | NotFound(message: string)
    | BadRequest(message: string)
    | Conflict(message: string)
    | Invalid(messages: seq<string>)
    | SchemaViolation(path: string)
    | DuplicateKey(path: string)

  datatype Result<+T> = Ok(value: T) | Err(error: Error) {
    predicate IsFailure() { Err? }
    function PropagateFailure<U>(): Result<U>
      requires Err?
    {
      Err(error)
    }
    function Extract(): T
      requires Ok?
    {
      value
    }
  }

  /** Number of elements of `s` satisfying `p`, i.e. `s.filter(p).length`. */
  function Count<T>(s: seq<T>, p: T -> bool): (n: nat)
    ensures n <= |s|
  {
    if s == [] then 0 else (if p(s[0]) then 1 else 0) + Count(s[1..], p)
  }

  /** `s.filter(p)`: the elements satisfying `p`, in their original order. */
  function Filter<T>(s: seq<T>, p: T -> bool): (r: seq<T>)
    ensures |r| == Count(s, p)
    ensures forall i :: 0 <= i < |r| ==> p(r[i]) && r[i] in s
    ensures forall i :: 0 <= i < |s| && p(s[i]) ==> s[i] in r
    ensures multiset(r) <= multiset(s)
  {
    if s == [] then []
    else
      var rest := Filter(s[1..], p);
      FilterCons(s, p, rest);
      if p(s[0]) then [s[0]] + rest else rest
  }

  /** One step of `Filter`: from the filter of `s[1..]` to the filter of `s`. */
  lemma FilterCons<T>(s: seq<T>, p: T -> bool, rest: seq<T>)
    requires s != []
    requires |rest| == Count(s[1..], p)
    requires forall i :: 0 <= i < |rest| ==> p(rest[i]) && rest[i] in s[1..]
    requires forall i :: 0 <= i < |s[1..]| && p(s[1..][i]) ==> s[1..][i] in rest
    requires multiset(rest) <= multiset(s[1..])
    ensures var r := if p(s[0]) then [s[0]] + rest else rest;
      && |r| == Count(s, p)
      && (forall i :: 0 <= i < |r| ==> p(r[i]) && r[i] in s)
      && (forall i :: 0 <= i < |s| && p(s[i]) ==> s[i] in r)
      && multiset(r) <= multiset(s)
  {
    var r := if p(s[0]) then [s[0]] + rest else rest;
    ConsSound(s, p, rest, r);
    ConsComplete(s, p, rest, r);
    ConsMultiset(s, p, rest, r);
  }

  lemma ConsSound<T>(s: seq<T>, p: T -> bool, rest: seq<T>, r: seq<T>)
    requires s != [] && r == if p(s[0]) then [s[0]] + rest else rest
    requires forall i :: 0 <= i < |rest| ==> p(rest[i]) && rest[i] in s[1..]
    ensures forall i :: 0 <= i < |r| ==> p(r[i]) && r[i] in s
  {
    forall i | 0 <= i < |r| ensures p(r[i]) && r[i] in s {
      if p(s[0]) && i == 0 {
      } else {
        var k := if p(s[0]) then i - 1 else i;
        assert r[i] == rest[k];
        assert rest[k] in s[1..];
        var j :| 0 <= j < |s[1..]| && s[1..][j] == rest[k];
        assert s[j + 1] == rest[k];
      }
    }
  }

  lemma ConsComplete<T>(s: seq<T>, p: T -> bool, rest: seq<T>, r: seq<T>)
    requires s != [] && r == if p(s[0]) then [s[0]] + rest else rest
    requires forall i :: 0 <= i < |s[1..]| && p(s[1..][i]) ==> s[1..][i] in rest
    ensures forall i :: 0 <= i < |s| && p(s[i]) ==> s[i] in r
  {
    forall i | 0 <= i < |s| && p(s[i]) ensures s[i] in r {
      if i == 0 {
        assert r[0] == s[0];
      } else {
        assert s[i] == s[1..][i - 1];
        assert s[i] in rest;
        var k :| 0 <= k < |rest| && rest[k] == s[i];
        if p(s[0]) {
          assert r[k + 1] == rest[k];
        } else {
          assert r[k] == rest[k];
        }
      }
    }
  }

  lemma ConsMultiset<T>(s: seq<T>, p: T -> bool, rest: seq<T>, r: seq<T>)
    requires s != [] && r == if p(s[0]) then [s[0]] + rest else rest
    requires multiset(rest) <= multiset(s[1..])
    ensures multiset(r) <= multiset(s)
  {
    assert s == [s[0]] + s[1..];
    assert multiset(s) == multiset{s[0]} + multiset(s[1..]);
    if p(s[0]) {
      assert multiset(r) == multiset{s[0]} + multiset(rest);
    }
  }

  /** An element satisfying `p` survives the filter. */
  lemma FilterKeeps<T>(s: seq<T>, p: T -> bool, x: T)
    requires x in s && p(x)
    ensures x in Filter(s, p)
  {
    var i :| 0 <= i < |s| && s[i] == x;
  }

  /** The filter keeps exactly the elements satisfying `p`. */
  lemma FilterMembers<T>(s: seq<T>, p: T -> bool)
    ensures forall x :: x in Filter(s, p) <==> x in s && p(x)
  {
    var r := Filter(s, p);
    forall x | x in s && p(x) ensures x in r {
      FilterKeeps(s, p, x);
    }
    forall x | x in r ensures x in s && p(x) {
      var i :| 0 <= i < |r| && r[i] == x;
    }
  }

  /** `s.slice(0, n)`. */
  function Take<T>(s: seq<T>, n: nat): (r: seq<T>)
    ensures |r| == if n < |s| then n else |s|
    ensures r == s[..|r|]
  {
    if n < |s| then s[..n] else s
  }

  /** A prefix holds no element more often than the whole. */
  lemma TakeMultiset<T>(s: seq<T>, n: nat)
    ensures multiset(Take(s, n)) <= multiset(s)
  {
    var r := Take(s, n);
    assert s == r + s[|r|..];
    assert multiset(s) == multiset(r) + multiset(s[|r|..]);
  }

  /** `s.findIndex(p)`, `None` standing for -1: the first position whose
      element satisfies `p`. */
  function FirstIndex<T>(s: seq<T>, p: T -> bool): (r: Option<nat>)
    ensures r.Some? ==> r.value < |s| && p(s[r.value])
    ensures r.Some? ==> forall i :: 0 <= i < r.value ==> !p(s[i])
    ensures r.None? ==> forall i :: 0 <= i < |s| ==> !p(s[i])
  {
    if s == [] then None
    else if p(s[0]) then Some(0)
    else match FirstIndex(s[1..], p)
      case None => None
      case Some(k) => Some(k + 1)
  }

  /** The product of two positive reals is positive. */
  lemma PositiveProduct(x: real, y: real)
    requires y > 0.0
    ensures x > 0.0 ==> x * y > 0.0
  {
  }

  lemma {:induction false} FilterAppend<T>(s: seq<T>, t: seq<T>, p: T -> bool)
    ensures Filter(s + t, p) == Filter(s, p) + Filter(t, p)
  {
    if s == [] {
      assert s + t == t;
    } else {
      assert (s + t)[1..] == s[1..] + t;
      FilterAppend(s[1..], t, p);
    }
  }

  lemma {:induction false} CountsPartition<T>(s: seq<T>, p: T -> bool, q: T -> bool)
    requires forall i :: 0 <= i < |s| ==> !(p(s[i]) && q(s[i]))
    ensures Count(s, p) + Count(s, q) <= |s|
  {
    if s != [] {
      CountsPartition(s[1..], p, q);
    }
  }
}
