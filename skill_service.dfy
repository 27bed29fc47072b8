/** The skill catalogue: creation under a unique name, look-ups, partial
    updates, soft deletion and the popularity ranking. */
module SkillService {
  import opened Common
  import opened Sorting

  const SkillNotFound := "Skill not found"

  /** A skill document with the schema's defaults: category `general`,
      popularity 0, active. */
  datatype Skill = Skill(
    id: Id,
    name: string,
    description: Option<string>,
    category: string,
    popularity: real,
    isActive: bool,
    createdAt: Time,
    updatedAt: Time)

  /** The `Partial<Skill>` that `create` and `update` take: any subset of the
      declared fields. */
  datatype SkillData = SkillData(
    name: Option<string>,
    description: Option<string>,
    category: Option<string>,
    popularity: Option<real>,
    isActive: Option<bool>)

  function Popularity(s: Skill): real {
    s.popularity
  }

  /** Some other document than `id` already has the name `name`. */
  predicate NameTaken(skills: seq<Skill>, name: string, id: Id) {
    exists i :: 0 <= i < |skills| && skills[i].name == name && skills[i].id != id
  }

  function NameTakenBy(skills: seq<Skill>, name: string, id: Id): (b: bool)
    ensures b <==> NameTaken(skills, name, id)
  {
    FirstIndex(skills, (s: Skill) => s.name == name && s.id != id).Some?
  }

  predicate HasId(skills: seq<Skill>, id: Id) {
    exists i :: 0 <= i < |skills| && skills[i].id == id
  }

  function IndexOfId(skills: seq<Skill>, id: Id): (r: Option<nat>)
    ensures r.Some? <==> HasId(skills, id)
    ensures r.Some? ==> r.value < |skills| && skills[r.value].id == id
  {
    FirstIndex(skills, (s: Skill) => s.id == id)
  }

  /** The collection's invariant: ids and names are both keys (the schema's
      `unique` index on `name`). */
  ghost predicate UniqueKeys(skills: seq<Skill>) {
    && (forall i, j :: 0 <= i < j < |skills| ==> skills[i].id != skills[j].id)
    && (forall i, j :: 0 <= i < j < |skills| ==> skills[i].name != skills[j].name)
  }

  /** A skill saved at `now` from the given fields: a missing or empty name
      fails the `required` check; the defaults fill the rest. */
  function NewSkill(id: Id, data: SkillData, now: Time): (r: Result<Skill>)
    ensures r.Ok? <==> data.name.Some? && data.name.value != ""
    ensures r.Err? ==> r.error == SchemaViolation("name")
    ensures r.Ok? ==>
      && r.value.id == id && r.value.name == data.name.value && r.value.description == data.description
      && r.value.category == data.category.GetOr("general")
      && r.value.popularity == data.popularity.GetOr(0.0)
      && r.value.isActive == data.isActive.GetOr(true)
      && r.value.createdAt == now && r.value.updatedAt == now
  {
    if data.name.None? || data.name.value == "" then Err(SchemaViolation("name"))
    else Ok(Skill(id, data.name.value, data.description, data.category.GetOr("general"),
                  data.popularity.GetOr(0.0), data.isActive.GetOr(true), now, now))
  }

  /** The document after `findByIdAndUpdate(id, data)` at `now`. Update
      validators are not run; only the unique index still applies. */
  function ApplyUpdate(s: Skill, data: SkillData, now: Time): (r: Skill)
    ensures r.id == s.id && r.createdAt == s.createdAt && r.updatedAt == now
    ensures r.name == data.name.GetOr(s.name) && r.category == data.category.GetOr(s.category)
    ensures r.popularity == data.popularity.GetOr(s.popularity) && r.isActive == data.isActive.GetOr(s.isActive)
    ensures r.description == (if data.description.Some? then data.description else s.description)
  {
    s.(name := data.name.GetOr(s.name),
       description := if data.description.Some? then data.description else s.description,
       category := data.category.GetOr(s.category),
       popularity := data.popularity.GetOr(s.popularity),
       isActive := data.isActive.GetOr(s.isActive),
       updatedAt := now)
  }

  /** `{ isActive: true }`: the filter of the skill queries. */
  predicate IsActiveSkill(s: Skill) {
    s.isActive
  }

  /** `getPopularSkills` over a collection: the active skills, most popular
      first, ten of them or all when there are fewer. */
  function PopularSkills(skills: seq<Skill>): (r: seq<Skill>)
    ensures |r| == if Count(skills, IsActiveSkill) < 10 then Count(skills, IsActiveSkill) else 10
    ensures SortedDesc(r, Popularity)
    ensures forall i :: 0 <= i < |r| ==> r[i].isActive && r[i] in skills
    ensures multiset(r) <= multiset(skills)
  {
    var active := Filter(skills, IsActiveSkill);
    var sorted := SortDesc(active, Popularity);
    var r := Take(sorted, 10);
    assert |sorted| == |multiset(sorted)| == |multiset(active)| == |active|;
    SortedPrefix(sorted, |r|, Popularity);
    TakeMultiset(sorted, 10);
    forall i | 0 <= i < |r| ensures r[i].isActive && r[i] in skills {
      assert r[i] == sorted[i];
      assert r[i] in multiset(active);
    }
    r
  }

  /** The ranking drops no skill that is more popular than one it keeps:
      every active skill left out is at most as popular as every skill
      returned. */
  lemma {:induction false} PopularSkillsAreTop(skills: seq<Skill>, k: int)
    requires 0 <= k < |skills| && skills[k].isActive && skills[k] !in PopularSkills(skills)
    ensures forall i :: 0 <= i < |PopularSkills(skills)| ==> PopularSkills(skills)[i].popularity >= skills[k].popularity
  {
    var active := Filter(skills, IsActiveSkill);
    var sorted := SortDesc(active, Popularity);
    var r := PopularSkills(skills);
    assert r == Take(sorted, 10);
    assert skills[k] in active;
    assert skills[k] in multiset(sorted);
    var j :| 0 <= j < |sorted| && sorted[j] == skills[k];
    assert j >= |r|;
    SortedPrefixIsTop(sorted, |r|, Popularity);
    forall i | 0 <= i < |r| ensures r[i].popularity >= skills[k].popularity {
      assert r[i] == sorted[i];
    }
  }

  /** With ten or fewer active skills, the ranking returns all of them. */
  lemma {:induction false} PopularSkillsComplete(skills: seq<Skill>, k: int)
    requires Count(skills, IsActiveSkill) <= 10
    requires 0 <= k < |skills| && skills[k].isActive
    ensures skills[k] in PopularSkills(skills)
  {
    var active := Filter(skills, IsActiveSkill);
    var sorted := SortDesc(active, Popularity);
    assert PopularSkills(skills) == sorted;
    assert skills[k] in active;
    assert skills[k] in multiset(sorted);
  }

  /** The skill catalogue, in insertion order. */
  class SkillStore {
    var skills: seq<Skill>

    ghost predicate Valid()
      reads this
    {
      UniqueKeys(skills)
    }

    constructor ()
      ensures Valid() && skills == []
    {
      skills := [];
    }

    /** `create(data)`: saves one skill. A name already in the catalogue
        breaks the unique index; `newId` is the ObjectId the driver
        generates. */
    method Create(data: SkillData, newId: Id, now: Time) returns (r: Result<Skill>)
      requires Valid() && !HasId(skills, newId)
      modifies this
      ensures Valid()
      ensures NewSkill(newId, data, now).Err? ==> r == NewSkill(newId, data, now)
      ensures NewSkill(newId, data, now).Ok? && NameTaken(old(skills), data.name.value, newId) ==>
        r == Err(DuplicateKey("name"))
      ensures NewSkill(newId, data, now).Ok? && !NameTaken(old(skills), data.name.value, newId) ==>
        r == NewSkill(newId, data, now)
      ensures r.Ok? ==> skills == old(skills) + [r.value]
      ensures r.Err? ==> skills == old(skills)
    {
      r := NewSkill(newId, data, now);
      if r.Err? {
        return;
      }
      if NameTakenBy(skills, r.value.name, newId) {
        return Err(DuplicateKey("name"));
      }
      skills := skills + [r.value];
    }

    /** `findAll()`: the active skills, in store order. */
    function FindAll(): (r: seq<Skill>)
      reads this
      ensures forall i :: 0 <= i < |r| ==> r[i].isActive && r[i] in skills
      ensures forall i :: 0 <= i < |skills| && skills[i].isActive ==> skills[i] in r
      ensures multiset(r) <= multiset(skills)
    {
      Filter(skills, IsActiveSkill)
    }

    /** `findById(id)`: active or not. */
    function FindById(id: Id): (r: Result<Skill>)
      reads this
      ensures r.Ok? <==> HasId(skills, id)
      ensures r.Ok? ==> r.value in skills && r.value.id == id
      ensures r.Err? ==> r.error == NotFound(SkillNotFound)
    {
      match IndexOfId(skills, id)
      case Some(i) => Ok(skills[i])
      case None => Err(NotFound(SkillNotFound))
    }

    /** `update(id, data)`: rewrites the given fields of one skill; renaming
        it to another skill's name breaks the unique index. */
    method Update(id: Id, data: SkillData, now: Time) returns (r: Result<Skill>)
      requires Valid()
      modifies this
      ensures Valid()
      ensures !HasId(old(skills), id) ==> r == Err(NotFound(SkillNotFound)) && skills == old(skills)
      ensures HasId(old(skills), id) && data.name.Some? && NameTaken(old(skills), data.name.value, id) ==>
        r == Err(DuplicateKey("name")) && skills == old(skills)
      ensures HasId(old(skills), id) && !(data.name.Some? && NameTaken(old(skills), data.name.value, id)) ==>
        var i := IndexOfId(old(skills), id).value;
        && skills == old(skills)[i := ApplyUpdate(old(skills)[i], data, now)]
        && r == Ok(skills[i])
    {
      var found := IndexOfId(skills, id);
      if found.None? {
        return Err(NotFound(SkillNotFound));
      }
      if data.name.Some? && NameTakenBy(skills, data.name.value, id) {
        return Err(DuplicateKey("name"));
      }
      var i := found.value;
      var updated := ApplyUpdate(skills[i], data, now);
      skills := skills[i := updated];
      r := Ok(updated);
      assert forall j :: 0 <= j < |skills| && j != i ==> skills[j] == old(skills)[j];
    }

    /** `remove(id)`: a soft delete; the skill stays in the catalogue,
        inactive. */
    method Remove(id: Id, now: Time) returns (r: Result<()>)
      requires Valid()
      modifies this
      ensures Valid()
      ensures !HasId(old(skills), id) ==> r == Err(NotFound(SkillNotFound)) && skills == old(skills)
      ensures HasId(old(skills), id) ==>
        var i := IndexOfId(old(skills), id).value;
        && r == Ok(())
        && skills == old(skills)[i := old(skills)[i].(isActive := false, updatedAt := now)]
    {
      var found := IndexOfId(skills, id);
      if found.None? {
        return Err(NotFound(SkillNotFound));
      }
      var i := found.value;
      skills := skills[i := skills[i].(isActive := false, updatedAt := now)];
      r := Ok(());
    }

    /** `getPopularSkills()`. */
    function GetPopularSkills(): (r: seq<Skill>)
      reads this
      ensures |r| == if Count(skills, IsActiveSkill) < 10 then Count(skills, IsActiveSkill) else 10
      ensures SortedDesc(r, Popularity)
      ensures forall i :: 0 <= i < |r| ==> r[i].isActive && r[i] in skills
      ensures multiset(r) <= multiset(skills)
    {
      PopularSkills(skills)
    }
  }
}
