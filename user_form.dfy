/** The profile form: its initial state, the two skill lists it edits
    (add from a text input, remove by position) and when it may be
    submitted. */
module UserForm {
  import opened Common
  import opened Text

  /** `UserFormData`. */
  datatype FormData = FormData(
    name: string,
    skillsOffered: seq<string>,
    skillsWanted: seq<string>,
    availability: string,
    isPublic: bool,
    bio: string)

  /** `Partial<UserFormData>`: the fields the caller may pre-fill. */
  datatype InitialData = InitialData(
    name: Option<string>,
    skillsOffered: Option<seq<string>>,
    skillsWanted: Option<seq<string>>,
    availability: Option<string>,
    isPublic: Option<bool>,
    bio: Option<string>)

  /** `x || fallback` on a string: the empty string is falsy too. */
  function OrString(x: Option<string>, fallback: string): (r: string)
    ensures x.Some? && x.value != "" ==> r == x.value
    ensures x.None? || x.value == "" ==> r == fallback
  {
    if x.Some? && x.value != "" then x.value else fallback
  }

  /** The state the form starts in. An empty list is kept (arrays are truthy);
      an empty availability falls back to `available`; `isPublic` falls back to
      true only when it is not given (`??`). */
  function InitialForm(init: InitialData): (f: FormData)
    ensures f.name == init.name.GetOr("") && f.bio == init.bio.GetOr("")
    ensures f.skillsOffered == init.skillsOffered.GetOr([]) && f.skillsWanted == init.skillsWanted.GetOr([])
    ensures f.availability == OrString(init.availability, "available") && f.availability != ""
    ensures f.isPublic == init.isPublic.GetOr(true)
  {
    FormData(OrString(init.name, ""), init.skillsOffered.GetOr([]), init.skillsWanted.GetOr([]),
             OrString(init.availability, "available"), init.isPublic.GetOr(true), OrString(init.bio, ""))
  }

  /** The two text inputs, `skillInputs`, start empty. */
  datatype SkillInputs = SkillInputs(offered: string, wanted: string)

  const EmptyInputs := SkillInputs("", "")

  datatype Kind = Offered | Wanted

  /** The list a kind edits. */
  function ListOf(f: FormData, kind: Kind): seq<string> {
    match kind
    case Offered => f.skillsOffered
    case Wanted => f.skillsWanted
  }

  function WithList(f: FormData, kind: Kind, list: seq<string>): (g: FormData)
    ensures ListOf(g, kind) == list
    ensures g == (match kind
                  case Offered => f.(skillsOffered := list)
                  case Wanted => f.(skillsWanted := list))
  {
    match kind
    case Offered => f.(skillsOffered := list)
    case Wanted => f.(skillsWanted := list)
  }

  function InputOf(inputs: SkillInputs, kind: Kind): string {
    match kind
    case Offered => inputs.offered
    case Wanted => inputs.wanted
  }

  function ClearInput(inputs: SkillInputs, kind: Kind): (r: SkillInputs)
    ensures InputOf(r, kind) == ""
    ensures kind == Offered ==> r.wanted == inputs.wanted
    ensures kind == Wanted ==> r.offered == inputs.offered
  {
    match kind
    case Offered => inputs.(offered := "")
    case Wanted => inputs.(wanted := "")
  }

  /** Both pieces of state the form's handlers update. */
  datatype State = State(form: FormData, inputs: SkillInputs)

  /** `addSkill(type)`: the trimmed input is appended to its list, and the
      input cleared, when it is not empty and not already listed (compared
      exactly); otherwise nothing changes. */
  function AddSkill(st: State, kind: Kind): (r: State)
    ensures r == st || ListOf(r.form, kind) == ListOf(st.form, kind) + [Trim(InputOf(st.inputs, kind))]
    ensures r != st ==> InputOf(r.inputs, kind) == ""
  {
    var skill := Trim(InputOf(st.inputs, kind));
    if skill != "" && skill !in ListOf(st.form, kind) then
      State(WithList(st.form, kind, ListOf(st.form, kind) + [skill]), ClearInput(st.inputs, kind))
    else st
  }

  predicate NoDuplicates(s: seq<string>) {
    forall i, j :: 0 <= i < j < |s| ==> s[i] != s[j]
  }

  /** Every entry is already trimmed and not empty. */
  predicate AllTrimmed(s: seq<string>) {
    forall i :: 0 <= i < |s| ==> s[i] != "" && Trim(s[i]) == s[i]
  }

  /** Adding keeps both lists free of duplicates and of untrimmed or empty
      entries, and leaves the other list, the other input and the rest of
      the form as they were. */
  lemma {:induction false} AddSkillPreserves(st: State, kind: Kind)
    requires NoDuplicates(ListOf(st.form, kind)) && AllTrimmed(ListOf(st.form, kind))
    ensures var r := AddSkill(st, kind);
      && NoDuplicates(ListOf(r.form, kind)) && AllTrimmed(ListOf(r.form, kind))
      && |ListOf(r.form, kind)| <= |ListOf(st.form, kind)| + 1
      && r.form.name == st.form.name && r.form.availability == st.form.availability
      && r.form.isPublic == st.form.isPublic && r.form.bio == st.form.bio
      && (kind == Offered ==> r.form.skillsWanted == st.form.skillsWanted && r.inputs.wanted == st.inputs.wanted)
      && (kind == Wanted ==> r.form.skillsOffered == st.form.skillsOffered && r.inputs.offered == st.inputs.offered)
  {
    var skill := Trim(InputOf(st.inputs, kind));
    var list := ListOf(st.form, kind);
    if skill != "" && skill !in list {
      TrimIdempotent(InputOf(st.inputs, kind));
      AppendPreserves(list, skill);
    }
  }

  lemma AppendPreserves(list: seq<string>, skill: string)
    requires NoDuplicates(list) && AllTrimmed(list)
    requires skill != "" && Trim(skill) == skill && skill !in list
    ensures NoDuplicates(list + [skill]) && AllTrimmed(list + [skill])
  {
    var list' := list + [skill];
    assert forall i :: 0 <= i < |list| ==> list'[i] == list[i];
    assert list'[|list|] == skill;
  }

  /** An add takes effect exactly when the trimmed input is neither empty
      nor already listed; then the trimmed input is appended at the end of its
      list and its input is cleared, and otherwise the state is as it was. */
  lemma AddSkillOutcome(st: State, kind: Kind)
    ensures var skill := Trim(InputOf(st.inputs, kind));
      AddSkill(st, kind) != st <==> skill != "" && skill !in ListOf(st.form, kind)
    ensures AddSkill(st, kind) != st ==>
      && ListOf(AddSkill(st, kind).form, kind) == ListOf(st.form, kind) + [Trim(InputOf(st.inputs, kind))]
      && InputOf(AddSkill(st, kind).inputs, kind) == ""
  {
    var skill := Trim(InputOf(st.inputs, kind));
    var list := ListOf(st.form, kind);
    if skill != "" && skill !in list {
      assert |ListOf(AddSkill(st, kind).form, kind)| == |list| + 1;
    }
  }

  /** `list.filter((_, i) => i !== index)`. */
  function RemoveIndex(s: seq<string>, index: int): (r: seq<string>)
    ensures 0 <= index < |s| ==> r == s[..index] + s[index + 1..]
    ensures !(0 <= index < |s|) ==> r == s
  {
    if s == [] then []
    else
      var rest := RemoveIndex(s[1..], index - 1);
      if index == 0 then
        assert rest == s[1..];
        rest
      else
        if 0 < index < |s| then
          assert s[..index] == [s[0]] + s[1..][..index - 1];
          assert s[index + 1..] == s[1..][index..];
          [s[0]] + rest
        else
          assert [s[0]] + s[1..] == s;
          [s[0]] + rest
  }

  /** `removeSkill(type, index)`: drops the entry at `index` from its list and
      keeps the others in order; any other index leaves the list as it is.
      The other list and the inputs are untouched. */
  function RemoveSkill(f: FormData, kind: Kind, index: int): (g: FormData)
    ensures ListOf(g, kind) == RemoveIndex(ListOf(f, kind), index)
    ensures g == WithList(f, kind, ListOf(g, kind))
  {
    WithList(f, kind, RemoveIndex(ListOf(f, kind), index))
  }

  /** The position in the old list of entry `i` after removing `index`. */
  function Skip(i: nat, index: nat): nat {
    if i < index then i else i + 1
  }

  /** Entry `i` of the shortened list is entry `Skip(i, index)` of the old one. */
  lemma RemovedAt(s: seq<string>, index: nat)
    requires index < |s|
    ensures forall i :: 0 <= i < |s| - 1 ==> (s[..index] + s[index + 1..])[i] == s[Skip(i, index)]
  {
  }

  /** Removing keeps a list free of duplicates and of untrimmed entries. */
  lemma {:induction false} RemoveIndexPreserves(s: seq<string>, index: int)
    requires NoDuplicates(s) && AllTrimmed(s)
    ensures NoDuplicates(RemoveIndex(s, index)) && AllTrimmed(RemoveIndex(s, index))
    ensures 0 <= index < |s| ==> |RemoveIndex(s, index)| == |s| - 1
  {
    if 0 <= index < |s| {
      var r := RemoveIndex(s, index);
      RemovedAt(s, index);
      forall i | 0 <= i < |r|
        ensures r[i] != "" && Trim(r[i]) == r[i]
      {
        assert r[i] == s[Skip(i, index)];
      }
      forall i, j | 0 <= i < j < |r|
        ensures r[i] != r[j]
      {
        assert r[i] == s[Skip(i, index)] && r[j] == s[Skip(j, index)];
        assert Skip(i, index) < Skip(j, index);
      }
    }
  }

  lemma {:induction false} RemoveSkillPreserves(f: FormData, kind: Kind, index: int)
    requires NoDuplicates(ListOf(f, kind)) && AllTrimmed(ListOf(f, kind))
    ensures NoDuplicates(ListOf(RemoveSkill(f, kind, index), kind))
    ensures AllTrimmed(ListOf(RemoveSkill(f, kind, index), kind))
    ensures 0 <= index < |ListOf(f, kind)| ==> |ListOf(RemoveSkill(f, kind, index), kind)| == |ListOf(f, kind)| - 1
  {
    RemoveIndexPreserves(ListOf(f, kind), index);
  }

  /** Removing the entry just added undoes the add on the form. */
  lemma {:induction false} RemoveUndoesAdd(st: State, kind: Kind)
    requires AddSkill(st, kind) != st
    ensures RemoveSkill(AddSkill(st, kind).form, kind, |ListOf(st.form, kind)|) == st.form
  {
    var list := ListOf(st.form, kind);
    var skill := Trim(InputOf(st.inputs, kind));
    assert (list + [skill])[..|list|] == list;
    assert (list + [skill])[|list| + 1..] == [];
    assert list + [] == list;
  }

  /** The submit button is disabled while saving, while either list is
      empty, or while the name is blank. */
  predicate SubmitDisabled(isLoading: bool, f: FormData) {
    isLoading || |f.skillsOffered| == 0 || |f.skillsWanted| == 0 || Trim(f.name) == ""
  }

  /** A form that can be submitted has a name that is not all whitespace and
      at least one skill in each list; a form started from nothing cannot be
      submitted. */
  lemma SubmitEnabledMeans(isLoading: bool, f: FormData, init: InitialData)
    ensures !SubmitDisabled(isLoading, f) ==>
      !isLoading && !AllWhitespace(f.name) && |f.skillsOffered| >= 1 && |f.skillsWanted| >= 1
    ensures init.name.None? ==> SubmitDisabled(isLoading, InitialForm(init))
  {
    TrimSpec(f.name);
    TrimSpec(InitialForm(init).name);
  }
}
