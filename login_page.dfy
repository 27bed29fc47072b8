/** The sign-in / sign-up page's form state and its handlers: typing into
    a text field, typing a comma-separated skill list, ticking an
    availability option, and switching between the two modes. */
module LoginPage {
  import opened Common
  import opened Text

  /** `formData`. */
  datatype LoginForm = LoginForm(
    email: string,
    password: string,
    firstName: string,
    lastName: string,
    bio: string,
    location: string,
    offeredSkills: seq<string>,
    wantedSkills: seq<string>,
    availability: seq<string>)

  /** The state the page starts in, and returns to on every mode switch. */
  const EmptyForm := LoginForm("", "", "", "", "", "", [], [], [])

  /** `isLogin` and `formData` together. */
  datatype Page = Page(isLogin: bool, form: LoginForm)

  const InitialPage := Page(true, EmptyForm)

  /** The options the availability checkboxes offer. */
  const AvailabilityOptions := ["Weekdays", "Evenings", "Weekends", "Flexible"]

  /** The text inputs wired to `handleInputChange`, by their `name`. */
  datatype TextField = Email | Password | FirstName | LastName | Bio | Location

  function FieldValue(f: LoginForm, field: TextField): string {
    match field
    case Email => f.email
    case Password => f.password
    case FirstName => f.firstName
    case LastName => f.lastName
    case Bio => f.bio
    case Location => f.location
  }

  /** `handleInputChange(e)`: the field named by the input takes the value;
      every other field, and the three lists, keep theirs. */
  function HandleInputChange(f: LoginForm, field: TextField, value: string): (r: LoginForm)
    ensures FieldValue(r, field) == value
    ensures forall other :: other != field ==> FieldValue(r, other) == FieldValue(f, other)
    ensures r.offeredSkills == f.offeredSkills && r.wantedSkills == f.wantedSkills && r.availability == f.availability
  {
    match field
    case Email => f.(email := value)
    case Password => f.(password := value)
    case FirstName => f.(firstName := value)
    case LastName => f.(lastName := value)
    case Bio => f.(bio := value)
    case Location => f.(location := value)
  }

  /** Typing the value a field already holds changes nothing, and the last
      of two edits to one field wins. */
  lemma InputChangeLastWins(f: LoginForm, field: TextField, v1: string, v2: string)
    ensures HandleInputChange(f, field, FieldValue(f, field)) == f
    ensures HandleInputChange(HandleInputChange(f, field, v1), field, v2) == HandleInputChange(f, field, v2)
  {
  }

  datatype SkillList = OfferedSkills | WantedSkills

  function SkillsOf(f: LoginForm, kind: SkillList): seq<string> {
    match kind
    case OfferedSkills => f.offeredSkills
    case WantedSkills => f.wantedSkills
  }

  /** `pieces.map(skill => skill.trim())`. */
  function TrimAll(pieces: seq<string>): (r: seq<string>)
    ensures |r| == |pieces| && forall k :: 0 <= k < |r| ==> r[k] == Trim(pieces[k])
  {
    seq(|pieces|, k requires 0 <= k < |pieces| => Trim(pieces[k]))
  }

  /** `handleSkillsChange(type, value)`: a value that trims to nothing is
      ignored; otherwise the list becomes the comma-separated pieces,
      trimmed, empty pieces included. Nothing else changes. */
  function HandleSkillsChange(f: LoginForm, kind: SkillList, value: string): (r: LoginForm)
    ensures AllWhitespace(value) ==> r == f
    ensures !AllWhitespace(value) ==>
      && SkillsOf(r, kind) == TrimAll(Split(value, ','))
      && r == (match kind
               case OfferedSkills => f.(offeredSkills := SkillsOf(r, kind))
               case WantedSkills => f.(wantedSkills := SkillsOf(r, kind)))
  {
    TrimSpec(value);
    if Trim(value) == "" then f
    else
      var skills := TrimAll(Split(value, ','));
      match kind
      case OfferedSkills => f.(offeredSkills := skills)
      case WantedSkills => f.(wantedSkills := skills)
  }

  /** The new list has one entry per comma plus one, and every entry is
      trimmed and free of commas. */
  lemma {:induction false} SkillsChangeShape(f: LoginForm, kind: SkillList, value: string)
    requires !AllWhitespace(value)
    ensures var s := SkillsOf(HandleSkillsChange(f, kind, value), kind);
      && |s| == Occurrences(value, ',') + 1
      && forall k :: 0 <= k < |s| ==> Trim(s[k]) == s[k] && ',' !in s[k]
  {
    var pieces := Split(value, ',');
    var s := SkillsOf(HandleSkillsChange(f, kind, value), kind);
    forall k | 0 <= k < |s| ensures Trim(s[k]) == s[k] && ',' !in s[k] {
      TrimIdempotent(pieces[k]);
      TrimSpec(pieces[k]);
      assert ',' !in pieces[k];
      assert forall c :: c in s[k] ==> c in pieces[k];
    }
  }

  /** Empty pieces are kept: two adjacent commas give an empty entry. */
  lemma {:induction false} SkillsChangeKeepsEmptyPieces(f: LoginForm, kind: SkillList, w: string, rest: string)
    requires ',' !in w && !AllWhitespace(w)
    ensures var s := SkillsOf(HandleSkillsChange(f, kind, w + ",," + rest), kind);
      && |s| >= 2 && s[0] == Trim(w) && s[1] == ""
      && s[2..] == TrimAll(Split(rest, ','))
  {
    var value := w + ",," + rest;
    assert !AllWhitespace(value) by {
      var i :| 0 <= i < |w| && !IsWhitespace(w[i]);
      assert value[i] == w[i];
    }
    SplitAdjacent(w, rest);
    TrimAllEmptySecond(Split(value, ','), w, Split(rest, ','));
  }

  lemma TrimAllEmptySecond(pieces: seq<string>, w: string, tail: seq<string>)
    requires pieces == [w, ""] + tail
    ensures var v := TrimAll(pieces);
      |v| >= 2 && v[0] == Trim(w) && v[1] == "" && v[2..] == TrimAll(tail)
  {
    assert pieces[0] == w && pieces[1] == "" && pieces[2..] == tail;
    TrimSpec(pieces[1]);
    TrimAllSuffix(pieces, 2);
  }

  lemma TrimAllSuffix(pieces: seq<string>, n: nat)
    requires n <= |pieces|
    ensures TrimAll(pieces)[n..] == TrimAll(pieces[n..])
  {
    var v := TrimAll(pieces)[n..];
    var u := TrimAll(pieces[n..]);
    forall k | 0 <= k < |u|
      ensures v[k] == u[k]
    {
      assert pieces[n..][k] == pieces[n + k];
    }
  }

  lemma {:induction false} SplitAdjacent(w: string, rest: string)
    requires ',' !in w
    ensures Split(w + ",," + rest, ',') == [w, ""] + Split(rest, ',')
  {
    assert w + ",," + rest == w + [','] + ([','] + rest);
    SplitPrefix(w, [','] + rest, ',');
    assert [] + [','] + rest == [','] + rest;
    SplitPrefix("", rest, ',');
  }

  lemma JoinHead(words: seq<string>, sep: char)
    requires |words| >= 1 && words[0] != ""
    ensures Join(words, sep) != "" && Join(words, sep)[0] == words[0][0]
  {
  }

  /** Typing back a list of trimmed, non-empty, comma-free skills joined by
      commas gives that list. */
  lemma {:induction false} SkillsChangeRoundTrip(f: LoginForm, kind: SkillList, skills: seq<string>)
    requires |skills| >= 1
    requires forall k :: 0 <= k < |skills| ==> skills[k] != "" && Trim(skills[k]) == skills[k] && ',' !in skills[k]
    ensures SkillsOf(HandleSkillsChange(f, kind, Join(skills, ',')), kind) == skills
  {
    var value := Join(skills, ',');
    JoinHead(skills, ',');
    TrimSpec(skills[0]);
    assert !AllWhitespace(value) by {
      assert !IsWhitespace(value[0]);
    }
    JoinedPieces(skills);
  }

  lemma {:induction false} JoinedPieces(skills: seq<string>)
    requires |skills| >= 1
    requires forall k :: 0 <= k < |skills| ==> Trim(skills[k]) == skills[k] && ',' !in skills[k]
    ensures TrimAll(Split(Join(skills, ','), ',')) == skills
  {
    SplitJoin(skills, ',');
  }

  /** `handleAvailabilityChange(option)`: removes every copy of the option
      when it is listed, and appends it otherwise. */
  function HandleAvailabilityChange(f: LoginForm, option: string): (r: LoginForm)
    ensures option in r.availability <==> option !in f.availability
    ensures forall x :: x != option ==> (x in r.availability <==> x in f.availability)
    ensures option !in f.availability ==> r.availability == f.availability + [option]
    ensures option in f.availability ==> multiset(r.availability) == multiset(f.availability)[option := 0]
    ensures option in f.availability ==> r.availability == Filter(f.availability, (a: string) => a != option)
    ensures r == f.(availability := r.availability)
  {
    var avail := f.availability;
    FilterMembers(avail, (a: string) => a != option);
    FilterDropsOnly(avail, option);
    if option in avail then f.(availability := Filter(avail, (a: string) => a != option))
    else f.(availability := avail + [option])
  }

  /** Dropping one value removes all its copies and keeps every other. */
  lemma FilterDropsOnly(s: seq<string>, option: string)
    ensures multiset(Filter(s, (a: string) => a != option)) == multiset(s)[option := 0]
  {
    var r := Filter(s, (a: string) => a != option);
    forall x ensures multiset(r)[x] == multiset(s)[option := 0][x] {
      FilterDropsOnlyAt(s, option, x);
    }
  }

  /** `FilterDropsOnly` for one value `x`. */
  lemma {:induction false} FilterDropsOnlyAt(s: seq<string>, option: string, x: string)
    ensures multiset(Filter(s, (a: string) => a != option))[x] == if x == option then 0 else multiset(s)[x]
  {
    var p := (a: string) => a != option;
    if s != [] {
      var tail := s[1..];
      var rest := Filter(tail, p);
      FilterDropsOnlyAt(tail, option, x);
      assert s == [s[0]] + tail;
      assert multiset(s)[x] == multiset([s[0]])[x] + multiset(tail)[x];
      if p(s[0]) {
        assert Filter(s, p) == [s[0]] + rest;
        assert multiset(Filter(s, p))[x] == multiset([s[0]])[x] + multiset(rest)[x];
      } else {
        assert Filter(s, p) == rest;
      }
    }
  }

  /** Ticking an option twice restores which options are listed; on a list
      without it, the list itself comes back. */
  lemma {:induction false} AvailabilityToggleTwice(f: LoginForm, option: string)
    ensures var g := HandleAvailabilityChange(HandleAvailabilityChange(f, option), option);
      forall x :: x in g.availability <==> x in f.availability
    ensures option !in f.availability ==>
      HandleAvailabilityChange(HandleAvailabilityChange(f, option), option) == f
  {
    if option !in f.availability {
      var avail := f.availability;
      var p := (a: string) => a != option;
      FilterAppend(avail, [option], p);
      FilterNone(avail, p);
      assert [option][1..] == [];
      assert Filter([option], p) == [];
      assert avail + [] == avail;
    }
  }

  lemma {:induction false} FilterNone<T>(s: seq<T>, p: T -> bool)
    requires forall i :: 0 <= i < |s| ==> p(s[i])
    ensures Filter(s, p) == s
  {
    if s != [] {
      FilterNone(s[1..], p);
      assert [s[0]] + s[1..] == s;
    }
  }

  /** `toggleMode()`: switches between signing in and signing up and clears
      every field. */
  function ToggleMode(p: Page): (r: Page)
    ensures r.isLogin == !p.isLogin
    ensures r.form == EmptyForm
    ensures forall field :: FieldValue(r.form, field) == ""
  {
    Page(!p.isLogin, EmptyForm)
  }

  /** Switching twice returns to the same mode with an empty form. */
  lemma ToggleModeTwice(p: Page)
    ensures ToggleMode(ToggleMode(p)) == Page(p.isLogin, EmptyForm)
  {
  }
}
