/**
 * The project picker of `frontend/src/components/ProjectSwitcher.jsx`: the
 * filtered list shown for a search text, the selected project, and how the
 * toggle button, the Escape key, typing and choosing a row change the
 * picker's `open`/`query` state. Rendering is left out; a project is the
 * JavaScript value the caller passed in, so a project without a string
 * `name` or `id` makes filtering throw, as it does in the browser.
 */
module ProjectSwitcher {
  import opened Wrappers
  import opened Strings
  import opened Json
  import Ordering

  // ---------------------------------------------------------------------------
  // Filtering
  // ---------------------------------------------------------------------------

  /** `v.toLowerCase().includes(q)` for a string `v`. */
  predicate MentionsIn(v: string, q: string) {
    Contains(Lower(v), q)
  }

  /** Some tag, coerced with `String(t)` and lower-cased, contains `q`. */
  predicate SomeTagMentions(tags: seq<Value>, q: string) {
    exists i :: 0 <= i < |tags| && MentionsIn(JsString(tags[i]), q)
  }

  /**
   * The filter callback for one project: name first, then id, then tags
   * (`p.tags || []`), each tested only when the earlier ones failed. Reading
   * a member of `null`/`undefined`, lower-casing a non-string and calling
   * `some` on a non-array all throw.
   */
  function Matches(p: Value, q: string): (r: Result<bool>)
    ensures r.Ok? && r.value ==> (
      && Get(p, "name").Str?
      && (|| MentionsIn(Get(p, "name").s, q)
          || (Get(p, "id").Str? && MentionsIn(Get(p, "id").s, q))
          || (Or(Get(p, "tags"), Arr([])).Arr? && SomeTagMentions(Or(Get(p, "tags"), Arr([])).items, q))))
  {
    if Nullish(p) then Err("TypeError: cannot read properties of " + JsString(p))
    else
      var name := Get(p, "name");
      if !name.Str? then Err("TypeError: p.name.toLowerCase is not a function")
      else if MentionsIn(name.s, q) then Ok(true)
      else
        var id := Get(p, "id");
        if !id.Str? then Err("TypeError: p.id.toLowerCase is not a function")
        else if MentionsIn(id.s, q) then Ok(true)
        else
          var tags := Or(Get(p, "tags"), Arr([]));
          if !tags.Arr? then Err("TypeError: (p.tags || []).some is not a function")
          else Ok(SomeTagMentions(tags.items, q))
  }

  /** A well-formed project: an object with a string name and id, and tags that are an array or falsy. */
  predicate WellFormed(p: Value) {
    p.Obj? && Get(p, "name").Str? && Get(p, "id").Str? && Or(Get(p, "tags"), Arr([])).Arr?
  }

  /** The name, the id or a tag of a well-formed project contains `q`. */
  predicate Accepts(p: Value, q: string)
    requires WellFormed(p)
  {
    || MentionsIn(Get(p, "name").s, q)
    || MentionsIn(Get(p, "id").s, q)
    || SomeTagMentions(Or(Get(p, "tags"), Arr([])).items, q)
  }

  /** The callback never throws on a well-formed project, and it decides the three-way test. */
  lemma MatchesWellFormed(p: Value, q: string)
    requires WellFormed(p)
    ensures Matches(p, q) == Ok(Accepts(p, q))
  {
  }

  /** `Array.prototype.filter` with a callback that may throw: the first throw aborts the filter. */
  function FilterBy(ps: seq<Value>, test: Value -> Result<bool>): (r: Result<seq<Value>>)
    ensures r.Ok? ==> Ordering.Subsequence(r.value, ps)
  {
    if ps == [] then Ok([])
    else
      match test(ps[0])
      case Err(e) => Err(e)
      case Ok(keep) =>
        match FilterBy(ps[1..], test)
        case Err(e) => Err(e)
        case Ok(rest) => if keep then Ok([ps[0]] + rest) else Ok(rest)
  }

  /** The filter succeeds exactly when no callback throws. */
  lemma {:induction false} FilterByOk(ps: seq<Value>, test: Value -> Result<bool>)
    ensures FilterBy(ps, test).Ok? <==> forall i :: 0 <= i < |ps| ==> test(ps[i]).Ok?
    decreases |ps|
  {
    if ps != [] {
      FilterByOk(ps[1..], test);
      if test(ps[0]).Ok? && FilterBy(ps[1..], test).Ok? {
        forall i | 0 <= i < |ps| ensures test(ps[i]).Ok? {
          if i > 0 {
            assert ps[i] == ps[1..][i - 1];
          }
        }
      } else if test(ps[0]).Ok? {
        var j :| 0 <= j < |ps[1..]| && !test(ps[1..][j]).Ok?;
        assert !test(ps[j + 1]).Ok?;
      }
    }
  }

  /** When the filter succeeds it keeps exactly the elements the callback accepts. */
  lemma {:induction false} FilterByKeeps(ps: seq<Value>, test: Value -> Result<bool>)
    requires FilterBy(ps, test).Ok?
    ensures forall p :: p in FilterBy(ps, test).value <==> p in ps && test(p) == Ok(true)
    decreases |ps|
  {
    if ps != [] {
      FilterByKeeps(ps[1..], test);
      assert ps == [ps[0]] + ps[1..];
    }
  }

  /** `projects.filter(...)` with the project callback. */
  function FilterProjects(ps: seq<Value>, q: string): Result<seq<Value>> {
    FilterBy(ps, p => Matches(p, q))
  }

  /** The search text as the filter uses it. */
  function Needle(query: string): string {
    Lower(JsTrim(query))
  }

  /** `filtered`: every project for a blank search, otherwise those the callback keeps, in order. */
  function Filtered(projects: seq<Value>, query: string): (r: Result<seq<Value>>)
    ensures Needle(query) == "" ==> r == Ok(projects)
    ensures r.Ok? ==> Ordering.Subsequence(r.value, projects)
  {
    Ordering.SubsequenceRefl(projects);
    var q := Needle(query);
    if q == "" then Ok(projects) else FilterProjects(projects, q)
  }

  /**
   * For a search that is not blank, over well-formed projects, the filter
   * keeps a project exactly when its name, id or a tag contains the
   * lower-cased, trimmed search text.
   */
  lemma FilteredMembers(projects: seq<Value>, query: string)
    requires Needle(query) != ""
    requires forall p :: p in projects ==> WellFormed(p)
    ensures Filtered(projects, query).Ok?
    ensures forall p :: p in Filtered(projects, query).value <==> p in projects && Accepts(p, Needle(query))
  {
    var q := Needle(query);
    forall p | p in projects ensures Matches(p, q) == Ok(Accepts(p, q)) {
      MatchesWellFormed(p, q);
    }
    FilterByOk(projects, p => Matches(p, q));
    FilterByKeeps(projects, p => Matches(p, q));
  }

  /** The search ignores letter case and surrounding blanks. */
  lemma FilteredIgnoresCase(projects: seq<Value>, query: string)
    ensures Filtered(projects, Lower(query)) == Filtered(projects, query)
  {
    JsTrimLower(query);
    LowerIdempotent(JsTrim(query));
  }

  // ---------------------------------------------------------------------------
  // The selected project
  // ---------------------------------------------------------------------------

  /**
   * `===` on the values a project id can hold. Objects and arrays compare by
   * identity in JavaScript; the model has no identities and treats them as
   * never equal.
   */
  predicate StrictEq(a: Value, b: Value) {
    !a.Arr? && !a.Obj? && a == b
  }

  /** `projects.find(p => p.id === selectedId)`: reading `id` of `null`/`undefined` throws. */
  function Find(ps: seq<Value>, selectedId: Value): (r: Result<Value>)
    ensures r.Ok? && !r.value.Undefined? ==> r.value in ps && StrictEq(Get(r.value, "id"), selectedId)
    ensures r.Err? ==> exists i :: 0 <= i < |ps| && Nullish(ps[i])
  {
    if ps == [] then Ok(Undefined)
    else if Nullish(ps[0]) then Err("TypeError: cannot read properties of " + JsString(ps[0]))
    else if StrictEq(Get(ps[0], "id"), selectedId) then Ok(ps[0])
    else Find(ps[1..], selectedId)
  }

  /**
   * `selected`: the found project, or `null`. It is never `undefined`, and the
   * search throws only on a `null` or `undefined` entry.
   */
  function Selected(projects: seq<Value>, selectedId: Value): (r: Result<Value>)
    ensures r.Ok? ==> r.value.Null? || (r.value in projects && StrictEq(Get(r.value, "id"), selectedId))
    ensures r.Err? ==> exists i :: 0 <= i < |projects| && Nullish(projects[i])
  {
    match Find(projects, selectedId)
    case Err(e) => Err(e)
    case Ok(p) => Ok(Or(p, Null))
  }

  /**
   * Over object projects, the selected project is the first one whose id
   * equals `selectedId`, and it is `null` exactly when none does.
   */
  lemma {:induction false} SelectedIsFirstMatch(projects: seq<Value>, selectedId: Value)
    requires forall i :: 0 <= i < |projects| ==> projects[i].Obj?
    ensures Selected(projects, selectedId).Ok?
    ensures Selected(projects, selectedId).value == Null <==>
      forall i :: 0 <= i < |projects| ==> !StrictEq(Get(projects[i], "id"), selectedId)
    ensures Selected(projects, selectedId).value != Null ==>
      exists i :: 0 <= i < |projects| && Selected(projects, selectedId).value == projects[i]
        && StrictEq(Get(projects[i], "id"), selectedId)
        && forall j :: 0 <= j < i ==> !StrictEq(Get(projects[j], "id"), selectedId)
    decreases |projects|
  {
    if projects != [] && !StrictEq(Get(projects[0], "id"), selectedId) {
      var rest := projects[1..];
      SelectedIsFirstMatch(rest, selectedId);
      SelectedSkips(projects, selectedId);
      if Selected(rest, selectedId).value == Null {
        forall i | 0 <= i < |projects| ensures !StrictEq(Get(projects[i], "id"), selectedId) {
          if i > 0 {
            assert projects[i] == rest[i - 1];
          }
        }
      } else {
        var i :| 0 <= i < |rest| && Selected(rest, selectedId).value == rest[i]
          && StrictEq(Get(rest[i], "id"), selectedId)
          && forall j :: 0 <= j < i ==> !StrictEq(Get(rest[j], "id"), selectedId);
        assert projects[i + 1] == rest[i];
        forall j | 0 <= j < i + 1 ensures !StrictEq(Get(projects[j], "id"), selectedId) {
          if j > 0 {
            assert projects[j] == rest[j - 1];
          }
        }
      }
    }
  }

  /** An object whose id does not match is passed over. */
  lemma SelectedSkips(projects: seq<Value>, selectedId: Value)
    requires projects != [] && projects[0].Obj? && !StrictEq(Get(projects[0], "id"), selectedId)
    ensures Selected(projects, selectedId) == Selected(projects[1..], selectedId)
  {
  }

  const NoSelection: string := "Select a project\U{2026}"

  /** The toggle button's caption: `name (id)` of the selected project, or a prompt. */
  function Caption(selected: Value): (r: string)
    ensures !Truthy(selected) <==> r == NoSelection
    ensures Truthy(selected) ==> JsString(Get(selected, "name")) <= r
  {
    if Truthy(selected) then
      var r := JsString(Get(selected, "name")) + " (" + JsString(Get(selected, "id")) + ")";
      assert r[|r| - 1] == ')' != NoSelection[|NoSelection| - 1];
      r
    else NoSelection
  }

  // ---------------------------------------------------------------------------
  // The picker's state
  // ---------------------------------------------------------------------------

  /** Whether the list is open, and the search text typed into it. */
  datatype Picker = Picker(open: bool, query: string)

  const Initial: Picker := Picker(false, "")

  /**
   * What can happen: the toggle button, the Escape key anywhere in the
   * window, typing into the search box, and choosing the row at an index of
   * the shown list. The box and the rows exist only while the list is open.
   */
  datatype Event = Toggle | Escape | Type(text: string) | Choose(row: nat)

  /** One event: the next state and the id handed to `onSelect`, if any. */
  datatype Outcome = Outcome(next: Picker, chosen: Option<Value>)

  function Step(s: Picker, ev: Event, projects: seq<Value>): (o: Outcome)
    ensures ev.Escape? ==> !o.next.open && o.next.query == s.query && o.chosen == None
    ensures ev.Toggle? ==> o.next == Picker(!s.open, s.query) && o.chosen == None
    ensures ev.Type? ==> o == Outcome(if s.open then Picker(true, ev.text) else s, None)
    ensures ev.Choose? ==>
      var shown := Filtered(projects, s.query);
      if s.open && shown.Ok? && ev.row < |shown.value|
      then o == Outcome(Initial, Some(Get(shown.value[ev.row], "id")))
      else o == Outcome(s, None)
    ensures o.chosen.Some? ==> ev.Choose? && s.open && o.next == Initial
  {
    match ev
    case Toggle => Outcome(Picker(!s.open, s.query), None)
    case Escape => Outcome(Picker(false, s.query), None)
    case Type(text) => if s.open then Outcome(Picker(true, text), None) else Outcome(s, None)
    case Choose(row) =>
      var shown := Filtered(projects, s.query);
      if s.open && shown.Ok? && row < |shown.value| then
        Outcome(Initial, Some(Get(shown.value[row], "id")))
      else Outcome(s, None)
  }

  /** Pressing the button twice restores the picker. */
  lemma ToggleTwice(s: Picker, projects: seq<Value>)
    ensures Step(Step(s, Toggle, projects).next, Toggle, projects).next == s
  {
  }

  /** Escape is idempotent. */
  lemma EscapeIdempotent(s: Picker, projects: seq<Value>)
    ensures Step(Step(s, Escape, projects).next, Escape, projects) == Step(s, Escape, projects)
  {
  }

  /**
   * Choosing hands over the id of a shown project, one the current search
   * keeps, and afterwards the list, when reopened, shows every project again.
   */
  lemma ChooseShowsAllAfterwards(s: Picker, row: nat, projects: seq<Value>)
    requires Step(s, Choose(row), projects).chosen.Some?
    ensures var shown := Filtered(projects, s.query).value;
      row < |shown| && shown[row] in projects
      && Step(s, Choose(row), projects).chosen == Some(Get(shown[row], "id"))
    ensures Filtered(projects, Step(s, Choose(row), projects).next.query) == Ok(projects)
  {
    var r := Filtered(projects, s.query);
    assert s.open && r.Ok? && row < |r.value|;
    Ordering.SubsequenceMembers(r.value, projects);
    assert r.value[row] in r.value;
    assert Step(s, Choose(row), projects).next == Initial;
    ResetShowsAll(projects);
  }

  /** Opening the closed picker and choosing a row selects that project, closes the list and clears the search. */
  lemma OpenThenChoose(projects: seq<Value>, i: nat)
    requires i < |projects|
    ensures Step(Step(Initial, Toggle, projects).next, Choose(i), projects)
         == Outcome(Initial, Some(Get(projects[i], "id")))
  {
    ResetShowsAll(projects);
  }

  lemma ResetShowsAll(projects: seq<Value>)
    ensures Filtered(projects, Initial.query) == Ok(projects)
  {
    assert Needle("") == "";
  }
}
