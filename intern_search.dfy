/**
 * main/intern-search/js/main.js: the open-positions list, filtered by a
 * free-text search and by department and type checkboxes; the "already
 * applied" guard kept in local storage; and the filter dropdowns, of which
 * at most one is open.
 */
module InternSearch {
  import opened Wrappers
  import opened Strings

  /** One entry of `positions` (descriptions and links left out). */
  datatype Position = Position(id: int, title: string, department: string, kind: string)

  /** The checkbox groups: the `name` of a checkbox, a key of `activeFilters`. */
  datatype FilterKind = Department | Type

  // --------------------------------------------------------------- filter

  /** Case-insensitive substring search on title or department. */
  predicate MatchesSearch(p: Position, term: string) {
    Includes(Lower(p.title), Lower(term)) || Includes(Lower(p.department), Lower(term))
  }

  /**
   * The three conditions of `filterPositions`: an empty set imposes no
   * restriction; the department is compared lower-cased, the type exactly.
   */
  predicate Passes(p: Position, term: string, departments: set<string>, types: set<string>) {
    MatchesSearch(p, term) &&
    (departments == {} || Lower(p.department) in departments) &&
    (types == {} || p.kind in types)
  }

  /** `filterPositions(searchTerm)`, `positions.filter(...)`. */
  function FilterPositions(ps: seq<Position>, term: string, departments: set<string>, types: set<string>): (r: seq<Position>)
    ensures |r| <= |ps|
    ensures forall p :: p in r <==> p in ps && Passes(p, term, departments, types)
  {
    if ps == [] then []
    else
      var rest := FilterPositions(ps[1..], term, departments, types);
      assert forall p :: p in ps <==> p == ps[0] || p in ps[1..];
      if Passes(ps[0], term, departments, types) then [ps[0]] + rest else rest
  }

  /** Filtering distributes over concatenation, so it keeps the list's order. */
  lemma {:induction false} FilterAppend(a: seq<Position>, b: seq<Position>, term: string,
                                        departments: set<string>, types: set<string>)
    ensures FilterPositions(a + b, term, departments, types) ==
            FilterPositions(a, term, departments, types) + FilterPositions(b, term, departments, types)
  {
    if a == [] {
      assert a + b == b;
    } else {
      assert (a + b)[1..] == a[1..] + b;
      FilterAppend(a[1..], b, term, departments, types);
    }
  }

  /** The empty search term and no ticked boxes list every position, in order. */
  lemma {:induction false} NoFilterListsAll(ps: seq<Position>)
    ensures FilterPositions(ps, "", {}, {}) == ps
  {
    if ps != [] {
      IncludesEmpty(Lower(ps[0].title));
      NoFilterListsAll(ps[1..]);
      assert [ps[0]] + ps[1..] == ps;
    }
  }

  /** Ticking more boxes of one group never hides a position the fewer boxes showed. */
  lemma DepartmentWidening(p: Position, term: string, d1: set<string>, d2: set<string>, types: set<string>)
    requires d1 != {} && d1 <= d2
    ensures Passes(p, term, d1, types) ==> Passes(p, term, d2, types)
  {
  }

  /**
   * The shipped list: five TCIA internships. The "notice coalition"
   * department and "regular" type boxes match none of them.
   */
  const Positions: seq<Position> := [
    Position(1, "Web Development Intern", "TCIA", "intern"),
    Position(2, "Video Production Intern", "TCIA", "intern"),
    Position(3, "Marketing Data Analyst Intern", "TCIA", "intern"),
    Position(4, "Content/Copywriting Intern", "TCIA", "intern"),
    Position(5, "Digital Marketing & Graphic Design Intern", "TCIA", "intern")
  ]

  /** Ticking only "regular" empties the list whatever is searched. */
  lemma RegularListsNothing(term: string, departments: set<string>)
    ensures forall p :: p !in FilterPositions(Positions, term, departments, {"regular"})
  {
    forall p | p in Positions ensures p.kind != "regular" {}
  }

  // -------------------------------------------------------- checkbox sets

  /** `activeFilters[kind].add(value)` / `.delete(value)` */
  function Toggle(s: set<string>, value: string, checked: bool): (r: set<string>)
    ensures value in r <==> checked
    ensures forall v :: v != value ==> (v in r <==> v in s)
  {
    if checked then s + {value} else s - {value}
  }

  /** Re-checking (or re-unchecking) a box changes nothing. */
  lemma ToggleIdempotent(s: set<string>, value: string, checked: bool)
    ensures Toggle(Toggle(s, value, checked), value, checked) == Toggle(s, value, checked)
  {
  }

  /** Checking and then unchecking a box that was not ticked restores the set. */
  lemma ToggleUndo(s: set<string>, value: string)
    requires value !in s
    ensures Toggle(Toggle(s, value, true), value, false) == s
  {
  }

  /** The page's filter state: `activeFilters` and the search box's text. */
  class SearchPage {
    const positions: seq<Position>
    var departments: set<string>
    var types: set<string>
    var searchTerm: string
    var shown: seq<Position>

    ghost predicate Valid()
      reads this
    {
      shown == FilterPositions(positions, searchTerm, departments, types)
    }

    /**
     * The page loads with nothing ticked, nothing searched and every
     * position listed (`renderPositions()` over `Positions`).
     */
    constructor (ps: seq<Position>)
      ensures positions == ps
      ensures departments == {} && types == {} && searchTerm == ""
      ensures shown == ps
      ensures Valid()
    {
      positions := ps;
      departments := {};
      types := {};
      searchTerm := "";
      shown := ps;
      NoFilterListsAll(ps);
    }

    /** The `change` handler of a checkbox: update the group's set, re-filter. */
    method CheckboxChange(kind: FilterKind, value: string, checked: bool)
      modifies this
      ensures kind == Department ==> departments == Toggle(old(departments), value, checked) && types == old(types)
      ensures kind == Type ==> types == Toggle(old(types), value, checked) && departments == old(departments)
      ensures searchTerm == old(searchTerm)
      ensures Valid()
    {
      if kind == Department {
        departments := Toggle(departments, value, checked);
      } else {
        types := Toggle(types, value, checked);
      }
      shown := FilterPositions(positions, searchTerm, departments, types);
    }

    /** The search box's `input` handler. */
    method SearchInput(term: string)
      modifies this
      ensures searchTerm == term && departments == old(departments) && types == old(types)
      ensures Valid()
    {
      searchTerm := term;
      shown := FilterPositions(positions, searchTerm, departments, types);
    }
  }

  // ------------------------------------------------------ applied guard

  /** `positions.find(p => p.title === title)` */
  function FindByTitle(ps: seq<Position>, title: string): (r: Option<Position>)
    ensures r.Some? ==> r.value in ps && r.value.title == title
    ensures r.Some? ==> exists k :: 0 <= k < |ps| && ps[k] == r.value &&
                                   forall j :: 0 <= j < k ==> ps[j].title != title
    ensures r.None? <==> forall p :: p in ps ==> p.title != title
  {
    if ps == [] then None
    else if ps[0].title == title then Some(ps[0])
    else
      assert forall p :: p in ps ==> p == ps[0] || p in ps[1..];
      FindByTitle(ps[1..], title)
  }

  /** What a click on the form's submit button leads to. */
  datatype Outcome = Ignored | AlreadyApplied | Applied

  /**
   * The submit-button click and the form submission it arms: no matching
   * position (or no form) does nothing; an id already in `appliedPositions`
   * is refused with a message; otherwise the id is appended.
   */
  function Submit(applied: seq<int>, title: string, hasForm: bool): (r: (Outcome, seq<int>))
    ensures r.0 == Ignored ==> r.1 == applied
    ensures r.0 == AlreadyApplied ==> r.1 == applied
    ensures r.0 == AlreadyApplied <==> (exists p :: p in Positions && p.title == title) &&
                                       FindByTitle(Positions, title).value.id in applied
    ensures r.0 == Applied ==> exists p :: p in Positions && p.title == title && r.1 == applied + [p.id]
    ensures var f := FindByTitle(Positions, title);
            r.0 == Applied <==> f.Some? && f.value.id !in applied && hasForm
    ensures r.0 == Applied ==> r.1 == applied + [FindByTitle(Positions, title).value.id]
  {
    match FindByTitle(Positions, title)
    case None => (Ignored, applied)
    case Some(p) =>
      if p.id in applied then (AlreadyApplied, applied)
      else if hasForm then (Applied, applied + [p.id])
      else (Ignored, applied)
  }

  predicate NoDuplicates(s: seq<int>) {
    forall i, j :: 0 <= i < j < |s| ==> s[i] != s[j]
  }

  /** Submitting never records the same position twice. */
  lemma SubmitKeepsNoDuplicates(applied: seq<int>, title: string, hasForm: bool)
    requires NoDuplicates(applied)
    ensures NoDuplicates(Submit(applied, title, hasForm).1)
  {
    var r := Submit(applied, title, hasForm);
    if r.0 == Applied {
      var p := FindByTitle(Positions, title).value;
      assert r.1 == applied + [p.id];
      assert p.id !in applied;
    }
  }

  /** A second submission for the same position is refused. */
  lemma SecondSubmitRefused(applied: seq<int>, title: string)
    requires Submit(applied, title, true).0 == Applied
    ensures Submit(Submit(applied, title, true).1, title, true).0 == AlreadyApplied
  {
    var p := FindByTitle(Positions, title).value;
    assert Submit(applied, title, true).1 == applied + [p.id];
  }

  /** The apply button in `showRoleDescription`. */
  datatype ApplyButton = ApplyButton(disabled: bool, text: string)

  function ApplyButtonFor(applied: seq<int>, id: int): (r: ApplyButton)
    ensures r.disabled <==> id in applied
    ensures r.text == (if id in applied then "Application Submitted" else "Apply Now")
  {
    if id in applied then ApplyButton(true, "Application Submitted")
    else ApplyButton(false, "Apply Now")
  }

  /** Once a submission goes through, the position's button is disabled. */
  lemma AppliedDisablesButton(applied: seq<int>, title: string)
    requires Submit(applied, title, true).0 == Applied
    ensures ApplyButtonFor(Submit(applied, title, true).1, FindByTitle(Positions, title).value.id).disabled
  {
    var p := FindByTitle(Positions, title).value;
    assert Submit(applied, title, true).1 == applied + [p.id];
  }

  // ------------------------------------------------------------ dropdowns

  predicate AtMostOneOpen(shown: seq<bool>) {
    forall i, j :: 0 <= i < |shown| && 0 <= j < |shown| && shown[i] && shown[j] ==> i == j
  }

  /** The filter dropdowns' `show` classes and their buttons' `active` classes. */
  class Dropdowns {
    var shown: seq<bool>
    var active: seq<bool>

    ghost predicate Valid()
      reads this
    {
      |shown| == |active| && AtMostOneOpen(shown)
    }

    constructor (n: nat)
      ensures |shown| == n && |active| == n
      ensures forall i :: 0 <= i < n ==> !shown[i] && !active[i]
      ensures Valid()
    {
      shown := seq(n, _ => false);
      active := seq(n, _ => false);
    }

    /** `closeAllDropdowns()`: clear every `show` and every `active`. */
    method CloseAll()
      modifies this
      ensures |shown| == |old(shown)| && |active| == |old(active)|
      ensures forall i :: 0 <= i < |shown| ==> !shown[i]
      ensures forall i :: 0 <= i < |active| ==> !active[i]
      ensures Valid() == (|shown| == |active|)
    {
      var s := shown;
      var k := 0;
      while k < |s|
        invariant 0 <= k <= |s| == |shown|
        invariant forall i :: 0 <= i < k ==> !s[i]
      {
        s := s[k := false];
        k := k + 1;
      }
      var a := active;
      k := 0;
      while k < |a|
        invariant 0 <= k <= |a| == |active|
        invariant forall i :: 0 <= i < k ==> !a[i]
      {
        a := a[k := false];
        k := k + 1;
      }
      shown, active := s, a;
    }

    /**
     * A click on filter button `b`: close everything, then open `b`'s
     * dropdown unless it was the one already open.
     */
    method ButtonClick(b: nat)
      requires Valid() && b < |shown|
      modifies this
      ensures Valid()
      ensures |shown| == |old(shown)|
      ensures shown[b] <==> !old(shown[b])
      ensures active[b] <==> !old(shown[b])
      ensures forall i :: 0 <= i < |shown| && i != b ==> !shown[i] && !active[i]
    {
      var isOpen := shown[b];
      CloseAll();
      if !isOpen {
        shown := shown[b := true];
        active := active[b := true];
      }
    }

    /** A click outside every dropdown closes them all. */
    method OutsideClick()
      requires Valid()
      modifies this
      ensures Valid()
      ensures |shown| == |old(shown)|
      ensures forall i :: 0 <= i < |shown| ==> !shown[i]
      ensures forall i :: 0 <= i < |active| ==> !active[i]
    {
      CloseAll();
    }
  }
}
