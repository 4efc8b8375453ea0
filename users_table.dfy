/**
 * client/src/components/UsersTable.js: the user list with a search box and a
 * sortable column. Rows are plain JS objects as the list request returns them.
 */
module UsersTableComponent {
  import opened JsValues
  import opened JsStrings
  import Sorting

  datatype Direction = Asc | Desc

  /** `handleSort(field)`'s new direction: flip on the current column, `asc` on another. */
  function NextDirection(sortField: string, field: string, current: Direction): (d: Direction)
    ensures sortField == field ==> d != current
    ensures sortField != field ==> d == Asc
  {
    if sortField == field then (if current == Asc then Desc else Asc) else Asc
  }

  /** Sorting twice on the same column restores the direction. */
  lemma SortTwiceRestores(field: string, current: Direction)
    ensures NextDirection(field, field, NextDirection(field, field, current)) == current
  {
  }

  /** The row's value under `field` when it is a string: only then can `localeCompare` be called on it. */
  function KeyOf(row: JsObject, field: string): string
  {
    match Get(row, field)
    case Str(s) => s
    case _ => ""
  }

  predicate HasStringKey(row: JsObject, field: string)
  {
    Get(row, field).Str?
  }

  /**
   * The comparator `multiplier * a[sortField].localeCompare(b[sortField])`
   * as "a comes no later than b": the plain order for `asc`, the reversed one
   * for `desc`.
   */
  function Before(field: string, dir: Direction): (le: (JsObject, JsObject) -> bool)
  {
    (a: JsObject, b: JsObject) =>
      if dir == Asc then LexLe(KeyOf(a, field), KeyOf(b, field)) else LexLe(KeyOf(b, field), KeyOf(a, field))
  }

  lemma BeforeIsOrder(field: string, dir: Direction)
    ensures Sorting.Total(Before(field, dir)) && Sorting.Transitive(Before(field, dir))
  {
    var le := Before(field, dir);
    forall a: JsObject, b: JsObject ensures le(a, b) || le(b, a) {
      LexLeTotal(KeyOf(a, field), KeyOf(b, field));
    }
    forall a: JsObject, b: JsObject, c: JsObject | le(a, b) && le(b, c) ensures le(a, c) {
      if dir == Asc {
        LexLeTransitive(KeyOf(a, field), KeyOf(b, field), KeyOf(c, field));
      } else {
        LexLeTransitive(KeyOf(c, field), KeyOf(b, field), KeyOf(a, field));
      }
    }
  }

  /** The search test of one row, or `None` when `first_name` is not a string (a TypeError). */
  function Matches(row: JsObject, term: string): Option<bool>
  {
    match Get(row, "first_name")
    case Str(s) => Some(Includes(ToLower(s), ToLower(term)))
    case _ => None
  }

  /** `users.filter(...)`: the matching rows in order, or `None` when some row makes the test throw. */
  function Filtered(users: seq<JsObject>, term: string): (r: Option<seq<JsObject>>)
    ensures r.None? <==> exists i | 0 <= i < |users| :: Matches(users[i], term).None?
    ensures r.Some? ==> |r.value| <= |users|
  {
    if users == [] then Some([])
    else
      var head, rest := Matches(users[0], term), Filtered(users[1..], term);
      if head.None? || rest.None? then
        assert forall i | 0 <= i < |users[1..]| :: users[1..][i] == users[i + 1];
        None
      else Some((if head.value then [users[0]] else []) + rest.value)
  }

  /** A row is kept exactly when it is in the list and its lowercased first name contains the lowercased term. */
  lemma {:induction false} FilteredMembers(users: seq<JsObject>, term: string, x: JsObject)
    requires Filtered(users, term).Some?
    ensures x in Filtered(users, term).value <==> x in users && Matches(x, term) == Some(true)
  {
    if users != [] {
      FilteredMembers(users[1..], term, x);
      assert x in users <==> x == users[0] || x in users[1..];
    }
  }

  /** An empty search term keeps every row. */
  lemma {:induction false} EmptyTermKeepsAll(users: seq<JsObject>)
    requires Filtered(users, "").Some?
    ensures Filtered(users, "").value == users
  {
    if users != [] {
      IncludesEmpty(ToLower(KeyOf(users[0], "first_name")));
      assert ToLower("") == "";
      EmptyTermKeepsAll(users[1..]);
    }
  }

  /**
   * `getSortedUsers()`: filter, then sort under the column comparator. `None`
   * is a TypeError: from the filter, or from the comparator when at least two
   * rows are compared and some row has no string under the sort column.
   */
  function SortedUsers(users: seq<JsObject>, term: string, field: string, dir: Direction): (r: Option<seq<JsObject>>)
    ensures Filtered(users, term).None? ==> r.None?
    ensures Filtered(users, term).Some? ==>
      var rows := Filtered(users, term).value;
      (r.None? <==> |rows| >= 2 && exists i | 0 <= i < |rows| :: !HasStringKey(rows[i], field))
    ensures r.Some? ==>
      && Filtered(users, term).Some?
      && multiset(r.value) == multiset(Filtered(users, term).value)
      && Sorting.SortedBy(r.value, Before(field, dir))
  {
    match Filtered(users, term)
    case None => None
    case Some(rows) =>
      if |rows| >= 2 && exists i | 0 <= i < |rows| :: !HasStringKey(rows[i], field) then None
      else
        BeforeIsOrder(field, dir);
        Sorting.SortSorted(rows, Before(field, dir));
        Some(Sorting.Sort(rows, Before(field, dir)))
  }

  /** With the initial sort column "name", which no user row has, two or more listed users throw. */
  lemma InitialColumnThrows(users: seq<JsObject>, term: string)
    requires Filtered(users, term).Some? && |Filtered(users, term).value| >= 2
    requires forall i | 0 <= i < |users| :: "name" !in users[i]
    ensures SortedUsers(users, term, "name", Asc).None?
  {
    var rows := Filtered(users, term).value;
    FilteredMembers(users, term, rows[0]);
    assert !HasStringKey(rows[0], "name");
  }

  class UsersTable {
    var users: seq<JsObject>
    var loading: bool
    var sortDirection: Direction
    var sortField: string
    var searchTerm: string

    constructor ()
      ensures users == [] && !loading && sortDirection == Asc && sortField == "name" && searchTerm == ""
    {
      users := [];
      loading := false;
      sortDirection := Asc;
      sortField := "name";
      searchTerm := "";
    }

    /** `fetchUsers` once the GET has settled: `Some(rows)` on success; `loading` is reset in `finally`. */
    method FetchUsers(response: Option<seq<JsObject>>)
      modifies this
      ensures users == (if response.Some? then response.value else old(users)) && !loading
      ensures sortDirection == old(sortDirection) && sortField == old(sortField) && searchTerm == old(searchTerm)
    {
      loading := true;
      if response.Some? {
        users := response.value;
      }
      loading := false;
    }

    /** `handleSort(field)` */
    method HandleSort(field: string)
      modifies this
      ensures sortDirection == NextDirection(old(sortField), field, old(sortDirection))
      ensures sortField == field
      ensures users == old(users) && loading == old(loading) && searchTerm == old(searchTerm)
    {
      if sortField == field {
        sortDirection := if sortDirection == Asc then Desc else Asc;
      } else {
        sortDirection := Asc;
      }
      sortField := field;
    }

    /** The search box. */
    method SetSearchTerm(term: string)
      modifies this
      ensures searchTerm == term
      ensures users == old(users) && loading == old(loading)
      ensures sortDirection == old(sortDirection) && sortField == old(sortField)
    {
      searchTerm := term;
    }

    /**
     * `handleDelete(id)`: nothing unless confirmed; after a successful DELETE
     * the rows with that id go and the rest keep their order.
     */
    method HandleDelete(id: JsValue, confirmed: bool, succeeded: bool)
      modifies this
      ensures users == (if confirmed && succeeded then RemoveWhere(old(users), "id", id) else old(users))
      ensures loading == old(loading) && searchTerm == old(searchTerm)
      ensures sortDirection == old(sortDirection) && sortField == old(sortField)
    {
      if !confirmed {
        return;
      }
      if succeeded {
        users := RemoveWhere(users, "id", id);
      }
    }
  }
}
