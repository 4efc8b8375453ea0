/**
 * The handlers of routes/users.js: `validateUserInput`, the paginated list,
 * lookup by id, and the create / update / delete transactions over the
 * `users` table, including the numbered-placeholder UPDATE builder.
 *
 * `hash` stands for `bcrypt.hash(password, salt)` with a fresh salt.
 */
module UserRoutes {
  import opened JsValues
  import opened JsStrings
  import opened Http
  import opened Permissions
  import opened Schema
  import Sorting

  const MinPasswordLength := 8
  const InvalidEmailFormat := "Invalid email format"
  const PasswordTooShort := "Password must be at least 8 characters long"
  const InvalidRole := "Invalid role. Must be one of: admin, manager, chef, line_cook"
  const InternalServerError := "Internal server error"
  const UserNotFound := "User not found"
  const EmailAlreadyExists := "Email already exists"
  const RestaurantNotFound := "Restaurant not found"

  /**
   * A request body. The checked strings are `""` when absent (every check fails
   * on both alike); an absent or null name or `restaurant_id` is `None`.
   */
  datatype UserBody = UserBody(
    email: string, password: string, firstName: Option<string>, lastName: Option<string>,
    restaurantId: Option<nat>, role: string)

  // ---------------------------------------------------------------- e-mail check

  /** One `[^\s@]` run: no white space and no `@`. */
  predicate Plain(t: string)
  {
    forall k | 0 <= k < |t| :: !IsWhitespace(t[k]) && t[k] != '@'
  }

  /** The strings `/^[^\s@]+@[^\s@]+\.[^\s@]+$/` matches, read off the pattern group by group. */
  ghost predicate EmailShape(s: string)
  {
    exists i, j | 0 < i && i + 1 < j && j + 1 < |s| ::
      s[i] == '@' && s[j] == '.' && Plain(s[..i]) && Plain(s[i + 1..j]) && Plain(s[j + 1..])
  }

  /** The domain has a dot that is neither its first nor its last character. */
  predicate HasInnerDot(d: string)
  {
    exists k | 0 < k < |d| - 1 :: d[k] == '.'
  }

  /** `emailRegex.test(s)`: split at the first `@`, then check the local part and the domain. */
  function MatchesEmail(s: string): bool
  {
    match IndexOf(s, "@")
    case None => false
    case Some(i) => 0 < i && Plain(s[..i]) && Plain(s[i + 1..]) && HasInnerDot(s[i + 1..])
  }

  /**
   * The matcher accepts exactly the strings of the pattern: a non-empty local
   * part, one `@`, and a domain with an inner dot, with no white space and no
   * other `@` anywhere.
   */
  lemma MatchesEmailIffShape(s: string)
    ensures MatchesEmail(s) <==> EmailShape(s)
  {
    if MatchesEmail(s) {
      MatchedIsShape(s);
    }
    if EmailShape(s) {
      var i, j :| 0 < i && i + 1 < j && j + 1 < |s| &&
        s[i] == '@' && s[j] == '.' && Plain(s[..i]) && Plain(s[i + 1..j]) && Plain(s[j + 1..]);
      ShapeIsMatched(s, i, j);
    }
  }

  lemma MatchedIsShape(s: string)
    requires MatchesEmail(s)
    ensures EmailShape(s)
  {
    var i := IndexOf(s, "@").value;
    assert s[i..i + 1] == "@";
    var d := s[i + 1..];
    var k :| 0 < k < |d| - 1 && d[k] == '.';
    var j := i + 1 + k;
    assert s[i] == '@';
    assert s[j] == d[k];
    assert s[i + 1..j] == d[..k];
    assert s[j + 1..] == d[k + 1..];
  }

  lemma ShapeIsMatched(s: string, i: nat, j: nat)
    requires 0 < i && i + 1 < j && j + 1 < |s|
    requires s[i] == '@' && s[j] == '.' && Plain(s[..i]) && Plain(s[i + 1..j]) && Plain(s[j + 1..])
    ensures MatchesEmail(s)
  {
    assert StartsWith(s[i..], "@");
    var found := IndexOf(s, "@");
    assert found.Some?;
    var i' := found.value;
    assert i' <= i;
    assert s[i'] == s[i'..i' + 1][0];
    assert forall k | 0 <= k < i :: s[k] != '@' by {
      forall k | 0 <= k < i ensures s[k] != '@' { assert s[..i][k] == s[k]; }
    }
    assert i' == i;
    var d := s[i + 1..];
    forall m | 0 <= m < |d| ensures !IsWhitespace(d[m]) && d[m] != '@' {
      if m < j - i - 1 {
        assert d[m] == s[i + 1..j][m];
      } else if m > j - i - 1 {
        assert d[m] == s[j + 1..][m - (j - i)];
      }
    }
    assert d[j - i - 1] == '.';
  }

  /**
   * `validateUserInput`: the first failing check, in the order e-mail,
   * password length, role, decides the 400 message; `None` is `next()`.
   * The length is `password.length`, in UTF-16 code units.
   */
  function ValidateUserInput(body: UserBody): (r: Option<Failure>)
    ensures r == None <==>
      MatchesEmail(body.email) && Utf16Length(body.password) >= MinPasswordLength && ParseRole(body.role).Some?
    ensures r == Some(Error(400, InvalidEmailFormat)) <==> !MatchesEmail(body.email)
    ensures r == Some(Error(400, PasswordTooShort)) <==>
      MatchesEmail(body.email) && Utf16Length(body.password) < MinPasswordLength
    ensures r == Some(Error(400, InvalidRole)) <==>
      MatchesEmail(body.email) && Utf16Length(body.password) >= MinPasswordLength && ParseRole(body.role).None?
  {
    if body.email == "" || !MatchesEmail(body.email) then Some(Error(400, InvalidEmailFormat))
    else if body.password == "" || Utf16Length(body.password) < MinPasswordLength then Some(Error(400, PasswordTooShort))
    else if body.role == "" || ParseRole(body.role).None? then Some(Error(400, InvalidRole))
    else None
  }

  // ---------------------------------------------------------------- GET /

  /** `parseInt(x) || fallback`, given the result of `parseInt` (`None` for NaN). */
  function OrDefault(parsed: Option<int>, fallback: int): (r: int)
    ensures parsed.None? || parsed == Some(0) ==> r == fallback
    ensures parsed.Some? && parsed.value != 0 ==> r == parsed.value
  {
    match parsed
    case None => fallback
    case Some(n) => if n != 0 then n else fallback
  }

  /** `Math.ceil(total / limit)` for a positive limit: the least page count covering `total`. */
  function CeilDiv(total: nat, limit: nat): (pages: nat)
    requires limit > 0
    ensures pages * limit >= total
    ensures pages == 0 || (pages - 1) * limit < total
  {
    if total == 0 then 0
    else if total <= limit then 1
    else 1 + CeilDiv(total - limit, limit)
  }

  datatype Pagination = Pagination(currentPage: int, totalPages: nat, totalUsers: nat)
  datatype UsersPage = UsersPage(users: seq<UserView>, pagination: Pagination)

  /**
   * The ascending order of a nullable text column: strings under the order
   * that stands for the collation, and NULL after every string (PostgreSQL's
   * default `NULLS LAST` for `ASC`).
   */
  predicate NullsLastLe(a: Option<string>, b: Option<string>)
  {
    match (a, b)
    case (Some(x), Some(y)) => LexLe(x, y)
    case (_, None) => true
    case (None, Some(_)) => false
  }

  lemma NullsLastIsOrder()
    ensures forall a: Option<string>, b: Option<string> :: NullsLastLe(a, b) || NullsLastLe(b, a)
    ensures forall a: Option<string>, b: Option<string>, c: Option<string> ::
      NullsLastLe(a, b) && NullsLastLe(b, c) ==> NullsLastLe(a, c)
  {
    forall a: Option<string>, b: Option<string> ensures NullsLastLe(a, b) || NullsLastLe(b, a) {
      if a.Some? && b.Some? {
        LexLeTotal(a.value, b.value);
      }
    }
    forall a: Option<string>, b: Option<string>, c: Option<string> | NullsLastLe(a, b) && NullsLastLe(b, c)
      ensures NullsLastLe(a, c)
    {
      if a.Some? && b.Some? && c.Some? {
        LexLeTransitive(a.value, b.value, c.value);
      }
    }
  }

  /** `ORDER BY last_name` */
  function ByLastName(a: UserRow, b: UserRow): bool
  {
    NullsLastLe(a.lastName, b.lastName)
  }

  /** The window `LIMIT limit OFFSET offset` of the ordered rows. */
  function Window<T>(rows: seq<T>, offset: nat, limit: nat): (w: seq<T>)
    ensures |w| <= limit
    ensures forall k | 0 <= k < |w| :: offset + k < |rows| && w[k] == rows[offset + k]
    ensures |w| == if offset >= |rows| then 0 else if offset + limit <= |rows| then limit else |rows| - offset
  {
    if offset >= |rows| then []
    else if offset + limit <= |rows| then rows[offset..offset + limit]
    else rows[offset..]
  }

  function Views(rows: seq<UserRow>): (vs: seq<UserView>)
    ensures |vs| == |rows| && forall k | 0 <= k < |rows| :: vs[k] == View(rows[k])
  {
    seq(|rows|, k requires 0 <= k < |rows| => View(rows[k]))
  }

  /** `(page - 1) * limit`, which is negative exactly when the page is below 1, for a positive limit. */
  function PageOffset(page: int, limit: int): (offset: int)
    ensures limit > 0 ==> (offset >= 0 <==> page >= 1)
  {
    if limit > 0 then (OffsetSign(page, limit); (page - 1) * limit) else (page - 1) * limit
  }

  /**
   * GET /users: `page` and `limit` from the query string (a missing, non-numeric
   * or zero value takes the default), then `offset = (page - 1) * limit`. A
   * negative LIMIT or OFFSET makes the query fail, which answers 500.
   */
  function ListUsers(users: seq<UserRow>, pageArg: Option<int>, limitArg: Option<int>): (r: Result<UsersPage>)
    ensures var page, limit := OrDefault(pageArg, 1), OrDefault(limitArg, 10);
      && (r.Ok? <==> limit > 0 && page >= 1)
      && (r.Err? ==> r.failure == Error(500, InternalServerError))
      && (r.Ok? ==>
            var ordered := Sorting.Sort(users, ByLastName);
            && r.value.users == Views(Window(ordered, PageOffset(page, limit), limit))
            && r.value.pagination == Pagination(page, CeilDiv(|users|, limit), |users|))
  {
    var page, limit := OrDefault(pageArg, 1), OrDefault(limitArg, 10);
    var offset := PageOffset(page, limit);
    if limit < 0 || offset < 0 then Err(Error(500, InternalServerError))
    else
      var ordered := Sorting.Sort(users, ByLastName);
      Ok(UsersPage(Views(Window(ordered, offset, limit)), Pagination(page, CeilDiv(|users|, limit), |users|)))
  }

  /** With a positive limit the offset is negative exactly when the page is below 1. */
  lemma OffsetSign(page: int, limit: int)
    requires limit > 0
    ensures (page - 1) * limit >= 0 <==> page >= 1
  {
    if page >= 1 {
      assert (page - 1) * limit >= 0;
    } else {
      assert (page - 1) * limit <= -limit;
    }
  }

  /** The page is sorted by last name, with the users without one after all the others. */
  lemma ListUsersOrdered(users: seq<UserRow>, pageArg: Option<int>, limitArg: Option<int>)
    requires ListUsers(users, pageArg, limitArg).Ok?
    ensures var page := ListUsers(users, pageArg, limitArg).value.users;
      && (forall a, b | 0 <= a < b < |page| :: NullsLastLe(page[a].lastName, page[b].lastName))
      && (forall a, b | 0 <= a < b < |page| && page[a].lastName.None? :: page[b].lastName.None?)
  {
    NullsLastIsOrder();
    Sorting.SortSorted(users, ByLastName);
  }

  // ---------------------------------------------------------------- GET /:id

  function GetUser(users: seq<UserRow>, id: nat): (r: Result<UserView>)
    ensures r.Ok? <==> exists i | 0 <= i < |users| :: users[i].id == id
    ensures r.Ok? ==> exists i | 0 <= i < |users| :: users[i].id == id && r.value == View(users[i])
    ensures r.Err? ==> r.failure == Error(404, UserNotFound)
  {
    match FindUserById(users, id)
    case None => Err(Error(404, UserNotFound))
    case Some(i) => Ok(View(users[i]))
  }

  // ---------------------------------------------------------------- POST /

  /** `if (restaurant_id)`: a null, absent or zero id skips the existence check. */
  predicate RestaurantGiven(restaurantId: Option<nat>)
  {
    restaurantId.Some? && restaurantId.value != 0
  }

  predicate UnknownRestaurant(db: Database, restaurantId: Option<nat>)
    reads db
  {
    RestaurantGiven(restaurantId) && !RestaurantExists(db.restaurants, restaurantId.value)
  }

  /**
   * POST /users: validate; BEGIN; 409 if the e-mail is taken; 400 if a given
   * restaurant does not exist; insert with the hashed password; COMMIT.
   * Every early return rolls back, and nothing was written before it.
   */
  method CreateUser(db: Database, body: UserBody, hash: string -> string) returns (r: Result<UserView>)
    requires db.Valid()
    modifies db
    ensures db.Valid()
    ensures ValidateUserInput(body).Some? ==> r == Err(ValidateUserInput(body).value) && unchanged(db)
    ensures ValidateUserInput(body).None? && EmailTaken(old(db.users), body.email) ==>
      r == Err(Error(409, EmailAlreadyExists)) && unchanged(db)
    ensures ValidateUserInput(body).None? && !EmailTaken(old(db.users), body.email) && old(UnknownRestaurant(db, body.restaurantId)) ==>
      r == Err(Error(400, RestaurantNotFound)) && unchanged(db)
    ensures r.Ok? <==>
      ValidateUserInput(body).None? && !EmailTaken(old(db.users), body.email) && !old(UnknownRestaurant(db, body.restaurantId))
    ensures r.Ok? ==>
      var row := UserRow(old(db.nextUserId), body.email, hash(body.password), body.firstName, body.lastName,
                         body.restaurantId, ParseRole(body.role).value);
      && db.users == old(db.users) + [row] && r.value == View(row)
      && db.restaurants == old(db.restaurants) && db.nextUserId == old(db.nextUserId) + 1
      && db.nextRestaurantId == old(db.nextRestaurantId)
  {
    var invalid := ValidateUserInput(body);
    if invalid.Some? {
      return Err(invalid.value);
    }
    // BEGIN
    if EmailTaken(db.users, body.email) {
      // ROLLBACK
      return Err(Error(409, EmailAlreadyExists));
    }
    if RestaurantGiven(body.restaurantId) && !RestaurantExists(db.restaurants, body.restaurantId.value) {
      // ROLLBACK
      return Err(Error(400, RestaurantNotFound));
    }
    var hashed := hash(body.password);
    var row := UserRow(db.nextUserId, body.email, hashed, body.firstName, body.lastName,
                       body.restaurantId, ParseRole(body.role).value);
    db.users := db.users + [row];
    db.nextUserId := db.nextUserId + 1;
    // COMMIT
    r := Ok(View(row));
  }

  // ---------------------------------------------------------------- PUT /:id

  datatype SqlValue = SqlNull | SqlInt(n: nat) | SqlText(s: string)

  /** The columns the UPDATE can set. */
  datatype Column = EmailColumn | FirstNameColumn | LastNameColumn | RestaurantIdColumn | RoleColumn | PasswordHashColumn

  /** `column = $placeholder` */
  datatype Assignment = Assignment(column: Column, placeholder: nat)

  /** The `SET` list and the placeholder of `WHERE id = $n` of the built UPDATE. */
  datatype UpdateQuery = UpdateQuery(assignments: seq<Assignment>, idPlaceholder: nat)

  /** The new column values of a PUT, with the hash when a password was given. */
  datatype UserChanges = UserChanges(
    email: string, firstName: Option<string>, lastName: Option<string>, restaurantId: Option<nat>,
    role: string, passwordHash: Option<string>)

  /** A nullable text parameter: `undefined` and `null` go to the driver as NULL. */
  function TextOrNull(s: Option<string>): SqlValue
  {
    if s.Some? then SqlText(s.value) else SqlNull
  }

  /** The parameter each column is meant to receive. */
  function IntendedValue(c: UserChanges, column: Column): SqlValue
  {
    match column
    case EmailColumn => SqlText(c.email)
    case FirstNameColumn => TextOrNull(c.firstName)
    case LastNameColumn => TextOrNull(c.lastName)
    case RestaurantIdColumn => if c.restaurantId.Some? then SqlInt(c.restaurantId.value) else SqlNull
    case RoleColumn => SqlText(c.role)
    case PasswordHashColumn => if c.passwordHash.Some? then SqlText(c.passwordHash.value) else SqlNull
  }

  /** Every placeholder of the query names a parameter, and the parameter is the intended value. */
  predicate Binds(q: UpdateQuery, params: seq<SqlValue>, c: UserChanges, id: nat)
  {
    && (forall k | 0 <= k < |q.assignments| ::
          var a := q.assignments[k]; 1 <= a.placeholder <= |params| && params[a.placeholder - 1] == IntendedValue(c, a.column))
    && 1 <= q.idPlaceholder <= |params| && params[q.idPlaceholder - 1] == SqlInt(id)
  }

  const BaseAssignments := [Assignment(EmailColumn, 1), Assignment(FirstNameColumn, 2), Assignment(LastNameColumn, 3),
                            Assignment(RestaurantIdColumn, 4), Assignment(RoleColumn, 5)]

  /**
   * The builder of lines 192-212 of routes/users.js: five fixed assignments,
   * `password_hash = $6` appended when a password is given, then
   * `WHERE id = $(queryParams.length + 1)` and the id pushed last.
   */
  method BuildUpdateQuery(c: UserChanges, id: nat) returns (q: UpdateQuery, params: seq<SqlValue>)
    ensures Binds(q, params, c, id)
    ensures q.idPlaceholder == |params| && q.idPlaceholder == (if c.passwordHash.Some? then 7 else 6)
    ensures forall k | 0 <= k < |q.assignments| :: q.assignments[k].placeholder < q.idPlaceholder
    ensures q.assignments == BaseAssignments + (if c.passwordHash.Some? then [Assignment(PasswordHashColumn, 6)] else [])
  {
    q := UpdateQuery(BaseAssignments, 0);
    var restaurantParam := if c.restaurantId.Some? then SqlInt(c.restaurantId.value) else SqlNull;
    params := [SqlText(c.email), TextOrNull(c.firstName), TextOrNull(c.lastName), restaurantParam, SqlText(c.role)];
    if c.passwordHash.Some? {
      q := q.(assignments := q.assignments + [Assignment(PasswordHashColumn, 6)]);
      params := params + [SqlText(c.passwordHash.value)];
    }
    q := q.(idPlaceholder := |params| + 1);
    params := params + [SqlInt(id)];
  }

  /** The database setting one column of a row from a parameter (with the `::user_role` cast). */
  function SetColumn(row: UserRow, column: Column, v: SqlValue): UserRow
  {
    match (column, v)
    case (EmailColumn, SqlText(s)) => row.(email := s)
    case (FirstNameColumn, SqlText(s)) => row.(firstName := Some(s))
    case (FirstNameColumn, SqlNull) => row.(firstName := None)
    case (LastNameColumn, SqlText(s)) => row.(lastName := Some(s))
    case (LastNameColumn, SqlNull) => row.(lastName := None)
    case (PasswordHashColumn, SqlText(s)) => row.(passwordHash := s)
    case (RoleColumn, SqlText(s)) => if ParseRole(s).Some? then row.(role := ParseRole(s).value) else row
    case (RestaurantIdColumn, SqlInt(n)) => row.(restaurantId := Some(n))
    case (RestaurantIdColumn, SqlNull) => row.(restaurantId := None)
    case _ => row
  }

  /** Executes the `SET` list against a row, left to right. */
  function ExecuteSet(row: UserRow, assignments: seq<Assignment>, params: seq<SqlValue>): UserRow
    requires forall k | 0 <= k < |assignments| :: 1 <= assignments[k].placeholder <= |params|
    decreases |assignments|
  {
    if assignments == [] then row
    else
      var a := assignments[0];
      ExecuteSet(SetColumn(row, a.column, params[a.placeholder - 1]), assignments[1..], params)
  }

  /** The row as the PUT means to leave it: the password hash changes only when one was given. */
  function Updated(row: UserRow, c: UserChanges): UserRow
    requires ParseRole(c.role).Some?
  {
    UserRow(row.id, c.email,
            if c.passwordHash.Some? then c.passwordHash.value else row.passwordHash,
            c.firstName, c.lastName, c.restaurantId, ParseRole(c.role).value)
  }

  /** The parameters a well-bound query reads, position by position. */
  lemma BoundParams(q: UpdateQuery, params: seq<SqlValue>, c: UserChanges, id: nat)
    requires Binds(q, params, c, id)
    requires q.assignments == BaseAssignments + (if c.passwordHash.Some? then [Assignment(PasswordHashColumn, 6)] else [])
    ensures |params| >= 5
    ensures params[0] == SqlText(c.email) && params[1] == TextOrNull(c.firstName) && params[2] == TextOrNull(c.lastName)
    ensures params[3] == (if c.restaurantId.Some? then SqlInt(c.restaurantId.value) else SqlNull)
    ensures params[4] == SqlText(c.role)
    ensures c.passwordHash.Some? ==> |params| >= 6 && params[5] == SqlText(c.passwordHash.value)
  {
    var asg := q.assignments;
    assert asg[0].column == EmailColumn && asg[1].column == FirstNameColumn && asg[2].column == LastNameColumn;
    assert asg[3].column == RestaurantIdColumn && asg[4].column == RoleColumn;
    if c.passwordHash.Some? {
      assert asg[5].column == PasswordHashColumn;
    }
  }

  /** Running the built query writes exactly the intended row. */
  lemma BuiltQueryWritesIntendedRow(row: UserRow, q: UpdateQuery, params: seq<SqlValue>, c: UserChanges, id: nat)
    requires ParseRole(c.role).Some?
    requires Binds(q, params, c, id)
    requires q.assignments == BaseAssignments + (if c.passwordHash.Some? then [Assignment(PasswordHashColumn, 6)] else [])
    ensures ExecuteSet(row, q.assignments, params) == Updated(row, c)
  {
    BoundParams(q, params, c, id);
    RunAssignments(row, c, params, q.assignments);
  }

  /** The `SET` list of the builder, run over the parameters it binds. */
  lemma RunAssignments(row: UserRow, c: UserChanges, params: seq<SqlValue>, asg: seq<Assignment>)
    requires ParseRole(c.role).Some?
    requires asg == BaseAssignments + (if c.passwordHash.Some? then [Assignment(PasswordHashColumn, 6)] else [])
    requires |params| >= 5
    requires params[0] == SqlText(c.email) && params[1] == TextOrNull(c.firstName) && params[2] == TextOrNull(c.lastName)
    requires params[3] == (if c.restaurantId.Some? then SqlInt(c.restaurantId.value) else SqlNull)
    requires params[4] == SqlText(c.role)
    requires c.passwordHash.Some? ==> |params| >= 6 && params[5] == SqlText(c.passwordHash.value)
    ensures forall k | 0 <= k < |asg| :: 1 <= asg[k].placeholder <= |params|
    ensures ExecuteSet(row, asg, params) == Updated(row, c)
  {
    RunBaseAssignments(row, c, params);
    if c.passwordHash.Some? {
      var tail := [Assignment(PasswordHashColumn, 6)];
      ExecuteSetAppend(row, BaseAssignments, tail, params);
      assert tail[1..] == [];
    } else {
      assert asg == BaseAssignments;
    }
  }

  /** The five fixed assignments write the five submitted columns. */
  lemma RunBaseAssignments(row: UserRow, c: UserChanges, params: seq<SqlValue>)
    requires ParseRole(c.role).Some?
    requires |params| >= 5
    requires params[0] == SqlText(c.email) && params[1] == TextOrNull(c.firstName) && params[2] == TextOrNull(c.lastName)
    requires params[3] == (if c.restaurantId.Some? then SqlInt(c.restaurantId.value) else SqlNull)
    requires params[4] == SqlText(c.role)
    ensures ExecuteSet(row, BaseAssignments, params) ==
      UserRow(row.id, c.email, row.passwordHash, c.firstName, c.lastName, c.restaurantId, ParseRole(c.role).value)
  {
    var asg := BaseAssignments;
    var r1 := UserRow(row.id, c.email, row.passwordHash, row.firstName, row.lastName, row.restaurantId, row.role);
    var r2 := UserRow(row.id, c.email, row.passwordHash, c.firstName, row.lastName, row.restaurantId, row.role);
    var r3 := UserRow(row.id, c.email, row.passwordHash, c.firstName, c.lastName, row.restaurantId, row.role);
    var r4 := UserRow(row.id, c.email, row.passwordHash, c.firstName, c.lastName, c.restaurantId, row.role);
    assert asg[0..] == asg;
    ExecuteSetStep(row, asg, params, 0);
    assert SetColumn(row, asg[0].column, params[0]) == r1;
    ExecuteSetStep(r1, asg, params, 1);
    assert SetColumn(r1, asg[1].column, params[1]) == r2;
    ExecuteSetStep(r2, asg, params, 2);
    assert SetColumn(r2, asg[2].column, params[2]) == r3;
    ExecuteSetStep(r3, asg, params, 3);
    assert SetColumn(r3, asg[3].column, params[3]) == r4;
    ExecuteSetStep(r4, asg, params, 4);
    assert asg[5..] == [];
  }

  /** Running two lists of assignments one after the other is running their concatenation. */
  lemma {:induction false} ExecuteSetAppend(row: UserRow, a: seq<Assignment>, b: seq<Assignment>, params: seq<SqlValue>)
    requires forall k | 0 <= k < |a| :: 1 <= a[k].placeholder <= |params|
    requires forall k | 0 <= k < |b| :: 1 <= b[k].placeholder <= |params|
    ensures forall k | 0 <= k < |a + b| :: 1 <= (a + b)[k].placeholder <= |params|
    ensures ExecuteSet(row, a + b, params) == ExecuteSet(ExecuteSet(row, a, params), b, params)
    decreases |a|
  {
    assert forall k | 0 <= k < |a + b| :: (a + b)[k] == if k < |a| then a[k] else b[k - |a|];
    if a != [] {
      var next := SetColumn(row, a[0].column, params[a[0].placeholder - 1]);
      ExecuteSetAppend(next, a[1..], b, params);
      assert (a + b)[1..] == a[1..] + b;
    } else {
      assert a + b == b;
    }
  }

  /** One step of `ExecuteSet` from position `k` of the list. */
  lemma ExecuteSetStep(row: UserRow, asg: seq<Assignment>, params: seq<SqlValue>, k: nat)
    requires forall j | 0 <= j < |asg| :: 1 <= asg[j].placeholder <= |params|
    requires k < |asg|
    ensures ExecuteSet(row, asg[k..], params) ==
      ExecuteSet(SetColumn(row, asg[k].column, params[asg[k].placeholder - 1]), asg[k + 1..], params)
  {
    assert asg[k..][0] == asg[k];
    assert asg[k..][1..] == asg[k + 1..];
  }

  /**
   * After `validateUserInput` has passed the password is never empty, so the
   * "only update password if provided" branch is always taken and the id is `$7`.
   */
  lemma ValidatedUpdateAlwaysSetsPassword(body: UserBody)
    requires ValidateUserInput(body).None?
    ensures Truthy(Str(body.password))
  {
  }

  /** `SELECT id FROM users WHERE email = $1 AND id != $2` finds a row. */
  predicate EmailHeldByOther(users: seq<UserRow>, email: string, id: nat)
  {
    exists j | 0 <= j < |users| :: users[j].email == email && users[j].id != id
  }

  /**
   * PUT /users/:id: validate; BEGIN; 404 for an unknown id; 409 when another
   * user has the e-mail; 400 for a given but unknown restaurant; build and
   * run the UPDATE; COMMIT.
   */
  method UpdateUser(db: Database, id: nat, body: UserBody, hash: string -> string) returns (r: Result<UserView>)
    requires db.Valid()
    modifies db
    ensures db.Valid()
    ensures db.restaurants == old(db.restaurants)
    ensures db.nextUserId == old(db.nextUserId) && db.nextRestaurantId == old(db.nextRestaurantId)
    ensures ValidateUserInput(body).Some? ==> r == Err(ValidateUserInput(body).value) && unchanged(db)
    ensures ValidateUserInput(body).None? && FindUserById(old(db.users), id).None? ==>
      r == Err(Error(404, UserNotFound)) && unchanged(db)
    ensures r == Err(Error(409, EmailAlreadyExists)) <==>
      (&& ValidateUserInput(body).None? && FindUserById(old(db.users), id).Some?
       && EmailHeldByOther(old(db.users), body.email, id))
    ensures && ValidateUserInput(body).None? && FindUserById(old(db.users), id).Some?
            && !EmailHeldByOther(old(db.users), body.email, id) && old(UnknownRestaurant(db, body.restaurantId)) ==>
      r == Err(Error(400, RestaurantNotFound))
    ensures r.Ok? <==>
      (&& ValidateUserInput(body).None? && FindUserById(old(db.users), id).Some?
       && !EmailHeldByOther(old(db.users), body.email, id) && !old(UnknownRestaurant(db, body.restaurantId)))
    ensures r.Err? ==> unchanged(db)
    ensures r.Ok? ==>
      && FindUserById(old(db.users), id).Some?
      && var i := FindUserById(old(db.users), id).value;
         var changes := UserChanges(body.email, body.firstName, body.lastName, body.restaurantId, body.role,
                                    if body.password != "" then Some(hash(body.password)) else None);
         && db.users == old(db.users)[i := Updated(old(db.users)[i], changes)]
         && r.value == View(db.users[i])
  {
    var invalid := ValidateUserInput(body);
    if invalid.Some? {
      return Err(invalid.value);
    }
    // BEGIN
    var found := FindUserById(db.users, id);
    if found.None? {
      // ROLLBACK
      return Err(Error(404, UserNotFound));
    }
    if EmailHeldByOther(db.users, body.email, id) {
      // ROLLBACK
      return Err(Error(409, EmailAlreadyExists));
    }
    if RestaurantGiven(body.restaurantId) && !RestaurantExists(db.restaurants, body.restaurantId.value) {
      // ROLLBACK
      return Err(Error(400, RestaurantNotFound));
    }
    var passwordHash := if body.password != "" then Some(hash(body.password)) else None;
    var changes := UserChanges(body.email, body.firstName, body.lastName, body.restaurantId, body.role, passwordHash);
    var q, params := BuildUpdateQuery(changes, id);
    // WHERE id = $n: the row whose id is the parameter bound to the id placeholder
    var target := params[q.idPlaceholder - 1];
    var i := found.value;
    assert target == SqlInt(db.users[i].id);
    var updated := ExecuteSet(db.users[i], q.assignments, params);
    BuiltQueryWritesIntendedRow(db.users[i], q, params, changes, id);
    db.users := db.users[i := updated];
    // COMMIT
    r := Ok(View(updated));
  }

  // ---------------------------------------------------------------- DELETE /:id

  /** DELETE /users/:id: 404 for an unknown id, otherwise that row alone goes and the answer is 204. */
  method DeleteUser(db: Database, id: nat) returns (r: Result<()>)
    requires db.Valid()
    modifies db
    ensures db.Valid()
    ensures r.Err? <==> FindUserById(old(db.users), id).None?
    ensures r.Err? ==> r.failure == Error(404, UserNotFound) && unchanged(db)
    ensures r.Ok? ==>
      && db.users == RemoveAt(old(db.users), FindUserById(old(db.users), id).value)
      && forall k | 0 <= k < |db.users| :: db.users[k].id != id
    ensures db.restaurants == old(db.restaurants)
    ensures db.nextUserId == old(db.nextUserId) && db.nextRestaurantId == old(db.nextRestaurantId)
  {
    // BEGIN
    var found := FindUserById(db.users, id);
    if found.None? {
      // ROLLBACK
      return Err(Error(404, UserNotFound));
    }
    db.users := RemoveAt(db.users, found.value);
    // COMMIT
    r := Ok(());
  }
}
