/**
 * The handlers of routes/auth.js: `/register-admin` (a restaurant and its
 * first admin, in one transaction), `/register` (staff accounts created by an
 * authenticated user) and `/login`.
 *
 * Foreign calls are parameters: `isEmail` is express-validator's e-mail check,
 * `hash` is `bcrypt.hash` (salt included), `matches(password, hash)` is
 * `bcrypt.compare`, and `sign(userId)` is `jwt.sign` with the 24-hour expiry.
 */
module AuthRoutes {
  import opened JsValues
  import opened Http
  import opened Permissions
  import opened Schema
  import opened AuthMiddleware

  /**
   * Absent checked fields are `""`; every check used here fails on both alike.
   * The names are not checked and go to the insert as they are: an absent or
   * null name (`None`) is stored as NULL.
   */
  datatype RegisterAdminBody = RegisterAdminBody(
    email: string, password: string, firstName: Option<string>, lastName: Option<string>, restaurantName: string)

  datatype RegisterBody = RegisterBody(
    email: string, password: string, firstName: Option<string>, lastName: Option<string>, role: string)

  /** `{ token, user }` of /register-admin: the `RETURNING *` row, `password_hash` included (`created_at` is not modelled). */
  datatype Registered = Registered(token: string, user: UserRow)

  /** `{ token, user }` of /login. */
  datatype LoginResponse = LoginResponse(token: string, user: UserView)

  const MinPasswordLength := 6
  const NotAuthorizedToCreateUsers := "Not authorized to create users"
  const InvalidCredentials := "Invalid credentials"
  /**
   * PostgreSQL's message when an insert breaks the UNIQUE constraint on
   * `users.email`, under the default name of that constraint.
   */
  const DuplicateEmail := "duplicate key value violates unique constraint \"users_email_key\""

  /** The failed checks of `/register-admin`, in the order of its validation chain. */
  function RegisterAdminErrors(body: RegisterAdminBody, isEmail: string -> bool): (errs: seq<string>)
    ensures "email" in errs <==> !isEmail(body.email)
    ensures "password" in errs <==> |body.password| < MinPasswordLength
    ensures "restaurantName" in errs <==> body.restaurantName == ""
    ensures forall p | p in errs :: p in {"email", "password", "restaurantName"}
  {
    (if isEmail(body.email) then [] else ["email"])
    + (if |body.password| >= MinPasswordLength then [] else ["password"])
    + (if body.restaurantName != "" then [] else ["restaurantName"])
  }

  /**
   * POST /register-admin. After validation, BEGIN; insert the restaurant; hash
   * the password; insert the admin; COMMIT. An insert that fails rolls the
   * transaction back (the id sequences keep the values they handed out).
   */
  method RegisterAdmin(db: Database, body: RegisterAdminBody, isEmail: string -> bool,
                       hash: string -> string, sign: nat -> string) returns (r: Result<Registered>)
    requires db.Valid()
    modifies db
    ensures db.Valid()
    ensures RegisterAdminErrors(body, isEmail) != [] ==>
      r == Err(Invalid(RegisterAdminErrors(body, isEmail))) && unchanged(db)
    ensures RegisterAdminErrors(body, isEmail) == [] && EmailTaken(old(db.users), body.email) ==>
      && r == Err(Error(500, DuplicateEmail))
      && db.users == old(db.users) && db.restaurants == old(db.restaurants)
      && db.nextUserId == old(db.nextUserId) + 1 && db.nextRestaurantId == old(db.nextRestaurantId) + 1
    ensures RegisterAdminErrors(body, isEmail) == [] && !EmailTaken(old(db.users), body.email) ==>
      var admin := UserRow(old(db.nextUserId), body.email, hash(body.password), body.firstName,
                           body.lastName, Some(old(db.nextRestaurantId)), Admin);
      && db.restaurants == old(db.restaurants) + [RestaurantRow(old(db.nextRestaurantId), body.restaurantName)]
      && db.users == old(db.users) + [admin]
      && db.nextUserId == old(db.nextUserId) + 1 && db.nextRestaurantId == old(db.nextRestaurantId) + 1
      && r == Ok(Registered(sign(admin.id), admin))
  {
    var errs := RegisterAdminErrors(body, isEmail);
    if errs != [] {
      return Err(Invalid(errs));
    }
    // BEGIN
    var savedUsers, savedRestaurants := db.users, db.restaurants;
    var restaurantId := db.nextRestaurantId;
    db.restaurants := db.restaurants + [RestaurantRow(restaurantId, body.restaurantName)];
    db.nextRestaurantId := db.nextRestaurantId + 1;
    var passwordHash := hash(body.password);
    var userId := db.nextUserId;
    db.nextUserId := db.nextUserId + 1;
    if EmailTaken(db.users, body.email) {
      // ROLLBACK
      db.users, db.restaurants := savedUsers, savedRestaurants;
      return Err(Error(500, DuplicateEmail));
    }
    var admin := UserRow(userId, body.email, passwordHash, body.firstName, body.lastName, Some(restaurantId), Admin);
    db.users := db.users + [admin];
    // COMMIT
    r := Ok(Registered(sign(userId), admin));
  }

  /** The role check of `/register`: only the three staff roles pass. */
  function StaffRole(s: string): (r: Option<Role>)
    ensures r.Some? <==> s in {"line_cook", "chef", "manager"}
    ensures r.Some? ==> r.value != Admin && RoleName(r.value) == s
  {
    match ParseRole(s)
    case Some(Admin) => None
    case other => other
  }

  /** The failed checks of `/register`, in the order of its validation chain. */
  function RegisterErrors(body: RegisterBody, isEmail: string -> bool): (errs: seq<string>)
    ensures "email" in errs <==> !isEmail(body.email)
    ensures "password" in errs <==> |body.password| < MinPasswordLength
    ensures "role" in errs <==> StaffRole(body.role).None?
    ensures forall p | p in errs :: p in {"email", "password", "role"}
  {
    (if isEmail(body.email) then [] else ["email"])
    + (if |body.password| >= MinPasswordLength then [] else ["password"])
    + (if StaffRole(body.role).Some? then [] else ["role"])
  }

  /**
   * POST /register behind the auth middleware: validation (400), then the
   * `can_manage_users` check (403), then one insert into the creator's
   * restaurant; no transaction.
   */
  method Register(db: Database, caller: Principal, body: RegisterBody, isEmail: string -> bool,
                  hash: string -> string) returns (r: Result<UserRow>)
    requires db.Valid()
    modifies db
    ensures db.Valid()
    ensures RegisterErrors(body, isEmail) != [] ==>
      r == Err(Invalid(RegisterErrors(body, isEmail))) && unchanged(db)
    ensures RegisterErrors(body, isEmail) == [] && !caller.permissions.canManageUsers ==>
      r == Err(Error(403, NotAuthorizedToCreateUsers)) && unchanged(db)
    ensures RegisterErrors(body, isEmail) == [] && caller.permissions.canManageUsers &&
            EmailTaken(old(db.users), body.email) ==>
      r == Err(Error(500, DuplicateEmail)) && db.users == old(db.users) &&
      db.restaurants == old(db.restaurants) && db.nextUserId == old(db.nextUserId) + 1 &&
      db.nextRestaurantId == old(db.nextRestaurantId)
    ensures r.Ok? ==>
      && RegisterErrors(body, isEmail) == [] && caller.permissions.canManageUsers
      && r.value == UserRow(old(db.nextUserId), body.email, hash(body.password), body.firstName,
                            body.lastName, caller.user.restaurantId, StaffRole(body.role).value)
      && db.users == old(db.users) + [r.value] && db.restaurants == old(db.restaurants)
      && db.nextUserId == old(db.nextUserId) + 1 && db.nextRestaurantId == old(db.nextRestaurantId)
    ensures (RegisterErrors(body, isEmail) == [] && caller.permissions.canManageUsers &&
             !EmailTaken(old(db.users), body.email)) ==> r.Ok?
    ensures r.Ok? ==> r.value.role != Admin
  {
    var errs := RegisterErrors(body, isEmail);
    if errs != [] {
      return Err(Invalid(errs));
    }
    if !caller.permissions.canManageUsers {
      return Err(Error(403, NotAuthorizedToCreateUsers));
    }
    var passwordHash := hash(body.password);
    var userId := db.nextUserId;
    db.nextUserId := db.nextUserId + 1;
    if EmailTaken(db.users, body.email) {
      return Err(Error(500, DuplicateEmail));
    }
    var row := UserRow(userId, body.email, passwordHash, body.firstName, body.lastName,
                       caller.user.restaurantId, StaffRole(body.role).value);
    db.users := db.users + [row];
    r := Ok(row);
  }

  /** The failed checks of `/login`: a valid e-mail, and a password that is present. */
  function LoginErrors(email: string, password: Option<string>, isEmail: string -> bool): (errs: seq<string>)
    ensures errs == [] <==> isEmail(email) && password.Some?
    ensures "email" in errs <==> !isEmail(email)
    ensures "password" in errs <==> password.None?
    ensures forall p | p in errs :: p in {"email", "password"}
  {
    (if isEmail(email) then [] else ["email"]) + (if password.Some? then [] else ["password"])
  }

  /** POST /login over the users table. */
  function Login(users: seq<UserRow>, email: string, password: Option<string>, isEmail: string -> bool,
                 matches: (string, string) -> bool, sign: nat -> string): (r: Result<LoginResponse>)
    ensures LoginErrors(email, password, isEmail) != [] <==> r.Err? && r.failure.Invalid?
    ensures LoginErrors(email, password, isEmail) != [] ==> r == Err(Invalid(LoginErrors(email, password, isEmail)))
    ensures r.Err? && r.failure.Status() == 401 ==> r.failure == Error(401, InvalidCredentials)
    ensures r.Ok? ==>
      (exists i | 0 <= i < |users| ::
         && users[i].email == email && matches(password.value, users[i].passwordHash)
         && r.value == LoginResponse(sign(users[i].id), View(users[i])))
    ensures r.Ok? || r.failure.Invalid? || r.failure == Error(401, InvalidCredentials)
  {
    var errs := LoginErrors(email, password, isEmail);
    if errs != [] then Err(Invalid(errs))
    else
      match FindUserByEmail(users, email)
      case None => Err(Error(401, InvalidCredentials))
      case Some(i) =>
        if !matches(password.value, users[i].passwordHash) then Err(Error(401, InvalidCredentials))
        else Ok(LoginResponse(sign(users[i].id), View(users[i])))
  }

  /**
   * A well-formed login fails in the same way whether the e-mail is unknown
   * or the password is wrong, and it succeeds exactly when both are right.
   */
  lemma LoginCredentials(users: seq<UserRow>, email: string, password: string, isEmail: string -> bool,
                         matches: (string, string) -> bool, sign: nat -> string)
    requires isEmail(email)
    requires forall i, j | 0 <= i < j < |users| :: users[i].email != users[j].email
    ensures Login(users, email, Some(password), isEmail, matches, sign).Ok? <==>
      exists i | 0 <= i < |users| :: users[i].email == email && matches(password, users[i].passwordHash)
    ensures !Login(users, email, Some(password), isEmail, matches, sign).Ok? ==>
      Login(users, email, Some(password), isEmail, matches, sign) == Err(Error(401, InvalidCredentials))
  {
    var r := Login(users, email, Some(password), isEmail, matches, sign);
    var found := FindUserByEmail(users, email);
    if found.Some? {
      var k := found.value;
      assert forall i | 0 <= i < |users| && users[i].email == email :: i == k;
    }
  }
}
