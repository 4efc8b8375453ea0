/**
 * The `users` and `restaurants` tables as in-memory rows, held by one
 * `Database` object that the account handlers change.
 */
module Schema {
  import opened JsValues
  import opened Permissions

  /**
   * A row of `users`. A name or `restaurant_id` that a request body leaves out
   * (or sends as null) is stored as NULL (`None`).
   */
  datatype UserRow = UserRow(
    id: nat,
    email: string,
    passwordHash: string,
    firstName: Option<string>,
    lastName: Option<string>,
    restaurantId: Option<nat>,
    role: Role)

  datatype RestaurantRow = RestaurantRow(id: nat, name: string)

  /**
   * The user columns the handlers send back without `password_hash`: the
   * `id, email, first_name, last_name, restaurant_id, role` that the SELECT and
   * RETURNING lists of routes/users.js name (they also name `created_at`,
   * which is not modelled), and the `user` object of the login response.
   */
  datatype UserView = UserView(
    id: nat,
    email: string,
    firstName: Option<string>,
    lastName: Option<string>,
    restaurantId: Option<nat>,
    role: Role)

  function View(u: UserRow): UserView
  {
    UserView(u.id, u.email, u.firstName, u.lastName, u.restaurantId, u.role)
  }

  /** The position of the first element satisfying `p`: a single-row `SELECT ... WHERE`. */
  function FirstIndex<T>(s: seq<T>, p: T -> bool): (r: Option<nat>)
    ensures r.Some? ==> r.value < |s| && p(s[r.value])
    ensures r.Some? ==> forall j | 0 <= j < r.value :: !p(s[j])
    ensures r.None? ==> forall j | 0 <= j < |s| :: !p(s[j])
  {
    if s == [] then None
    else if p(s[0]) then Some(0)
    else
      match FirstIndex(s[1..], p)
      case None => None
      case Some(i) => Some(i + 1)
  }

  function FindUserById(users: seq<UserRow>, id: nat): Option<nat>
  {
    FirstIndex(users, (u: UserRow) => u.id == id)
  }

  function FindUserByEmail(users: seq<UserRow>, email: string): Option<nat>
  {
    FirstIndex(users, (u: UserRow) => u.email == email)
  }

  predicate RestaurantExists(restaurants: seq<RestaurantRow>, id: nat)
  {
    exists i | 0 <= i < |restaurants| :: restaurants[i].id == id
  }

  predicate EmailTaken(users: seq<UserRow>, email: string)
  {
    exists i | 0 <= i < |users| :: users[i].email == email
  }

  /** The rows of the two tables and the next values of their SERIAL id sequences. */
  class Database {
    var users: seq<UserRow>
    var restaurants: seq<RestaurantRow>
    var nextUserId: nat
    var nextRestaurantId: nat

    /** Primary keys are issued by the sequences; ids are distinct and so are emails (UNIQUE). */
    ghost predicate Valid()
      reads this
    {
      && 1 <= nextUserId && 1 <= nextRestaurantId
      && (forall i | 0 <= i < |users| :: 1 <= users[i].id < nextUserId)
      && (forall i, j | 0 <= i < j < |users| :: users[i].id != users[j].id && users[i].email != users[j].email)
      && (forall i | 0 <= i < |restaurants| :: 1 <= restaurants[i].id < nextRestaurantId)
      && (forall i, j | 0 <= i < j < |restaurants| :: restaurants[i].id != restaurants[j].id)
    }

    constructor ()
      ensures Valid()
      ensures users == [] && restaurants == [] && nextUserId == 1 && nextRestaurantId == 1
    {
      users, restaurants := [], [];
      nextUserId, nextRestaurantId := 1, 1;
    }
  }
}
