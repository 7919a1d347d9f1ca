/** The users table: one row per account, keyed by its primary key `id`. */
module Users {

  /** Primary key of the users table (an auto-incremented integer column). */
  type Id = int

  /** The `status` column: an enumeration with exactly two values. */
  datatype Status = Active | Blocked

  /** Optional column values such as `last_login_time` before the first login. */
  datatype Option<T> = None | Some(value: T)

  /** One row of the users table (the primary key is the table's map key). */
  datatype User = User(
    name: string,
    email: string,
    password: string,
    status: Status,
    registrationTime: int,
    lastLoginTime: Option<int>)

  /** The table itself: primary key to row. */
  type Table = map<Id, User>

  /** The text the storage returns for a `status` value. */
  function StatusText(s: Status): (t: string)
    ensures t == "active" <==> s == Active
    ensures t == "blocked" <==> s == Blocked
  {
    match s
    case Active => "active"
    case Blocked => "blocked"
  }

  /** Two rows agree on every column except possibly `status`. */
  predicate SameExceptStatus(u: User, v: User)
  {
    && u.name == v.name
    && u.email == v.email
    && u.password == v.password
    && u.registrationTime == v.registrationTime
    && u.lastLoginTime == v.lastLoginTime
  }

  /** The unique index on `email`: no two distinct rows share an email. */
  ghost predicate EmailsUnique(t: Table)
  {
    forall i, j :: i in t && j in t && i != j ==> t[i].email != t[j].email
  }
}
