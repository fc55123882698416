/** The User schema: accounts of the three roles, their approval status and the
    credential hash. */
module UserModel {
  import opened Common
  import opened Approval
  import opened Crypto

  datatype Role = Admin | Teacher | Student

  datatype User = User(
    name: string,
    email: string,      // unique, stored lower-cased
    password: string,   // the bcrypt hash once saved
    role: Role,
    status: Status,
    createdAt: nat
  )

  /** The schema's default status: teachers wait for approval, every other
      role starts approved. */
  function DefaultStatus(role: Role): (s: Status)
    ensures s == Pending <==> role == Teacher
    ensures s != Rejected
  {
    if role == Teacher then Pending else Approved
  }

  /** The pre-save hook: a password assigned since the last save is replaced by
      its hash, an untouched one is kept as it is, and nothing else changes. */
  function PreSave(doc: User, passwordModified: bool, c: Primitives): (saved: User)
    ensures saved.(password := doc.password) == doc
    ensures passwordModified ==> saved.password == c.hash(doc.password)
    ensures !passwordModified ==> saved == doc
  {
    if passwordModified then doc.(password := c.hash(doc.password)) else doc
  }

  /** `User.create(...)`: the schema lower-cases the e-mail, falls back on the
      role's default status when none is given, and the pre-save hook hashes the
      (new, hence modified) password. */
  function Create(name: string, email: string, password: string, role: Role,
                  status: Option<Status>, createdAt: nat, c: Primitives): (u: User)
    ensures u.name == name && u.email == Lower(email) && u.role == role
    ensures u.password == c.hash(password) && u.createdAt == createdAt
    ensures u.status == (if status.Some? then status.value else DefaultStatus(role))
  {
    var doc := User(name, Lower(email), password, role,
                    if status.Some? then status.value else DefaultStatus(role), createdAt);
    PreSave(doc, true, c)
  }

  /** `user.matchPassword(entered)`: with sound primitives, the password
      whose hash is stored is accepted. */
  function MatchPassword(u: User, entered: string, c: Primitives): (ok: bool)
    ensures Sound(c) && u.password == c.hash(entered) ==> ok
  {
    c.matches(entered, u.password)
  }

  /** A freshly created account accepts the password it was created with. */
  lemma CreatedAccountMatches(name: string, email: string, password: string, role: Role,
                              status: Option<Status>, at: nat, c: Primitives)
    requires Sound(c)
    ensures MatchPassword(Create(name, email, password, role, status, at, c), password, c)
  {
    var u := Create(name, email, password, role, status, at, c);
    assert u.password == c.hash(password);
  }

  /** The user as `select('-password')` returns it. */
  datatype Account = Account(name: string, email: string, role: Role, status: Status, createdAt: nat)

  function WithoutPassword(u: User): (a: Account)
    ensures a.name == u.name && a.email == u.email && a.role == u.role
    ensures a.status == u.status && a.createdAt == u.createdAt
  {
    Account(u.name, u.email, u.role, u.status, u.createdAt)
  }

  /** The fields the JSON answers of register, login and profile update carry. */
  datatype Profile = Profile(name: string, email: string, role: Role, status: Status)

  function ProfileOf(u: User): (p: Profile)
    ensures p.name == u.name && p.email == u.email && p.role == u.role && p.status == u.status
  {
    Profile(u.name, u.email, u.role, u.status)
  }

  /** The pending-teacher listing's `select('name email createdAt')`. */
  datatype TeacherCard = TeacherCard(name: string, email: string, createdAt: nat)

  function TeacherCardOf(u: User): TeacherCard {
    TeacherCard(u.name, u.email, u.createdAt)
  }
}
