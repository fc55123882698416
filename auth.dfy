/** The account handlers: student and teacher registration, login with its
    approval gate, and the caller's own profile. */
module AuthController {
  import opened Common
  import opened Approval
  import opened Listing
  import opened Crypto
  import opened UserModel
  import opened Http
  import opened Store

  function HasEmail(email: string): User -> bool {
    (u: User) => u.email == email
  }

  /** `User.findOne({ email })`: the schema lower-cases the e-mail of the query
      too. In a valid store the e-mails are unique, so at most one account
      matches; the model returns the least matching identifier. */
  function FindByEmail(users: map<Id, User>, email: string): (r: Option<Id>)
    ensures r.Some? ==> r.value in users && users[r.value].email == Lower(email)
    ensures r.Some? ==> forall id :: id in users && users[id].email == Lower(email) ==> r.value <= id
    ensures r.None? ==> forall id :: id in users ==> users[id].email != Lower(email)
  {
    var hits := Scan(users, users.Keys, HasEmail(Lower(email)));
    if hits == [] then None
    else
      assert forall id :: id in users && users[id].email == Lower(email) ==> id in hits;
      Some(hits[0])
  }

  /** POST /api/auth/register/student: 400 and nothing stored when a field is
      empty or the e-mail is taken; otherwise an approved student is stored
      under the next identifier and answered with 201 and a token. */
  method RegisterStudent(db: Database, c: Primitives, name: string, email: string, password: string)
    returns (r: Response)
    requires db.Valid()
    modifies db
    ensures db.Valid()
    ensures db.courses == old(db.courses) && db.reviews == old(db.reviews)
    ensures name == "" || email == "" || password == "" ==> r == Fail(400, "Please add all fields")
    ensures name != "" && email != "" && password != "" && FindByEmail(old(db.users), email).Some? ==>
      r == Fail(400, "Student already exists")
    ensures r.code == 201 <==>
      name != "" && email != "" && password != "" && FindByEmail(old(db.users), email).None?
    ensures r.code == 400 ==> db.users == old(db.users) && db.clock == old(db.clock)
    ensures r.code != 400 ==>
      var id := old(db.clock);
      r.code == 201 && id !in old(db.users) && db.clock == id + 1 &&
      db.users == old(db.users)[id := UserModel.Create(name, email, password, Student, Some(Approved), id, c)] &&
      r.body == Session(id, ProfileOf(db.users[id]), c.sign(id))
  {
    if name == "" || email == "" || password == "" {
      r := Fail(400, "Please add all fields");
      return;
    }
    var userExists := FindByEmail(db.users, email);
    if userExists.Some? {
      r := Fail(400, "Student already exists");
      return;
    }
    var id := db.clock;
    var user := UserModel.Create(name, email, password, Student, Some(Approved), id, c);
    AddAccount(db.clock, db.users, db.courses, db.reviews, user);
    db.users := db.users[id := user];
    db.clock := db.clock + 1;
    r := Response(201, Session(id, ProfileOf(user), c.sign(id)));
  }

  /** The message a teacher's registration is answered with. */
  const AwaitingApproval: string := "Teacher registration successful. Waiting for admin approval."

  /** POST /api/auth/register/teacher: the same checks; a pending teacher is
      stored and the answer (201) carries no token. */
  method RegisterTeacher(db: Database, c: Primitives, name: string, email: string, password: string)
    returns (r: Response)
    requires db.Valid()
    modifies db
    ensures db.Valid()
    ensures db.courses == old(db.courses) && db.reviews == old(db.reviews)
    ensures name == "" || email == "" || password == "" ==> r == Fail(400, "Please add all fields")
    ensures name != "" && email != "" && password != "" && FindByEmail(old(db.users), email).Some? ==>
      r == Fail(400, "Teacher email already registered")
    ensures r.code == 201 <==>
      name != "" && email != "" && password != "" && FindByEmail(old(db.users), email).None?
    ensures r.code == 400 ==> db.users == old(db.users) && db.clock == old(db.clock)
    ensures r.code != 400 ==>
      var id := old(db.clock);
      r.code == 201 && id !in old(db.users) && db.clock == id + 1 &&
      db.users == old(db.users)[id := UserModel.Create(name, email, password, Teacher, Some(Pending), id, c)] &&
      r.body == TeacherRegistered(AwaitingApproval, id, ProfileOf(db.users[id]))
  {
    if name == "" || email == "" || password == "" {
      r := Fail(400, "Please add all fields");
      return;
    }
    var userExists := FindByEmail(db.users, email);
    if userExists.Some? {
      r := Fail(400, "Teacher email already registered");
      return;
    }
    var id := db.clock;
    var user := UserModel.Create(name, email, password, Teacher, Some(Pending), id, c);
    AddAccount(db.clock, db.users, db.courses, db.reviews, user);
    db.users := db.users[id := user];
    db.clock := db.clock + 1;
    r := Response(201, TeacherRegistered(AwaitingApproval, id, ProfileOf(user)));
  }

  /** The explicit statuses the two registrations store are the schema's defaults. */
  lemma RegistrationUsesDefaults(name: string, email: string, password: string, at: nat, c: Primitives)
    ensures UserModel.Create(name, email, password, Student, Some(Approved), at, c) ==
            UserModel.Create(name, email, password, Student, None, at, c)
    ensures UserModel.Create(name, email, password, Teacher, Some(Pending), at, c) ==
            UserModel.Create(name, email, password, Teacher, None, at, c)
  {
  }

  function StatusName(s: Status): string {
    match s
    case Pending => "pending"
    case Approved => "approved"
    case Rejected => "rejected"
  }

  /** The account the credentials identify: a known e-mail whose stored hash
      matches the password. */
  predicate Authentic(users: map<Id, User>, email: string, password: string, c: Primitives) {
    var found := FindByEmail(users, email);
    found.Some? && MatchPassword(users[found.value], password, c)
  }

  /** POST /api/auth/login. Missing fields get 400; an unknown e-mail or a wrong
      password get 401 whatever the account's status; a teacher who is not
      approved gets 403 even with the right password; every other account gets
      200 with its profile and a token for its own id. */
  function Login(users: map<Id, User>, c: Primitives, email: string, password: string): (r: Response)
    ensures email == "" || password == "" ==> r == Fail(400, "Please provide email and password")
    ensures email != "" && password != "" && !Authentic(users, email, password, c) ==>
      r == Fail(401, "Invalid email or password")
    ensures r.code == 403 <==>
      email != "" && password != "" && Authentic(users, email, password, c) &&
      var u := users[FindByEmail(users, email).value]; u.role == Teacher && u.status != Approved
    ensures r.code == 200 <==>
      email != "" && password != "" && Authentic(users, email, password, c) &&
      var u := users[FindByEmail(users, email).value]; !(u.role == Teacher && u.status != Approved)
    ensures r.code == 200 ==>
      var id := FindByEmail(users, email).value;
      r.body == Session(id, ProfileOf(users[id]), c.sign(id))
  {
    if email == "" || password == "" then
      Fail(400, "Please provide email and password")
    else
      var found := FindByEmail(users, email);
      if found.Some? && MatchPassword(users[found.value], password, c) then
        var u := users[found.value];
        if u.role == Teacher && u.status != Approved then
          Fail(403, "Teacher account is " + StatusName(u.status) + ". Cannot log in.")
        else
          Response(200, Session(found.value, ProfileOf(u), c.sign(found.value)))
      else
        Fail(401, "Invalid email or password")
  }

  /** GET /api/auth/me: the account `protect` attached, 404 when there is none. */
  function GetMe(user: Option<Doc<Account>>): (r: Response)
    ensures r.code == 200 <==> user.Some?
    ensures r.code == 200 ==> r.body == Me(user.value)
    ensures r.code != 200 ==> r == Fail(404, "User not found")
  {
    if user.Some? then Response(200, Me(user.value)) else Fail(404, "User not found")
  }
}
