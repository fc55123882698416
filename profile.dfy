/** PUT /api/users/profile: a partial update of the caller's own account. */
module UserController {
  import opened Common
  import opened Approval
  import opened Crypto
  import opened UserModel
  import opened Http
  import opened Store

  /** The account after the update: name, e-mail and password are replaced only
      when supplied non-empty (the e-mail lower-cased by the schema), and the
      pre-save hook hashes the password only when the assigned value differs
      from the stored one. */
  function Patched(u: User, name: string, email: string, password: string, c: Primitives): (v: User)
    ensures v.name == (if name != "" then name else u.name)
    ensures v.email == (if email != "" then Lower(email) else u.email)
    ensures v.password == (if password != "" && password != u.password then c.hash(password) else u.password)
    ensures v.role == u.role && v.status == u.status && v.createdAt == u.createdAt
  {
    var doc := u.(name := if name != "" then name else u.name,
                  email := if email != "" then Lower(email) else u.email,
                  password := if password != "" then password else u.password);
    PreSave(doc, doc.password != u.password, c)
  }

  /** A name-only update leaves the e-mail and the stored hash as they were:
      the unmodified password is not hashed a second time. */
  lemma NameOnlyKeepsCredentials(u: User, name: string, c: Primitives)
    ensures Patched(u, name, "", "", c).email == u.email
    ensures Patched(u, name, "", "", c).password == u.password
  {
  }

  /** An empty update changes nothing. */
  lemma EmptyPatchIsIdentity(u: User, c: Primitives)
    ensures Patched(u, "", "", "", c) == u
  {
  }

  /** After a password change the account accepts the new password. */
  lemma NewPasswordMatches(u: User, name: string, email: string, password: string, c: Primitives)
    requires Sound(c) && password != "" && password != u.password
    ensures MatchPassword(Patched(u, name, email, password, c), password, c)
  {
  }

  /** Another account already holds this e-mail: saving it would break the
      unique index. */
  predicate EmailHeldByOther(users: map<Id, User>, id: Id, email: string) {
    exists other :: other in users && other != id && users[other].email == email
  }

  /** An unknown caller id gets 404 and nothing changes. An e-mail another
      account holds makes the save fail on the unique index and nothing
      changes. Otherwise only the caller's account changes, to the patched
      account, and the answer carries no password. */
  method UpdateUserProfile(db: Database, c: Primitives, id: Id, name: string, email: string, password: string)
    returns (r: Response)
    requires db.Valid()
    modifies db
    ensures db.Valid()
    ensures db.courses == old(db.courses) && db.reviews == old(db.reviews) && db.clock == old(db.clock)
    ensures id !in old(db.users) ==> r == Fail(404, "User not found")
    ensures r.code == 200 <==>
      id in old(db.users) &&
      !EmailHeldByOther(old(db.users), id, Patched(old(db.users)[id], name, email, password, c).email)
    ensures r.code == 200 ==>
      db.users == old(db.users)[id := Patched(old(db.users)[id], name, email, password, c)] &&
      r.body == ProfileUpdated(id, ProfileOf(db.users[id]))
    ensures id in old(db.users) && r.code != 200 ==> r == Unhandled("E11000 duplicate key error: email")
    ensures r.code != 200 ==> db.users == old(db.users)
  {
    if id !in db.users {
      r := Fail(404, "User not found");
      return;
    }
    var user := db.users[id];
    var stored := user.password;
    if name != "" { user := user.(name := name); }
    if email != "" { user := user.(email := Lower(email)); }
    if password != "" { user := user.(password := password); }
    var updated := PreSave(user, user.password != stored, c);
    if EmailHeldByOther(db.users, id, updated.email) {
      r := Unhandled("E11000 duplicate key error: email");
      return;
    }
    assert updated == Patched(db.users[id], name, email, password, c);
    ReplaceAccount(db.clock, db.users, db.courses, db.reviews, id, updated);
    db.users := db.users[id := updated];
    r := Response(200, ProfileUpdated(id, ProfileOf(updated)));
  }
}
