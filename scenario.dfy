/** The approval workflow end to end, on a fresh database: a teacher is held
    at login until approved, a course and a review stay invisible until
    approved. */
module Walkthrough {
  import opened Common
  import opened Approval
  import opened Listing
  import opened Crypto
  import opened UserModel
  import opened CourseModel
  import opened ReviewModel
  import opened Http
  import opened Store
  import AdminController
  import AuthController
  import CourseController
  import ReviewController

  /** The catalogue lists a course. */
  predicate Lists(r: Response, id: Id) {
    r.body.CourseCards? && exists i :: 0 <= i < |r.body.cards| && r.body.cards[i].id == id
  }

  /** A course's review listing shows a review. */
  predicate Shows(r: Response, id: Id) {
    r.body.Reviews? && exists i :: 0 <= i < |r.body.reviews| && r.body.reviews[i].id == id
  }

  /** With `u` the only account, the right credentials log in as `u`: 403 for
      a teacher who is not approved, 200 for every other account. */
  lemma SoleAccountLogin(u: User, c: Primitives, email: string, password: string)
    requires email != "" && password != "" && u.email == Lower(email) && MatchPassword(u, password, c)
    ensures AuthController.Login(map[0 := u], c, email, password).code ==
      if u.role == Teacher && u.status != Approved then 403 else 200
  {
    var users := map[0 := u];
    assert 0 in users && users[0].email == Lower(email);
    assert AuthController.FindByEmail(users, email) == Some(0);
  }

  /** Teacher T registers as account 0; the login is refused. */
  method SignUpTeacher(db: Database, c: Primitives, email: string, password: string) returns (refused: Response)
    requires db.Valid() && email != "" && password != "" && c.matches(password, c.hash(password))
    requires db.users == map[] && db.courses == map[] && db.reviews == map[] && db.clock == 0
    modifies db
    ensures db.Valid() && db.courses == map[] && db.reviews == map[] && db.clock == 1
    ensures db.users == map[0 := UserModel.Create("T", email, password, Teacher, Some(Pending), 0, c)]
    ensures refused.code == 403
  {
    var r := AuthController.RegisterTeacher(db, c, "T", email, password);
    ghost var t := UserModel.Create("T", email, password, Teacher, Some(Pending), 0, c);
    SoleAccountLogin(t, c, email, password);
    var users := db.users;
    refused := AuthController.Login(users, c, email, password);
  }

  /** An admin approves T; now the login succeeds. */
  method AdmitTeacher(db: Database, c: Primitives, email: string, password: string, ghost t: User)
    returns (admitted: Response)
    requires db.Valid() && email != "" && password != "" && db.users == map[0 := t]
    requires t.email == Lower(email) && MatchPassword(t, password, c) && t.role == Teacher && t.status == Pending
    modifies db
    ensures db.Valid() && db.courses == old(db.courses) && db.reviews == old(db.reviews) && db.clock == old(db.clock)
    ensures db.users == map[0 := t.(status := Approved)]
    ensures admitted.code == 200
  {
    var r := AdminController.DecideTeacher(db, 0, Approve);
    assert db.users == map[0 := t.(status := Approved)];
    SoleAccountLogin(t.(status := Approved), c, email, password);
    admitted := AuthController.Login(db.users, c, email, password);
  }

  /** T creates course C101 (record 1); the catalogue does not list it. */
  method CreatePhase(db: Database) returns (before: Response)
    requires db.Valid() && db.courses == map[] && db.clock == 1
    modifies db
    ensures db.Valid() && db.users == old(db.users) && db.reviews == old(db.reviews) && db.clock == 2
    ensures db.courses == map[1 := CourseModel.Create("C101", "Introduction", 0, Some(Pending), 1)]
    ensures !Lists(before, 1)
  {
    var r := CourseController.CreateCourse(db, 0, "C101", "Introduction");
    before := CourseController.ApprovedCourses(db.courses);
    ExactlyListsIff(before.body.cards, db.courses, CourseController.IsApprovedCourse, CourseModel.CardOf, 1);
  }

  /** An admin approves C101; now the catalogue lists it. */
  method PublishPhase(db: Database, ghost k: Course) returns (after: Response)
    requires db.Valid() && db.courses == map[1 := k] && k.status == Pending
    modifies db
    ensures db.Valid() && db.users == old(db.users) && db.reviews == old(db.reviews) && db.clock == old(db.clock)
    ensures db.courses == map[1 := k.(status := Approved)]
    ensures Lists(after, 1)
  {
    assert 1 in db.courses && db.courses[1] == k;
    var r := AdminController.DecideCourse(db, 1, Approve);
    assert db.courses == map[1 := k.(status := Approved)];
    after := CourseController.ApprovedCourses(db.courses);
    ExactlyListsIff(after.body.cards, db.courses, CourseController.IsApprovedCourse, CourseModel.CardOf, 1);
  }

  /** Student S registers as account 2, approved from the start. */
  method SignUpStudent(db: Database, c: Primitives, email: string, password: string, ghost t: User)
    returns (registered: Response)
    requires db.Valid() && email != "" && password != "" && db.clock == 2
    requires db.users == map[0 := t] && t.email != Lower(email)
    modifies db
    ensures db.Valid() && db.courses == old(db.courses) && db.reviews == old(db.reviews) && db.clock == 3
    ensures db.users == old(db.users)[2 := UserModel.Create("S", email, password, Student, Some(Approved), 2, c)]
    ensures registered.code == 201
  {
    assert AuthController.FindByEmail(db.users, email).None?;
    registered := AuthController.RegisterStudent(db, c, "S", email, password);
  }

  /** S joins C101: the roster becomes [S]. */
  method JoinPhase(db: Database, ghost k: Course) returns (joined: Response)
    requires db.Valid() && db.courses == map[1 := k] && k.status == Approved && k.students == []
    modifies db
    ensures db.Valid() && db.users == old(db.users) && db.reviews == old(db.reviews) && db.clock == old(db.clock)
    ensures db.courses == map[1 := k.(students := [2])]
    ensures joined.code == 200
  {
    assert 1 in db.courses && db.courses[1] == k && 2 !in k.students;
    assert k.students + [2] == [2];
    joined := CourseController.JoinCourse(db, 2, 1);
    assert db.courses == map[1 := k.(students := [2])];
  }

  /** The review S submits on C101. */
  const Comment: string := "Great course"

  /** S reviews C101: the review is stored as record 3, pending, and the
      course's listing does not show it. */
  method SubmitPhase(db: Database, ghost k: Course) returns (created: Response, hidden: Response)
    requires db.Valid() && db.clock == 3 && db.reviews == map[]
    requires db.courses == map[1 := k] && k.status == Approved && k.students == [2]
    modifies db
    ensures db.Valid() && db.users == old(db.users) && db.courses == old(db.courses) && db.clock == 4
    ensures db.reviews == map[3 := ReviewModel.Create(Comment, 2, 1, Some(Pending), 3)]
    ensures created.code == 201 && created.body.ReviewSubmitted? && created.body.review.fields.status == Pending
    ensures hidden.code == 200 && !Shows(hidden, 3)
  {
    assert 1 in db.courses && db.courses[1] == k && 2 in k.students;
    created := ReviewController.CreateReview(db, 2, 1, Comment);
    hidden := CourseController.ApprovedCourseReviews(db.courses, db.reviews, 1);
    ExactlyListsIff(hidden.body.reviews, db.reviews, CourseController.ApprovedFor(1), ReviewModel.Full, 3);
  }

  /** An admin approves review 3; now the course's listing shows it. */
  method ApproveReviewPhase(db: Database, ghost k: Course, ghost w: Review) returns (shown: Response)
    requires db.Valid() && db.reviews == map[3 := w] && w.status == Pending && w.course == 1
    requires db.courses == map[1 := k] && k.status == Approved
    modifies db
    ensures db.Valid() && db.users == old(db.users) && db.courses == old(db.courses) && db.clock == old(db.clock)
    ensures db.reviews == map[3 := w.(status := Approved)]
    ensures shown.code == 200 && Shows(shown, 3)
  {
    assert 3 in db.reviews && db.reviews[3] == w;
    var r := AdminController.DecideReview(db, 3, Approve);
    assert db.reviews == map[3 := w.(status := Approved)];
    shown := CourseController.ApprovedCourseReviews(db.courses, db.reviews, 1);
    ExactlyListsIff(shown.body.reviews, db.reviews, CourseController.ApprovedFor(1), ReviewModel.Full, 3);
  }

  /** The whole walkthrough on a fresh database. */
  method Scenario(c: Primitives, teacherEmail: string, teacherPassword: string,
                  studentEmail: string, studentPassword: string)
    returns (refused: Response, admitted: Response, before: Response, after: Response,
             registered: Response, joined: Response, created: Response, hidden: Response, shown: Response)
    requires Sound(c) && teacherEmail != "" && teacherPassword != ""
    requires studentEmail != "" && studentPassword != "" && Lower(teacherEmail) != Lower(studentEmail)
    ensures refused.code == 403 && admitted.code == 200
    ensures !Lists(before, 1) && Lists(after, 1)
    ensures registered.code == 201 && joined.code == 200
    ensures created.code == 201 && created.body.ReviewSubmitted? && created.body.review.fields.status == Pending
    ensures hidden.code == 200 && !Shows(hidden, 3) && shown.code == 200 && Shows(shown, 3)
  {
    var db := new Database();
    refused := SignUpTeacher(db, c, teacherEmail, teacherPassword);
    ghost var t := UserModel.Create("T", teacherEmail, teacherPassword, Teacher, Some(Pending), 0, c);
    admitted := AdmitTeacher(db, c, teacherEmail, teacherPassword, t);
    before := CreatePhase(db);
    ghost var k := CourseModel.Create("C101", "Introduction", 0, Some(Pending), 1);
    after := PublishPhase(db, k);
    registered := SignUpStudent(db, c, studentEmail, studentPassword, t.(status := Approved));
    joined := JoinPhase(db, k.(status := Approved));
    ghost var k' := k.(status := Approved).(students := [2]);
    created, hidden := SubmitPhase(db, k');
    shown := ApproveReviewPhase(db, k', ReviewModel.Create(Comment, 2, 1, Some(Pending), 3));
  }
}
