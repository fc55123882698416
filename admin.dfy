/** The admin handlers: dashboard counts, the three pending queues, and the
    approve and reject actions on teachers, courses and reviews. */
module AdminController {
  import opened Common
  import opened Approval
  import opened Listing
  import opened UserModel
  import opened CourseModel
  import opened ReviewModel
  import opened Http
  import opened Store

  // ---------------------------------------------------------------- statistics

  function ApprovedWithRole(role: Role): User -> bool {
    (u: User) => u.role == role && u.status == Approved
  }

  /** GET /api/admin/stats: the numbers of approved students and of approved
      teachers; pending and rejected accounts and admins are not counted. */
  function GetStats(users: map<Id, User>): (r: Response)
    ensures r.code == 200 && r.body.Stats?
    ensures r.body.totalStudents ==
      |set id | id in users && users[id].role == Student && users[id].status == Approved|
    ensures r.body.totalTeachers ==
      |set id | id in users && users[id].role == Teacher && users[id].status == Approved|
  {
    var students := Count(users, users.Keys, ApprovedWithRole(Student));
    var teachers := Count(users, users.Keys, ApprovedWithRole(Teacher));
    assert Matching(users, users.Keys, ApprovedWithRole(Student)) ==
      set id | id in users && users[id].role == Student && users[id].status == Approved;
    assert Matching(users, users.Keys, ApprovedWithRole(Teacher)) ==
      set id | id in users && users[id].role == Teacher && users[id].status == Approved;
    Response(200, Stats(students, teachers))
  }

  // ------------------------------------------------------------ pending queues

  predicate IsPendingTeacher(u: User) {
    u.role == Teacher && u.status == Pending
  }

  predicate IsPendingCourse(c: Course) {
    c.status == Pending
  }

  predicate IsPendingReview(r: Review) {
    r.status == Pending
  }

  /** GET /api/admin/teachers/pending: exactly the teacher accounts in
      `Pending`, with name, e-mail and creation time, in ascending identifier
      order (the model's choice; the query does not sort). */
  function PendingTeachers(users: map<Id, User>): (r: Response)
    ensures r.code == 200 && r.body.TeacherCards?
    ensures Exactly(r.body.teachers, users, IsPendingTeacher, TeacherCardOf)
    ensures forall i, j :: 0 <= i < j < |r.body.teachers| ==> r.body.teachers[i].id < r.body.teachers[j].id
  {
    Response(200, TeacherCards(Find(users, IsPendingTeacher, TeacherCardOf)))
  }

  /** GET /api/admin/courses/pending: exactly the courses in `Pending`. */
  function PendingCourses(courses: map<Id, Course>): (r: Response)
    ensures r.code == 200 && r.body.Courses?
    ensures Exactly(r.body.courses, courses, IsPendingCourse, CourseModel.Full)
    ensures forall i, j :: 0 <= i < j < |r.body.courses| ==> r.body.courses[i].id < r.body.courses[j].id
  {
    Response(200, Courses(Find(courses, IsPendingCourse, CourseModel.Full)))
  }

  /** GET /api/admin/reviews/pending: exactly the reviews in `Pending`. */
  function PendingReviews(reviews: map<Id, Review>): (r: Response)
    ensures r.code == 200 && r.body.Reviews?
    ensures Exactly(r.body.reviews, reviews, IsPendingReview, ReviewModel.Full)
    ensures forall i, j :: 0 <= i < j < |r.body.reviews| ==> r.body.reviews[i].id < r.body.reviews[j].id
  {
    Response(200, Reviews(Find(reviews, IsPendingReview, ReviewModel.Full)))
  }

  // ------------------------------------------------------------- transitions

  function Outcome(v: Verdict): string {
    if v == Approve then "approved" else "rejected"
  }

  /** PUT /api/admin/teachers/:id/approve and .../reject. A pending teacher
      moves to the verdict's status; any account that is not pending gets 400;
      a missing id, or a pending account that is not a teacher, gets 404.
      Only the one account's status changes. */
  method DecideTeacher(db: Database, id: Id, v: Verdict) returns (r: Response)
    requires db.Valid()
    modifies db
    ensures db.Valid()
    ensures db.courses == old(db.courses) && db.reviews == old(db.reviews) && db.clock == old(db.clock)
    ensures r.code == 200 <==>
      id in old(db.users) && old(db.users)[id].role == Teacher && old(db.users)[id].status == Pending
    ensures r.code == 400 <==> id in old(db.users) && old(db.users)[id].status != Pending
    ensures r.code == 200 || r.code == 400 || r.code == 404
    ensures r.code == 200 ==>
      db.users == old(db.users)[id := old(db.users)[id].(status := Target(v))] &&
      r.body == TeacherDecided(id, old(db.users)[id].name, old(db.users)[id].email, Target(v),
                               "Teacher " + Outcome(v) + " successfully.")
    ensures r.code != 200 ==> db.users == old(db.users)
    ensures id in old(db.users) && old(db.users)[id].role == Teacher ==>
      id in db.users && db.users[id].status == Replay(old(db.users)[id].status, [v])
  {
    var teacher := if id in db.users then Some(db.users[id]) else None;
    if teacher.Some? && teacher.value.role == Teacher && teacher.value.status == Pending {
      var updated := teacher.value.(status := Target(v));
      ReplaceAccount(db.clock, db.users, db.courses, db.reviews, id, updated);
      db.users := db.users[id := updated];
      r := Response(200, TeacherDecided(id, updated.name, updated.email, updated.status,
                                        "Teacher " + Outcome(v) + " successfully."));
    } else if teacher.Some? && teacher.value.status != Pending {
      r := Fail(400, "Teacher is not pending approval");
    } else {
      r := Fail(404, "Teacher not found or is not a pending teacher");
    }
  }

  /** PUT /api/admin/courses/:id/approve and .../reject. A pending course moves
      to the verdict's status (roster and all else kept); a course in any other
      status gets 400; a missing course gets 404. */
  method DecideCourse(db: Database, id: Id, v: Verdict) returns (r: Response)
    requires db.Valid()
    modifies db
    ensures db.Valid()
    ensures db.users == old(db.users) && db.reviews == old(db.reviews) && db.clock == old(db.clock)
    ensures r.code == 200 <==> id in old(db.courses) && old(db.courses)[id].status == Pending
    ensures r.code == 400 <==> id in old(db.courses) && old(db.courses)[id].status != Pending
    ensures r.code == 404 <==> id !in old(db.courses)
    ensures r.code == 200 ==>
      db.courses == old(db.courses)[id := old(db.courses)[id].(status := Target(v))] &&
      r.body == CourseDecided(Doc(id, db.courses[id]), "Course " + Outcome(v) + " successfully.")
    ensures r.code != 200 ==> db.courses == old(db.courses)
    ensures db.courses.Keys == old(db.courses).Keys
    ensures id in old(db.courses) ==>
      id in db.courses && db.courses[id].status == Replay(old(db.courses)[id].status, [v])
  {
    var course := if id in db.courses then Some(db.courses[id]) else None;
    if course.Some? && course.value.status == Pending {
      var updated := course.value.(status := Target(v));
      ReplaceCourse(db.clock, db.users, db.courses, db.reviews, id, updated);
      db.courses := db.courses[id := updated];
      r := Response(200, CourseDecided(Doc(id, updated), "Course " + Outcome(v) + " successfully."));
    } else if course.Some? && course.value.status != Pending {
      r := Fail(400, "Course is not pending approval");
    } else {
      r := Fail(404, "Course not found or is not pending");
    }
  }

  /** PUT /api/admin/reviews/:id/approve and .../reject, with the same rule. */
  method DecideReview(db: Database, id: Id, v: Verdict) returns (r: Response)
    requires db.Valid()
    modifies db
    ensures db.Valid()
    ensures db.users == old(db.users) && db.courses == old(db.courses) && db.clock == old(db.clock)
    ensures r.code == 200 <==> id in old(db.reviews) && old(db.reviews)[id].status == Pending
    ensures r.code == 400 <==> id in old(db.reviews) && old(db.reviews)[id].status != Pending
    ensures r.code == 404 <==> id !in old(db.reviews)
    ensures r.code == 200 ==>
      db.reviews == old(db.reviews)[id := old(db.reviews)[id].(status := Target(v))] &&
      r.body == ReviewDecided(Doc(id, db.reviews[id]), "Review " + Outcome(v) + " successfully.")
    ensures r.code != 200 ==> db.reviews == old(db.reviews)
    ensures id in old(db.reviews) ==>
      id in db.reviews && db.reviews[id].status == Replay(old(db.reviews)[id].status, [v])
  {
    var review := if id in db.reviews then Some(db.reviews[id]) else None;
    if review.Some? && review.value.status == Pending {
      var updated := review.value.(status := Target(v));
      ReplaceReview(db.clock, db.users, db.courses, db.reviews, id, updated);
      db.reviews := db.reviews[id := updated];
      r := Response(200, ReviewDecided(Doc(id, updated), "Review " + Outcome(v) + " successfully."));
    } else if review.Some? && review.value.status != Pending {
      r := Fail(400, "Review is not pending approval");
    } else {
      r := Fail(404, "Review not found or is not pending");
    }
  }

  /** A second verdict on the same course, whatever either verdict is, is
      refused with 400: a decision is not repeatable. The course ends with the
      status the two verdicts replay to, and nothing else in the store
      changes. */
  method DecideCourseTwice(db: Database, id: Id, first: Verdict, second: Verdict)
    returns (r1: Response, r2: Response)
    requires db.Valid()
    modifies db
    ensures db.Valid()
    ensures r1.code == 200 ==> r2.code == 400
    ensures r2.code == 400 ==> id in db.courses && db.courses[id].status != Pending
    ensures db.users == old(db.users) && db.reviews == old(db.reviews) && db.clock == old(db.clock)
    ensures id in old(db.courses) ==>
      db.courses == old(db.courses)[id := old(db.courses)[id].(status := Replay(old(db.courses)[id].status, [first, second]))]
    ensures id !in old(db.courses) ==> db.courses == old(db.courses)
  {
    r1 := DecideCourse(db, id, first);
    ghost var mid := db.courses;
    r2 := DecideCourse(db, id, second);
    if id in old(db.courses) {
      assert Replay(old(db.courses)[id].status, [first, second]) == Replay(mid[id].status, [second]);
    }
  }
}
