/** The course handlers: creation by a teacher, the teacher's own list, the
    approved catalogue, one approved course, enrolment and a course's approved
    reviews. */
module CourseController {
  import opened Common
  import opened Approval
  import opened Listing
  import opened UserModel
  import opened CourseModel
  import opened ReviewModel
  import opened Http
  import opened Store

  /** POST /api/courses: an empty title or description gets 400 and creates
      nothing; otherwise the caller's new course is stored `Pending` with an
      empty roster under the next identifier and answered with 201. */
  method CreateCourse(db: Database, teacher: Id, title: string, description: string)
    returns (r: Response)
    requires db.Valid()
    modifies db
    ensures db.Valid()
    ensures db.users == old(db.users) && db.reviews == old(db.reviews)
    ensures r.code == 400 <==> title == "" || description == ""
    ensures r.code == 400 ==>
      r.body == Message("Please provide title and description for the course") &&
      db.courses == old(db.courses) && db.clock == old(db.clock)
    ensures r.code != 400 ==>
      var id := old(db.clock);
      r.code == 201 && id !in old(db.courses) && db.clock == id + 1 &&
      db.courses == old(db.courses)[id := CourseModel.Create(title, description, teacher, Some(Pending), id)] &&
      r.body == OneCourse(Doc(id, db.courses[id]))
  {
    if title == "" || description == "" {
      r := Fail(400, "Please provide title and description for the course");
      return;
    }
    var id := db.clock;
    var course := CourseModel.Create(title, description, teacher, Some(Pending), id);
    AddCourse(db.clock, db.users, db.courses, db.reviews, course);
    db.courses := db.courses[id := course];
    db.clock := db.clock + 1;
    r := Response(201, OneCourse(Doc(id, course)));
  }

  function OwnedBy(teacher: Id): Course -> bool {
    (c: Course) => c.teacher == teacher
  }

  predicate IsApprovedCourse(c: Course) {
    c.status == Approved
  }

  /** GET /api/courses/my: every course of the caller, in any status, newest first. */
  function MyCourses(courses: map<Id, Course>, teacher: Id): (r: Response)
    ensures r.code == 200 && r.body.Courses?
    ensures Exactly(r.body.courses, courses, OwnedBy(teacher), CourseModel.Full)
    ensures DocsNewestFirst(r.body.courses, courses, CourseModel.Age)
  {
    Response(200, Courses(FindNewestFirst(courses, OwnedBy(teacher), CourseModel.Full, CourseModel.Age)))
  }

  /** GET /api/courses: exactly the approved courses, newest first, each
      without its roster. */
  function ApprovedCourses(courses: map<Id, Course>): (r: Response)
    ensures r.code == 200 && r.body.CourseCards?
    ensures Exactly(r.body.cards, courses, IsApprovedCourse, CourseModel.CardOf)
    ensures DocsNewestFirst(r.body.cards, courses, CourseModel.Age)
  {
    Response(200, CourseCards(FindNewestFirst(courses, IsApprovedCourse, CourseModel.CardOf, CourseModel.Age)))
  }

  /** GET /api/courses/:id: the course when it exists and is approved, 404
      otherwise (a pending or rejected course reads as missing). */
  function CourseById(courses: map<Id, Course>, id: Id): (r: Response)
    ensures r.code == 200 || r.code == 404
    ensures r.code == 200 <==> id in courses && courses[id].status == Approved
    ensures r.code == 200 ==> r.body == OneCourse(Doc(id, courses[id]))
  {
    if id in courses && courses[id].status == Approved then
      Response(200, OneCourse(Doc(id, courses[id])))
    else
      Fail(404, "Course not found or not available")
  }

  /** PUT /api/courses/:id/join: 404 when the course is missing or not
      approved, 400 when the caller is already on the roster, and otherwise
      the caller is appended to the roster once. Nothing else changes. */
  method JoinCourse(db: Database, student: Id, id: Id) returns (r: Response)
    requires db.Valid()
    modifies db
    ensures db.Valid()
    ensures db.users == old(db.users) && db.reviews == old(db.reviews) && db.clock == old(db.clock)
    ensures r.code == 404 <==> id !in old(db.courses) || old(db.courses)[id].status != Approved
    ensures r.code == 400 <==>
      id in old(db.courses) && old(db.courses)[id].status == Approved && student in old(db.courses)[id].students
    ensures r.code == 200 <==>
      id in old(db.courses) && old(db.courses)[id].status == Approved && student !in old(db.courses)[id].students
    ensures r.code == 200 ==>
      db.courses == old(db.courses)[id := old(db.courses)[id].(students := old(db.courses)[id].students + [student])] &&
      r.body == Message("Successfully joined the course")
    ensures r.code != 200 ==> db.courses == old(db.courses)
    ensures db.courses.Keys == old(db.courses).Keys
  {
    var course := if id in db.courses then Some(db.courses[id]) else None;
    if course.None? || course.value.status != Approved {
      r := Fail(404, "Course not found or not available for joining");
      return;
    }
    var c := course.value;
    var alreadyEnrolled := student in c.students;
    if alreadyEnrolled {
      r := Fail(400, "Already enrolled in this course");
      return;
    }
    c := c.(students := c.students + [student]);
    ReplaceCourse(db.clock, db.users, db.courses, db.reviews, id, c);
    db.courses := db.courses[id := c];
    r := Response(200, Message("Successfully joined the course"));
  }

  function ApprovedFor(course: Id): Review -> bool {
    (rv: Review) => rv.course == course && rv.status == Approved
  }

  /** GET /api/courses/:courseId/reviews: 404 unless the course exists and is
      approved; otherwise exactly that course's approved reviews, newest first. */
  function ApprovedCourseReviews(courses: map<Id, Course>, reviews: map<Id, Review>, courseId: Id)
    : (r: Response)
    ensures r.code == 200 || r.code == 404
    ensures r.code == 200 <==> courseId in courses && courses[courseId].status == Approved
    ensures r.code == 200 ==>
      r.body.Reviews? &&
      Exactly(r.body.reviews, reviews, ApprovedFor(courseId), ReviewModel.Full) &&
      DocsNewestFirst(r.body.reviews, reviews, ReviewModel.Age)
  {
    if !(courseId in courses && courses[courseId].status == Approved) then
      Fail(404, "Course not found or not available")
    else
      Response(200, Reviews(FindNewestFirst(reviews, ApprovedFor(courseId), ReviewModel.Full, ReviewModel.Age)))
  }
}
