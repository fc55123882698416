/** The review handlers: a student's submission and a student's own list. */
module ReviewController {
  import opened Common
  import opened Approval
  import opened Listing
  import opened CourseModel
  import opened ReviewModel
  import opened Http
  import opened Store

  /** `Review.findOne({ course, student })` finds something: a review of this
      pair exists, in any status. */
  predicate HasReview(reviews: map<Id, Review>, student: Id, course: Id) {
    exists id :: id in reviews && reviews[id].course == course && reviews[id].student == student
  }

  /** The course exists and is approved. */
  predicate Open(courses: map<Id, Course>, id: Id) {
    id in courses && courses[id].status == Approved
  }

  /** The student is on the course's roster. */
  predicate Enrolled(courses: map<Id, Course>, id: Id, student: Id)
    requires id in courses
  {
    student in courses[id].students
  }

  /** POST /api/courses/:courseId/reviews. The checks run in this order and the
      first that fails decides the answer: an empty comment (400), a course
      that is missing or not approved (404), a caller not on the roster (403),
      an existing review of this pair whatever its status (400). Only when all
      pass is a `Pending` review stored under the next identifier (201). */
  method CreateReview(db: Database, student: Id, courseId: Id, comment: string)
    returns (r: Response)
    requires db.Valid()
    modifies db
    ensures db.Valid()
    ensures db.users == old(db.users) && db.courses == old(db.courses)
    ensures comment == "" ==> r == Fail(400, "Review comment is required")
    ensures comment != "" && !Open(db.courses, courseId) ==>
      r == Fail(404, "Course not available for review")
    ensures comment != "" && Open(db.courses, courseId) && !Enrolled(db.courses, courseId, student) ==>
      r == Fail(403, "Enrollment required to review")
    ensures (comment != "" && Open(db.courses, courseId) && Enrolled(db.courses, courseId, student) &&
             HasReview(old(db.reviews), student, courseId)) ==>
      r == Fail(400, "Review already submitted")
    ensures r.code == 201 <==>
      comment != "" && Open(db.courses, courseId) && Enrolled(db.courses, courseId, student) &&
      !HasReview(old(db.reviews), student, courseId)
    ensures r.code == 201 ==>
      var id := old(db.clock);
      id !in old(db.reviews) && db.clock == id + 1 &&
      db.reviews == old(db.reviews)[id := ReviewModel.Create(comment, student, courseId, Some(Pending), id)] &&
      r.body == ReviewSubmitted("Review submitted—awaiting approval.", Doc(id, db.reviews[id]))
    ensures r.code != 201 ==> db.reviews == old(db.reviews) && db.clock == old(db.clock)
  {
    if comment == "" {
      r := Fail(400, "Review comment is required");
      return;
    }
    var course := if courseId in db.courses then Some(db.courses[courseId]) else None;
    if course.None? || course.value.status != Approved {
      r := Fail(404, "Course not available for review");
      return;
    }
    if student !in course.value.students {
      r := Fail(403, "Enrollment required to review");
      return;
    }
    if HasReview(db.reviews, student, courseId) {
      r := Fail(400, "Review already submitted");
      return;
    }
    var id := db.clock;
    var review := ReviewModel.Create(comment, student, courseId, Some(Pending), id);
    AddReview(db.clock, db.users, db.courses, db.reviews, review);
    db.reviews := db.reviews[id := review];
    db.clock := db.clock + 1;
    r := Response(201, ReviewSubmitted("Review submitted—awaiting approval.", Doc(id, review)));
  }

  function WrittenBy(student: Id): Review -> bool {
    (rv: Review) => rv.student == student
  }

  /** GET /api/reviews/my: exactly the caller's reviews, in any status, newest
      first, each with its comment, status, creation time and course. */
  function MyReviews(reviews: map<Id, Review>, student: Id): (r: Response)
    ensures r.code == 200 && r.body.ReviewCards?
    ensures Exactly(r.body.myReviews, reviews, WrittenBy(student), ReviewModel.CardOf)
    ensures DocsNewestFirst(r.body.myReviews, reviews, ReviewModel.Age)
  {
    Response(200, ReviewCards(FindNewestFirst(reviews, WrittenBy(student), ReviewModel.CardOf, ReviewModel.Age)))
  }
}
