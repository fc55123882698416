/** The three collections the backend reads and writes, held in memory as maps
    from identifier to document, with the invariants the handlers maintain. */
module Store {
  import opened Common
  import opened Approval
  import opened UserModel
  import opened CourseModel
  import opened ReviewModel

  /** No two accounts share an e-mail (the unique index), and every e-mail is
      stored lower-cased. */
  ghost predicate EmailsUnique(users: map<Id, User>) {
    (forall id :: id in users ==> IsLower(users[id].email)) &&
    forall a, b :: a in users && b in users && users[a].email == users[b].email ==> a == b
  }

  /** Only teacher accounts are ever anything but approved. */
  ghost predicate OnlyTeachersWait(users: map<Id, User>) {
    forall id :: id in users && users[id].role != Teacher ==> users[id].status == Approved
  }

  /** No roster holds the same student twice. */
  ghost predicate RostersDistinct(courses: map<Id, Course>) {
    forall id :: id in courses ==> Distinct(courses[id].students)
  }

  /** At most one review per (student, course) pair, whatever its status. */
  ghost predicate OneReviewPerPair(reviews: map<Id, Review>) {
    forall a, b ::
      a in reviews && b in reviews &&
      reviews[a].student == reviews[b].student && reviews[a].course == reviews[b].course
      ==> a == b
  }

  /** Every review was written by a student on its course's roster. */
  ghost predicate ReviewersEnrolled(courses: map<Id, Course>, reviews: map<Id, Review>) {
    forall id :: id in reviews ==>
      reviews[id].course in courses && reviews[id].student in courses[reviews[id].course].students
  }

  /** The schemas' required text fields are never empty: an account's name
      and e-mail, a course's title and description, a review's comment. */
  ghost predicate RequiredFieldsPresent(users: map<Id, User>, courses: map<Id, Course>, reviews: map<Id, Review>) {
    (forall id :: id in users ==> users[id].name != "" && users[id].email != "") &&
    (forall id :: id in courses ==> courses[id].title != "" && courses[id].description != "") &&
    (forall id :: id in reviews ==> reviews[id].comment != "")
  }

  /** Every identifier and every creation stamp was drawn from the clock
      before its current value. */
  ghost predicate BeforeClock(clock: nat, users: map<Id, User>, courses: map<Id, Course>,
                              reviews: map<Id, Review>) {
    (forall id :: id in users ==> id < clock && users[id].createdAt < clock) &&
    (forall id :: id in courses ==> id < clock && courses[id].createdAt < clock) &&
    (forall id :: id in reviews ==> id < clock && reviews[id].createdAt < clock)
  }

  /** Storing a new account under the clock keeps the invariants, provided
      its name and e-mail are filled in, its e-mail is lower-cased and held by
      no account, only a teacher waits, and it is stamped with the clock. */
  lemma AddAccount(clock: nat, users: map<Id, User>, courses: map<Id, Course>, reviews: map<Id, Review>, u: User)
    requires BeforeClock(clock, users, courses, reviews) && RequiredFieldsPresent(users, courses, reviews)
    requires EmailsUnique(users) && OnlyTeachersWait(users)
    requires u.createdAt == clock && u.name != "" && u.email != "" && IsLower(u.email)
    requires u.role != Teacher ==> u.status == Approved
    requires forall id :: id in users ==> users[id].email != u.email
    ensures clock !in users
    ensures BeforeClock(clock + 1, users[clock := u], courses, reviews)
    ensures RequiredFieldsPresent(users[clock := u], courses, reviews)
    ensures EmailsUnique(users[clock := u]) && OnlyTeachersWait(users[clock := u])
  {
  }

  /** Replacing one account keeps the account invariants, provided the new
      account keeps the creation stamp, has its name and e-mail filled in,
      holds a lower-cased e-mail no other account holds, and waits only if it
      is a teacher. */
  lemma ReplaceAccount(clock: nat, users: map<Id, User>, courses: map<Id, Course>, reviews: map<Id, Review>,
                       id: Id, v: User)
    requires BeforeClock(clock, users, courses, reviews) && RequiredFieldsPresent(users, courses, reviews)
    requires EmailsUnique(users) && OnlyTeachersWait(users)
    requires id in users && v.createdAt == users[id].createdAt
    requires v.role != Teacher ==> v.status == Approved
    requires v.name != "" && v.email != "" && IsLower(v.email)
    requires forall other :: other in users && other != id ==> users[other].email != v.email
    ensures BeforeClock(clock, users[id := v], courses, reviews)
    ensures RequiredFieldsPresent(users[id := v], courses, reviews)
    ensures EmailsUnique(users[id := v]) && OnlyTeachersWait(users[id := v])
  {
  }

  /** Storing a new course with an empty roster under the clock keeps the
      invariants, provided its title and description are filled in. */
  lemma AddCourse(clock: nat, users: map<Id, User>, courses: map<Id, Course>, reviews: map<Id, Review>, k: Course)
    requires BeforeClock(clock, users, courses, reviews) && RequiredFieldsPresent(users, courses, reviews)
    requires RostersDistinct(courses) && ReviewersEnrolled(courses, reviews)
    requires k.createdAt == clock && k.title != "" && k.description != "" && k.students == []
    ensures clock !in courses
    ensures BeforeClock(clock + 1, users, courses[clock := k], reviews)
    ensures RequiredFieldsPresent(users, courses[clock := k], reviews)
    ensures RostersDistinct(courses[clock := k]) && ReviewersEnrolled(courses[clock := k], reviews)
  {
  }

  /** Replacing one course keeps the invariants, provided the new course
      keeps the creation stamp and the text fields filled in, and its roster
      has no repeats and keeps every student the old one had. */
  lemma ReplaceCourse(clock: nat, users: map<Id, User>, courses: map<Id, Course>, reviews: map<Id, Review>,
                      id: Id, k: Course)
    requires BeforeClock(clock, users, courses, reviews) && RequiredFieldsPresent(users, courses, reviews)
    requires RostersDistinct(courses) && ReviewersEnrolled(courses, reviews)
    requires id in courses && k.createdAt == courses[id].createdAt && k.title != "" && k.description != ""
    requires Distinct(k.students) && forall s :: s in courses[id].students ==> s in k.students
    ensures BeforeClock(clock, users, courses[id := k], reviews)
    ensures RequiredFieldsPresent(users, courses[id := k], reviews)
    ensures RostersDistinct(courses[id := k]) && ReviewersEnrolled(courses[id := k], reviews)
  {
  }

  /** Storing a new review under the clock keeps the invariants, provided
      its comment is filled in, its author is on its course's roster and has
      not reviewed that course before. */
  lemma AddReview(clock: nat, users: map<Id, User>, courses: map<Id, Course>, reviews: map<Id, Review>, v: Review)
    requires BeforeClock(clock, users, courses, reviews) && RequiredFieldsPresent(users, courses, reviews)
    requires OneReviewPerPair(reviews) && ReviewersEnrolled(courses, reviews)
    requires v.createdAt == clock && v.comment != ""
    requires v.course in courses && v.student in courses[v.course].students
    requires forall id :: id in reviews ==> !(reviews[id].student == v.student && reviews[id].course == v.course)
    ensures clock !in reviews
    ensures BeforeClock(clock + 1, users, courses, reviews[clock := v])
    ensures RequiredFieldsPresent(users, courses, reviews[clock := v])
    ensures OneReviewPerPair(reviews[clock := v]) && ReviewersEnrolled(courses, reviews[clock := v])
  {
  }

  /** Replacing one review by one of the same author, course, stamp and a
      filled-in comment keeps the invariants. */
  lemma ReplaceReview(clock: nat, users: map<Id, User>, courses: map<Id, Course>, reviews: map<Id, Review>,
                      id: Id, v: Review)
    requires BeforeClock(clock, users, courses, reviews) && RequiredFieldsPresent(users, courses, reviews)
    requires OneReviewPerPair(reviews) && ReviewersEnrolled(courses, reviews)
    requires id in reviews && v.student == reviews[id].student && v.course == reviews[id].course
    requires v.createdAt == reviews[id].createdAt && v.comment != ""
    ensures BeforeClock(clock, users, courses, reviews[id := v])
    ensures RequiredFieldsPresent(users, courses, reviews[id := v])
    ensures OneReviewPerPair(reviews[id := v]) && ReviewersEnrolled(courses, reviews[id := v])
  {
  }

  class Database {
    var users: map<Id, User>
    var courses: map<Id, Course>
    var reviews: map<Id, Review>
    /** The next identifier to hand out, also the next `createdAt` stamp. */
    var clock: nat

    ghost predicate Valid()
      reads this
    {
      BeforeClock(clock, users, courses, reviews) &&
      RequiredFieldsPresent(users, courses, reviews) &&
      EmailsUnique(users) && OnlyTeachersWait(users) &&
      RostersDistinct(courses) &&
      OneReviewPerPair(reviews) && ReviewersEnrolled(courses, reviews)
    }

    constructor ()
      ensures Valid()
      ensures users == map[] && courses == map[] && reviews == map[] && clock == 0
    {
      users, courses, reviews, clock := map[], map[], map[], 0;
    }
  }
}
