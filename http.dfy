/** Handler answers: an HTTP status code and a JSON body. Error answers carry
    `{ message }`. */
module Http {
  import opened Common
  import opened Approval
  import opened Listing
  import opened UserModel
  import opened CourseModel
  import opened ReviewModel

  datatype Body =
    | Message(text: string)
    | Stats(totalStudents: nat, totalTeachers: nat)
    | TeacherCards(teachers: seq<Doc<TeacherCard>>)
    | TeacherDecided(id: Id, name: string, email: string, status: Status, message: string)
    | Courses(courses: seq<Doc<Course>>)
    | CourseCards(cards: seq<Doc<CourseCard>>)
    | OneCourse(course: Doc<Course>)
    | CourseDecided(course: Doc<Course>, message: string)
    | Reviews(reviews: seq<Doc<Review>>)
    | ReviewCards(myReviews: seq<Doc<ReviewCard>>)
    | ReviewDecided(review: Doc<Review>, message: string)
    | ReviewSubmitted(message: string, review: Doc<Review>)
    | Session(id: Id, profile: Profile, token: string)
    | TeacherRegistered(message: string, userId: Id, profile: Profile)
    | Me(account: Doc<Account>)
    | ProfileUpdated(id: Id, profile: Profile)

  datatype Response = Response(code: nat, body: Body)

  /** An error thrown after `res.status(code)`. */
  function Fail(code: nat, message: string): (r: Response)
    ensures r.code == code && r.body == Message(message)
  {
    Response(code, Message(message))
  }

  /** The status a Node response carries until a handler sets another. */
  const UnsetStatus: nat := 200

  /** The error handler's choice of status, as written: the status already on
      the response, and 500 only when there is none. */
  function ErrorStatusAsWritten(current: nat): (code: nat)
    ensures current != 0 ==> code == current
    ensures code != 0
  {
    if current != 0 then current else 500
  }

  /** An error thrown before any `res.status(...)` call (a CastError from a
      malformed id, a duplicate-key error from the unique e-mail index) is
      rendered with the success code 200. */
  lemma UnsetErrorRendersAsSuccess()
    ensures ErrorStatusAsWritten(UnsetStatus) == 200
  {
  }

  /** The evidently intended choice: keep an error status a handler set, and
      fall back on 500 otherwise, so that an error never reads as success. */
  function ErrorStatus(current: nat): (code: nat)
    ensures !(200 <= code < 300)
    ensures current >= 400 ==> code == current
    ensures current < 400 ==> code == 500
  {
    if current >= 400 then current else 500
  }

  /** An error no handler gave a status to, as the corrected error handler renders it. */
  function Unhandled(message: string): (r: Response)
    ensures r.code == 500 && r.body == Message(message)
  {
    Fail(ErrorStatus(UnsetStatus), message)
  }
}
