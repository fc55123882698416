/** The Review schema: one student's comment on one course, with its approval
    status. */
module ReviewModel {
  import opened Common
  import opened Approval

  datatype Review = Review(
    comment: string,
    student: Id,
    course: Id,
    status: Status,
    createdAt: nat
  )

  /** `Review.create(...)`: the status defaults to `Pending`. */
  function Create(comment: string, student: Id, course: Id,
                  status: Option<Status>, createdAt: nat): (r: Review)
    ensures r.comment == comment && r.student == student && r.course == course
    ensures r.createdAt == createdAt
    ensures r.status == (if status.Some? then status.value else Pending)
  {
    Review(comment, student, course, if status.Some? then status.value else Pending, createdAt)
  }

  /** The student's own listing, `select('comment status createdAt course')`. */
  datatype ReviewCard = ReviewCard(comment: string, status: Status, createdAt: nat, course: Id)

  function CardOf(r: Review): ReviewCard {
    ReviewCard(r.comment, r.status, r.createdAt, r.course)
  }

  function Full(r: Review): Review {
    r
  }

  function Age(r: Review): nat {
    r.createdAt
  }
}
