/** The Course schema: a teacher's course, its approval status and its roster. */
module CourseModel {
  import opened Common
  import opened Approval

  datatype Course = Course(
    title: string,
    description: string,
    teacher: Id,
    students: seq<Id>,   // the roster, in joining order
    status: Status,
    createdAt: nat
  )

  /** `Course.create(...)`: the roster starts empty and the status defaults to
      `Pending`. */
  function Create(title: string, description: string, teacher: Id,
                  status: Option<Status>, createdAt: nat): (c: Course)
    ensures c.title == title && c.description == description && c.teacher == teacher
    ensures c.students == [] && c.createdAt == createdAt
    ensures c.status == (if status.Some? then status.value else Pending)
  {
    Course(title, description, teacher, [], if status.Some? then status.value else Pending, createdAt)
  }

  /** The course as `select('-students')` returns it: no roster. */
  datatype CourseCard = CourseCard(title: string, description: string, teacher: Id,
                                   status: Status, createdAt: nat)

  function CardOf(c: Course): CourseCard {
    CourseCard(c.title, c.description, c.teacher, c.status, c.createdAt)
  }

  function Full(c: Course): Course {
    c
  }

  function Age(c: Course): nat {
    c.createdAt
  }
}
