/** The course, review and admin APIs as the application mounts them: a
    request is resolved by its router and, when the middleware lets it through,
    handed to the handler the route names. */
module Server {
  import opened Common
  import opened Approval
  import Listing
  import opened Crypto
  import opened UserModel
  import opened CourseModel
  import opened ReviewModel
  import opened Http
  import opened Store
  import opened AuthMiddleware
  import opened Routes
  import AdminController
  import CourseController
  import ReviewController

  /** The three routers: /api/courses, /api/reviews and /api/admin. */
  datatype Mount = CourseApi | ReviewApi | AdminApi

  function RouterOf(m: Mount): Router {
    match m
    case CourseApi => CourseRouter()
    case ReviewApi => ReviewRouter()
    case AdminApi => AdminRouter()
  }

  /** The request body fields the handlers of these routers read. */
  datatype Form = Form(title: string, description: string, comment: string)

  /** A path parameter that does not cast to an identifier makes the lookup
      throw before any answer is chosen. */
  const CastFailure: Response := Unhandled("Cast to ObjectId failed")

  /** The caller authenticates as an admin. */
  predicate AdminCaller(header: Option<string>, users: map<Id, User>, c: Primitives) {
    var a := Authenticate(header, users, c);
    a.Authenticated? && a.user.fields.role == Admin
  }

  /** The handlers that only read the store. */
  predicate ReadOnly(h: Handler) {
    h == GetStats || h == GetPendingTeachers || h == GetPendingCourses || h == GetPendingReviews ||
    h == GetApprovedCourses || h == GetMyCourses || h == GetCourseById || h == GetApprovedCourseReviews ||
    h == GetMyReviews
  }

  /** The controller query each read-only handler names. */
  function Query(h: Handler, caller: Id, id: Option<Id>, users: map<Id, User>, courses: map<Id, Course>,
                 reviews: map<Id, Review>): Response
    requires ReadOnly(h)
  {
    match h
    case GetStats => AdminController.GetStats(users)
    case GetPendingTeachers => AdminController.PendingTeachers(users)
    case GetPendingCourses => AdminController.PendingCourses(courses)
    case GetPendingReviews => AdminController.PendingReviews(reviews)
    case GetApprovedCourses => CourseController.ApprovedCourses(courses)
    case GetMyCourses => CourseController.MyCourses(courses, caller)
    case GetMyReviews => ReviewController.MyReviews(reviews, caller)
    case GetCourseById => if id.None? then CastFailure else CourseController.CourseById(courses, id.value)
    case GetApprovedCourseReviews =>
      if id.None? then CastFailure else CourseController.ApprovedCourseReviews(courses, reviews, id.value)
  }

  /** What each read-only handler answers: the approved counts, a
      pending queue, the catalogue, the caller's own courses or reviews, one
      approved course or its approved reviews, each exactly as its controller
      lists it; an identifier that did not cast throws. */
  lemma QueryAnswers(h: Handler, caller: Id, id: Option<Id>, users: map<Id, User>, courses: map<Id, Course>,
                     reviews: map<Id, Review>)
    requires ReadOnly(h)
    ensures var r := Query(h, caller, id, users, courses, reviews);
      (h == GetStats ==>
        r.body.Stats? &&
        r.body.totalStudents == |set u | u in users && users[u].role == Student && users[u].status == Approved| &&
        r.body.totalTeachers == |set u | u in users && users[u].role == Teacher && users[u].status == Approved|) &&
      (h == GetPendingTeachers ==>
        r.body.TeacherCards? &&
        Listing.Exactly(r.body.teachers, users, AdminController.IsPendingTeacher, TeacherCardOf)) &&
      (h == GetPendingCourses ==>
        r.body.Courses? && Listing.Exactly(r.body.courses, courses, AdminController.IsPendingCourse, CourseModel.Full)) &&
      (h == GetPendingReviews ==>
        r.body.Reviews? && Listing.Exactly(r.body.reviews, reviews, AdminController.IsPendingReview, ReviewModel.Full)) &&
      (h == GetApprovedCourses ==>
        r.body.CourseCards? &&
        Listing.Exactly(r.body.cards, courses, CourseController.IsApprovedCourse, CourseModel.CardOf)) &&
      (h == GetMyCourses ==>
        r.body.Courses? && Listing.Exactly(r.body.courses, courses, CourseController.OwnedBy(caller), CourseModel.Full)) &&
      (h == GetMyReviews ==>
        r.body.ReviewCards? &&
        Listing.Exactly(r.body.myReviews, reviews, ReviewController.WrittenBy(caller), ReviewModel.CardOf)) &&
      (h == GetCourseById && id.Some? ==>
        (r.code == 200 <==> id.value in courses && courses[id.value].status == Approved) &&
        (r.code == 200 ==> r.body == OneCourse(Listing.Doc(id.value, courses[id.value])))) &&
      (h == GetApprovedCourseReviews && id.Some? ==>
        (r.code == 200 <==> id.value in courses && courses[id.value].status == Approved) &&
        (r.code == 200 ==>
          r.body.Reviews? &&
          Listing.Exactly(r.body.reviews, reviews, CourseController.ApprovedFor(id.value), ReviewModel.Full))) &&
      ((h == GetCourseById || h == GetApprovedCourseReviews) && id.None? ==> r == CastFailure)
  {
  }

  /** The verdict a decision handler takes. */
  function VerdictOf(h: Handler): Verdict {
    if h == ApproveTeacher || h == ApproveCourse || h == ApproveReview then Approve else Reject
  }

  predicate DecidesTeacher(h: Handler) { h == ApproveTeacher || h == RejectTeacher }
  predicate DecidesCourse(h: Handler) { h == ApproveCourse || h == RejectCourse }
  predicate DecidesReview(h: Handler) { h == ApproveReview || h == RejectReview }

  /** The handlers that read an identifier from the path and throw when it
      does not cast. */
  predicate NeedsId(h: Handler) { DecidesTeacher(h) || DecidesCourse(h) || DecidesReview(h) || h == JoinCourse }

  /** The decision handlers are the admin routes' approve and reject handlers
      of their entity, with the verdict `VerdictOf` names. */
  lemma DecisionHandlers(h: Handler)
    ensures DecidesTeacher(h) <==> h == AdminHandler(Entity.Teachers, Some(VerdictOf(h)))
    ensures DecidesCourse(h) <==> h == AdminHandler(Entity.Courses, Some(VerdictOf(h)))
    ensures DecidesReview(h) <==> h == AdminHandler(Entity.Reviews, Some(VerdictOf(h)))
  {
  }

  /** What deciding on a teacher does: 200 exactly for a pending teacher,
      whose status alone moves to the verdict's target; otherwise nothing
      changes. */
  ghost predicate TeacherDecided(v: Verdict, id: Id, u: map<Id, User>, u': map<Id, User>, r: Response) {
    (r.code == 200 <==> id in u && u[id].role == Teacher && u[id].status == Pending) &&
    (r.code == 200 ==> u' == u[id := u[id].(status := Target(v))]) &&
    (r.code != 200 ==> u' == u)
  }

  /** What deciding on a course does, by the same rule. */
  ghost predicate CourseDecided(v: Verdict, id: Id, k: map<Id, Course>, k': map<Id, Course>, r: Response) {
    (r.code == 200 <==> id in k && k[id].status == Pending) &&
    (r.code == 200 ==> k' == k[id := k[id].(status := Target(v))]) &&
    (r.code != 200 ==> k' == k)
  }

  /** What deciding on a review does, by the same rule. */
  ghost predicate ReviewDecided(v: Verdict, id: Id, w: map<Id, Review>, w': map<Id, Review>, r: Response) {
    (r.code == 200 <==> id in w && w[id].status == Pending) &&
    (r.code == 200 ==> w' == w[id := w[id].(status := Target(v))]) &&
    (r.code != 200 ==> w' == w)
  }

  /** What course creation does: 201 exactly when both text fields are
      given, storing the caller's pending course under the clock, which then
      advances; otherwise neither the courses nor the clock change. */
  ghost predicate CourseCreated(form: Form, caller: Id, clock: nat, clock': nat, k: map<Id, Course>,
                                k': map<Id, Course>, r: Response) {
    (r.code == 201 <==> form.title != "" && form.description != "") &&
    (r.code == 201 ==>
      k' == k[clock := CourseModel.Create(form.title, form.description, caller, Some(Pending), clock)] &&
      clock' == clock + 1) &&
    (r.code != 201 ==> k' == k && clock' == clock)
  }

  /** What joining does: 200 exactly for an approved course the caller is not
      on, whose roster then gains the caller; otherwise the courses do not
      change. */
  ghost predicate Joined(caller: Id, id: Id, k: map<Id, Course>, k': map<Id, Course>, r: Response) {
    (r.code == 200 <==> id in k && k[id].status == Approved && caller !in k[id].students) &&
    (r.code == 200 ==> k' == k[id := k[id].(students := k[id].students + [caller])]) &&
    (r.code != 200 ==> k' == k)
  }

  /** What review submission does: 201 exactly when a comment is given and
      the path names an approved course the caller is on and has not yet
      reviewed; then the caller's pending review is stored under the clock,
      which advances. Otherwise neither the reviews nor the clock change. */
  ghost predicate ReviewCreated(form: Form, caller: Id, id: Option<Id>, k: map<Id, Course>, clock: nat, clock': nat,
                                w: map<Id, Review>, w': map<Id, Review>, r: Response) {
    (r.code == 201 <==>
      form.comment != "" && id.Some? && ReviewController.Open(k, id.value) &&
      ReviewController.Enrolled(k, id.value, caller) && !ReviewController.HasReview(w, caller, id.value)) &&
    (r.code == 201 ==>
      id.Some? && w' == w[clock := ReviewModel.Create(form.comment, caller, id.value, Some(Pending), clock)] &&
      clock' == clock + 1) &&
    (r.code != 201 ==> w' == w && clock' == clock)
  }

  /** The four fields of the store at one moment. */
  datatype Snapshot = Snapshot(users: map<Id, User>, courses: map<Id, Course>, reviews: map<Id, Review>, clock: nat)

  /** What a decision handler does to the record `id` of its entity, with
      its verdict, and that it touches nothing else. */
  ghost predicate Decided(h: Handler, id: Id, s: Snapshot, s': Snapshot, r: Response) {
    if DecidesTeacher(h) then
      s'.courses == s.courses && s'.reviews == s.reviews && s'.clock == s.clock &&
      TeacherDecided(VerdictOf(h), id, s.users, s'.users, r)
    else if DecidesCourse(h) then
      s'.users == s.users && s'.reviews == s.reviews && s'.clock == s.clock &&
      s'.courses.Keys == s.courses.Keys &&
      CourseDecided(VerdictOf(h), id, s.courses, s'.courses, r)
    else
      DecidesReview(h) && s'.users == s.users && s'.courses == s.courses && s'.clock == s.clock &&
      ReviewDecided(VerdictOf(h), id, s.reviews, s'.reviews, r)
  }

  /** What course creation, joining and review submission do. */
  ghost predicate Written(h: Handler, caller: Id, id: Option<Id>, form: Form, s: Snapshot, s': Snapshot, r: Response) {
    if h == CreateCourse then
      s'.users == s.users && s'.reviews == s.reviews &&
      CourseCreated(form, caller, s.clock, s'.clock, s.courses, s'.courses, r)
    else if h == JoinCourse then
      id.Some? && s'.users == s.users && s'.reviews == s.reviews && s'.clock == s.clock &&
      s'.courses.Keys == s.courses.Keys &&
      Joined(caller, id.value, s.courses, s'.courses, r)
    else
      h == CreateReview && s'.users == s.users && s'.courses == s.courses &&
      ReviewCreated(form, caller, id, s.courses, s.clock, s'.clock, s.reviews, s'.reviews, r)
  }

  /** What running handler `h` for `caller`, with the path's identifier `id`
      and the body `form`, does to the store `s` (leaving `s'`) and answers.
      A read-only handler answers its controller query and changes nothing;
      one that needs an identifier the path did not cast throws and changes
      nothing; a decision handler decides the record the identifier names
      with the handler's verdict; the others write as `Written` states. */
  ghost predicate Effect(h: Handler, caller: Id, id: Option<Id>, form: Form, s: Snapshot, s': Snapshot, r: Response) {
    if ReadOnly(h) then
      r == Query(h, caller, id, s.users, s.courses, s.reviews) && s' == s
    else if NeedsId(h) && id.None? then
      r == CastFailure && s' == s
    else if DecidesTeacher(h) || DecidesCourse(h) || DecidesReview(h) then
      id.Some? && Decided(h, id.value, s, s', r)
    else
      Written(h, caller, id, form, s, s', r)
  }

  /** An approve or reject handler on the record `id` names. */
  method Decide(db: Database, h: Handler, id: Id) returns (r: Response)
    requires db.Valid() && (DecidesTeacher(h) || DecidesCourse(h) || DecidesReview(h))
    modifies db
    ensures db.Valid() && Decided(h, id, old(Snapshot(db.users, db.courses, db.reviews, db.clock)), Snapshot(db.users, db.courses, db.reviews, db.clock), r)
  {
    if DecidesTeacher(h) {
      r := AdminController.DecideTeacher(db, id, VerdictOf(h));
    } else if DecidesCourse(h) {
      r := AdminController.DecideCourse(db, id, VerdictOf(h));
    } else {
      r := AdminController.DecideReview(db, id, VerdictOf(h));
    }
  }

  /** Course creation, joining and review submission. */
  method Write(db: Database, h: Handler, caller: Id, id: Option<Id>, form: Form) returns (r: Response)
    requires db.Valid() && (h == CreateCourse || h == JoinCourse || h == CreateReview)
    requires h == JoinCourse ==> id.Some?
    modifies db
    ensures db.Valid() && Written(h, caller, id, form, old(Snapshot(db.users, db.courses, db.reviews, db.clock)), Snapshot(db.users, db.courses, db.reviews, db.clock), r)
  {
    if h == CreateCourse {
      r := CourseController.CreateCourse(db, caller, form.title, form.description);
    } else if h == JoinCourse {
      r := CourseController.JoinCourse(db, caller, id.value);
    } else if form.comment != "" && id.None? {
      // The comment is checked before the course is looked up.
      r := CastFailure;
    } else {
      var target := if id.Some? then id.value else 0;
      r := ReviewController.CreateReview(db, caller, target, form.comment);
    }
  }

  /** Runs a handler for the account `caller` with the identifier the path
      carried (none when it did not cast), with the effect `Effect` states. */
  method Handle(db: Database, h: Handler, caller: Id, id: Option<Id>, form: Form) returns (r: Response)
    requires db.Valid()
    modifies db
    ensures db.Valid() && Effect(h, caller, id, form, old(Snapshot(db.users, db.courses, db.reviews, db.clock)), Snapshot(db.users, db.courses, db.reviews, db.clock), r)
  {
    if ReadOnly(h) {
      r := Query(h, caller, id, db.users, db.courses, db.reviews);
    } else if NeedsId(h) && id.None? {
      r := CastFailure;
    } else if DecidesTeacher(h) || DecidesCourse(h) || DecidesReview(h) {
      r := Decide(db, h, id.value);
    } else {
      r := Write(db, h, caller, id, form);
    }
  }

  /** Only course creation adds or removes a course, and a read-only
      handler leaves the store as it was. */
  lemma EffectFrames(h: Handler, caller: Id, id: Option<Id>, form: Form, s: Snapshot, s': Snapshot, r: Response)
    requires Effect(h, caller, id, form, s, s', r)
    ensures ReadOnly(h) ==> s' == s
    ensures s'.courses.Keys != s.courses.Keys ==> h == CreateCourse
  {
  }

  /** A refused course creation, join or review submission leaves the store
      as it was. */
  lemma RefusedWriteChangesNothing(h: Handler, caller: Id, id: Option<Id>, form: Form, s: Snapshot, s': Snapshot,
                                   r: Response)
    requires Written(h, caller, id, form, s, s', r)
    requires h == JoinCourse ==> r.code != 200
    requires h != JoinCourse ==> r.code != 201
    ensures s' == s
  {
  }

  /** A decision handler (whose effect, as `Effect` gives it, is `Decided`)
      that answers 200 leaves the record it names with the status its name
      promises: approved for the approve handlers, rejected for the reject
      handlers. An answer other than 200 decides nothing. */
  lemma DecisionOutcome(h: Handler, id: Id, s: Snapshot, s': Snapshot, r: Response)
    requires Decided(h, id, s, s', r)
    ensures DecidesTeacher(h) && r.code == 200 ==>
      id in s'.users && s'.users[id].status == (if h == ApproveTeacher then Approved else Rejected)
    ensures DecidesCourse(h) && r.code == 200 ==>
      id in s'.courses && s'.courses[id].status == (if h == ApproveCourse then Approved else Rejected)
    ensures DecidesReview(h) && r.code == 200 ==>
      id in s'.reviews && s'.reviews[id].status == (if h == ApproveReview then Approved else Rejected)
    ensures (DecidesTeacher(h) || DecidesCourse(h) || DecidesReview(h)) && r.code != 200 ==> s' == s
  {
    if DecidesTeacher(h) {
      assert TeacherDecided(VerdictOf(h), id, s.users, s'.users, r);
    } else if DecidesCourse(h) {
      assert CourseDecided(VerdictOf(h), id, s.courses, s'.courses, r);
    } else if DecidesReview(h) {
      assert ReviewDecided(VerdictOf(h), id, s.reviews, s'.reviews, r);
    }
  }

  /** What each mount's guards let through: on the admin API only an admin,
      on the course API course creation only for an approved teacher, on the
      review API only the own review list; a call always carries its user. */
  lemma MountGuards(m: Mount, verb: Verb, path: seq<Segment>, header: Option<string>, users: map<Id, User>,
                    c: Primitives)
    ensures var p := Resolve(RouterOf(m), verb, path, header, users, c);
      var a := Authenticate(header, users, c);
      (p.Call? ==> p.user.Some?) &&
      (m == AdminApi && !AdminCaller(header, users, c) ==>
        p.Answer? && (p.response.code == 401 || p.response.code == 403)) &&
      (m == CourseApi && p.Call? && p.handler == CreateCourse ==>
        a.Authenticated? && a.user.fields.role == Teacher && a.user.fields.status == Approved) &&
      (m == ReviewApi && p.Call? ==> p.handler == GetMyReviews)
  {
    if m == AdminApi {
      AdminAccess(verb, path, header, users, c);
    } else if m == CourseApi {
      CourseAccess(verb, path, header, users, c);
    } else {
      ReviewAccess(verb, path, header, users, c);
    }
  }

  /** The identifier a path parameter casts to, if any. */
  function IdOf(arg: Option<Segment>): Option<Id> {
    if arg.Some? && arg.value.ObjectId? then Some(arg.value.id) else None
  }

  /** A request the router answers itself changes nothing and gets that
      answer. On the admin API a caller who is not an admin gets 401 or 403
      and changes nothing, so no approval decision is taken; on the course API
      only an approved teacher can create a course, and the review API only
      reads. A request that reaches a handler has the effect `Effect` states
      for that handler, its user and the identifier its path casts to. */
  method Dispatch(db: Database, c: Primitives, m: Mount, verb: Verb, path: seq<Segment>,
                  header: Option<string>, form: Form) returns (r: Response)
    requires db.Valid()
    modifies db
    ensures db.Valid()
    ensures var p := Resolve(RouterOf(m), verb, path, header, old(db.users), c);
      p.Answer? ==> r == p.response && unchanged(db)
    ensures m == AdminApi && !AdminCaller(header, old(db.users), c) ==>
      (r.code == 401 || r.code == 403) && unchanged(db)
    ensures m == CourseApi && db.courses.Keys != old(db.courses).Keys ==>
      var a := Authenticate(header, old(db.users), c);
      a.Authenticated? && a.user.fields.role == Teacher && a.user.fields.status == Approved
    ensures m == ReviewApi ==> Snapshot(db.users, db.courses, db.reviews, db.clock) == old(Snapshot(db.users, db.courses, db.reviews, db.clock))
    ensures var p := Resolve(RouterOf(m), verb, path, header, old(db.users), c);
      p.Call? ==>
        p.user.Some? && Effect(p.handler, p.user.value.id, IdOf(p.arg), form, old(Snapshot(db.users, db.courses, db.reviews, db.clock)), Snapshot(db.users, db.courses, db.reviews, db.clock), r)
  {
    var plan := Resolve(RouterOf(m), verb, path, header, db.users, c);
    MountGuards(m, verb, path, header, db.users, c);
    if plan.Answer? {
      return plan.response;
    }
    var id := IdOf(plan.arg);
    ghost var s := Snapshot(db.users, db.courses, db.reviews, db.clock);
    r := Handle(db, plan.handler, plan.user.value.id, id, form);
    ghost var s' := Snapshot(db.users, db.courses, db.reviews, db.clock);
    EffectFrames(plan.handler, plan.user.value.id, id, form, s, s', r);
  }
}
