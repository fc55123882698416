# Approval and access in the codeon LMS backend

This project models the approval-and-access logic of the codeon learning
platform's Express/Mongoose backend. It proves properties of that model.

In the system, three roles hold accounts: admins, teachers and students.
- Teachers register into a `pending` state and cannot log in until an admin
  approves them.
- An approved teacher creates courses, which wait `pending` until an admin
  approves them.
- Students join approved courses and review them. Each review also waits for
  approval before it is shown.
- Every request but registration and login carries a bearer token. The token
  is checked by the `protect` middleware and then by role checks.
- The front end has a route gate that decides what a guarded page shows.

The model keeps the three MongoDB collections as maps from identifier to
record, inside one `Store.Database` object.
- A single counter, `clock`, hands out both the identifiers and the
  `createdAt` stamps, so "newest first" is a sort on that counter.
- `Database.Valid()` is the invariant every handler keeps:
  - identifiers and stamps come from before the clock;
  - required text fields are not empty;
  - e-mails are lower-cased and unique;
  - only teachers are ever anything but approved;
  - a roster holds no student twice;
  - there is one review per (student, course) pair;
  - every reviewer is on the roster of the course they reviewed.

Modules:
- `Approval`: the shared status and its transition rule. `Replay` follows a
  series of verdicts. Its own contract says only that the result is the
  starting status, approved or rejected; the lemmas about it say the rest.
- `UserModel`, `CourseModel`, `ReviewModel`: the schemas, with their
  defaults, the pre-save hook and the projections `select` applies.
- `Listing`: the query shapes `find`, `find().sort({createdAt: -1})` and
  `countDocuments`, proved to return exactly the matching documents. The
  sorted query returns them newest first, as the source promises; the
  unsorted ones return them in the order the model picks, ascending
  identifier.
- `AdminController`, `CourseController`, `ReviewController`,
  `AuthController`, `UserController`: the handlers.
  - Handlers that write are methods that modify the database. Each states the
    answer code of every branch, the new state and what stays unchanged.
  - Queries are functions.
- `AuthMiddleware`:
  - `protect` on its own, as `Authenticate`, and on a request object, as
    `ProtectRequest`;
  - the role checks;
  - `Run`, which runs a middleware chain.
- `Routes`: the course, review and admin route tables, with `Resolve`, which
  matches them in registration order.
- `Server`: the three mounted APIs, from path to handler. `Effect` states,
  handler by handler, the answer and the new state: the controller query a
  read-only handler answers, the verdict a decision handler applies, and what
  creation, joining and review submission store.
- `ProtectedRoute`: the front-end gate.
- `Walkthrough`: the end-to-end approval scenario, on a fresh database.
  - A teacher is refused at login (403) until approved.
  - The teacher's course is absent from the catalogue until approved.
  - A student joins the course.
  - The student's review is hidden until approved.

Foreign code and the environment become parameters.
- bcrypt and jsonwebtoken are the `Crypto.Primitives` function values: `hash`,
  `matches`, `sign` and `verify`.
- `Crypto.Sound` states the three promises the backend relies on:
  - a hash matches its own password;
  - a signed token verifies to its id;
  - a token holds no space.
- `Date.now` is replaced by the store's clock.
- The request header, the path segments and the body fields are arguments.

The admin pending queues are queried without a sort; the model lists them
ascending by identifier (see "Left out"). Tokens carry an expiry, but expiry
is not part of `verify`'s model.

## Model

| member | source | states |
|---|---|---|
| Common.LowerChar | backend/models/User.js:6 | An upper-case ASCII letter becomes a lower-case one; every other character is kept. |
| Common.Lower | backend/models/User.js:6 | Lower-casing keeps the length, maps each character through the ASCII case map, and yields a string with no upper-case letter. |
| Common.LowerOfLower | backend/models/User.js:6 | A stored, already lower-cased e-mail is unchanged by lower-casing again, so a query finds it. |
| Listing.LeastBelow | backend/controllers/adminController.js:27 | Support for `Least`, not a property of the query: the well-ordering of the naturals, so any set of naturals with a member has a least member. |
| Listing.LeastExists | backend/controllers/adminController.js:27 | Support for `Least`, not a property of the query: a non-empty set of naturals has a least member. |
| Listing.Least | backend/controllers/adminController.js:27 | The least identifier of a non-empty set: a member no larger than any other. |
| Listing.Insert | backend/controllers/courseController.js:48 | Placing a document into a newest-first listing adds exactly that document, keeps the listing free of repeats and keeps it newest first. |
| Listing.Scan | backend/controllers/adminController.js:27 | The identifiers whose documents pass a filter, each exactly once, in strictly increasing order of identifier (the order the model picks for an unsorted `find`). |
| Listing.Sorted | backend/controllers/courseController.js:48 | The identifiers whose documents pass a filter, without repeats, ordered so that no document comes after a strictly newer one. |
| Listing.Count | backend/controllers/adminController.js:13-14 | `countDocuments` equals the size of the set of matching documents. |
| Listing.Find | backend/controllers/adminController.js:27-28 | `find(filter).select(view)` lists every matching document exactly once, projected, and nothing else, in ascending order of identifier (the model's choice for an unsorted `find`). |
| Listing.FindNewestFirst | backend/controllers/courseController.js:60-63 | `find(filter).select(view).sort({createdAt: -1})` lists exactly the matching documents, projected, newest first. |
| Listing.Project | backend/controllers/adminController.js:28 | `select` projects each listed document in place, keeping the order and the identifiers. |
| Listing.ExactlyListsIff | backend/controllers/courseController.js:60-63 | A listing holding exactly the matches mentions an identifier if and only if that document is stored and passes the filter. |
| Approval.Target | backend/controllers/adminController.js:40 | A verdict moves a record out of pending: approve to approved, reject to rejected. |
| Approval.Decide | backend/controllers/adminController.js:39-55 | An admin action is accepted if and only if the record is pending, and then yields the verdict's target. |
| Approval.Replay | backend/controllers/adminController.js:39-55 | Following any series of admin actions, a status either stays as it was or ends approved or rejected. |
| Approval.TerminalStaysPut | backend/controllers/adminController.js:49-51 | From approved or rejected, no series of admin actions changes the status. |
| Approval.FirstVerdictWins | backend/controllers/adminController.js:105-107 | On a pending record, only the first of any series of verdicts decides the final status. |
| UserModel.DefaultStatus | backend/models/User.js:16 | The default status is pending exactly for teachers, and never rejected. |
| UserModel.PreSave | backend/models/User.js:22-27 | Saving replaces a modified password by its hash, keeps an unmodified one, and changes no other field. |
| UserModel.Create | backend/models/User.js:4-19 | A created account has the given name and role, the lower-cased e-mail, the hashed password, the given status or the role's default, and the creation stamp. |
| UserModel.MatchPassword | backend/models/User.js:30-32 | With sound primitives, `matchPassword` accepts the password whose hash the account stores. |
| UserModel.CreatedAccountMatches | backend/models/User.js:30-32 | `matchPassword` accepts the password an account was created with. |
| UserModel.WithoutPassword | backend/middleware/authMiddleware.js:29 | `select('-password')` keeps every field but the password. |
| UserModel.ProfileOf | backend/controllers/userController.js:28-35 | The answer profile carries the name, e-mail, role and status, and no password. |
| CourseModel.Create | backend/models/Course.js:3-15 | A created course has the given title, description and teacher, an empty roster, the given status or pending, and the creation stamp. |
| ReviewModel.Create | backend/models/Review.js:3-14 | A created review has the given comment, student and course, the given status or pending, and the creation stamp. |
| Http.Fail | backend/middleware/errorMiddleware.js:6-12 | An error thrown after `res.status(code)` is answered with that code and `{ message }`. |
| Http.UnsetErrorRendersAsSuccess | backend/middleware/errorMiddleware.js:4 | As written, an error thrown before any status is set is rendered with status 200. |
| Http.ErrorStatus | backend/middleware/errorMiddleware.js:4 | The corrected choice: an error status a handler set is kept, anything else becomes 500, and no error renders as a 2xx. |
| Http.ErrorStatusAsWritten | backend/middleware/errorMiddleware.js:4 | The error handler's status as written: whatever status the response already holds is kept, and the answer always has a status. |
| Http.Unhandled | backend/middleware/errorMiddleware.js:2-13 | The corrected rendering: an error without a status set by a handler is answered with 500 and its message. |
| Store.Database.constructor | backend/models/User.js:6 | The empty stores satisfy every store invariant, the unique e-mail index among them. |
| Store.AddAccount | backend/controllers/authController.js:30-36 | Storing a fresh account under the clock keeps every account invariant, provided its e-mail is lower-cased and untaken, its fields are filled in, and only a teacher waits; the clock advances past it. |
| Store.ReplaceAccount | backend/controllers/userController.js:22-27 | Saving a changed account keeps the account invariants, provided it keeps its stamp, its fields are filled in, its lower-cased e-mail is held by no other account, and only a teacher waits. |
| Store.AddCourse | backend/controllers/courseController.js:26-31 | Storing a fresh course with an empty roster under the clock keeps the store invariants. |
| Store.ReplaceCourse | backend/controllers/courseController.js:104-105 | Saving a changed course keeps the invariants when its roster has no repeats and keeps every enrolled student, so no review loses its author's enrolment. |
| Store.AddReview | backend/controllers/reviewController.js:44-49 | Storing a fresh review keeps one review per pair and every reviewer enrolled, provided its author is on the roster and has not reviewed that course yet. |
| Store.ReplaceReview | backend/controllers/adminController.js:151-153 | Saving a review with the same author, course and stamp keeps the invariants. |
| AdminController.GetStats | backend/controllers/adminController.js:11-20 | The totals are the numbers of approved students and of approved teachers. |
| AdminController.PendingTeachers | backend/controllers/adminController.js:25-30 | Exactly the pending teacher accounts, with name, e-mail and creation time, in the order `Listing.Find` picks. |
| AdminController.PendingCourses | backend/controllers/adminController.js:88-93 | Exactly the pending courses, in the order `Listing.Find` picks. |
| AdminController.PendingReviews | backend/controllers/adminController.js:137-143 | Exactly the pending reviews, in the order `Listing.Find` picks. |
| AdminController.DecideTeacher | backend/controllers/adminController.js:34-82 | 200 if and only if the id is a pending teacher, and then only that account's status changes, to the verdict's target. 400 if and only if the account exists and is not pending. Otherwise 404. A refusal changes nothing, and the status follows `Replay`. |
| AdminController.DecideCourse | backend/controllers/adminController.js:97-131 | 200, 400 and 404 exactly for a pending, a non-pending and a missing course. Success changes only that course's status; the roster and other fields are kept. Refusals change nothing. |
| AdminController.DecideReview | backend/controllers/adminController.js:147-181 | The same rule for reviews: only the one review's status changes, and only from pending. |
| AdminController.DecideCourseTwice | backend/controllers/adminController.js:105-107 | After a successful verdict, a second verdict on the same course, of either kind, gets 400. The course's status becomes the replay of both verdicts and nothing else changes: not its other fields, not the other courses, users, reviews or the clock. A missing course leaves the store unchanged. |
| CourseController.CreateCourse | backend/controllers/courseController.js:15-39 | An empty title or description gets 400 and creates nothing. Otherwise the caller's pending course, with an empty roster, is stored under a fresh identifier (201), and nothing else changes. |
| CourseController.MyCourses | backend/controllers/courseController.js:46-50 | Exactly the caller's courses, in any status, newest first. |
| CourseController.ApprovedCourses | backend/controllers/courseController.js:57-65 | Exactly the approved courses, without rosters, newest first. |
| CourseController.CourseById | backend/controllers/courseController.js:70-80 | 200 with the course if and only if it exists and is approved; 404 otherwise. |
| CourseController.JoinCourse | backend/controllers/courseController.js:87-108 | 404 if and only if the course is missing or not approved. 400 if and only if the caller is already enrolled. Otherwise the roster becomes the old roster plus the caller. Only success changes anything, and rosters stay free of duplicates. |
| CourseController.ApprovedCourseReviews | backend/controllers/courseController.js:115-131 | 404 unless the course is approved; otherwise exactly that course's approved reviews, newest first. |
| ReviewController.CreateReview | backend/controllers/reviewController.js:14-57 | In order, the first failing check decides: empty comment 400, course missing or unapproved 404, caller not enrolled 403, an existing review for the pair in any status 400. 201 if and only if all pass, storing one pending review. Failures create nothing, and one review per pair is kept. |
| ReviewController.MyReviews | backend/controllers/reviewController.js:64-71 | Exactly the caller's reviews, in any status, newest first, with comment, status, time and course. |
| AuthController.FindByEmail | backend/controllers/authController.js:23 | Finds the first account whose stored e-mail is the lower-cased query, or reports that none has it. |
| AuthController.RegisterStudent | backend/controllers/authController.js:12-52 | An empty field gets 400, and so does an e-mail already taken; neither creates anything. 201 if and only if neither applies: an approved student is stored under a fresh identifier, and the answer carries a token for it. |
| AuthController.RegisterTeacher | backend/controllers/authController.js:57-97 | The same checks; on 201 a pending teacher is stored and the answer carries no token. |
| AuthController.RegistrationUsesDefaults | backend/controllers/authController.js:30-46 | The statuses the registrations pass explicitly, approved for students and pending for teachers, are the schema's defaults. |
| AuthController.Login | backend/controllers/authController.js:104-139 | A missing field gets 400. Bad credentials get 401, whatever the status. 403 if and only if the credentials are right and the account is an unapproved teacher. 200 otherwise, with that account's profile and a token for its id. |
| AuthController.GetMe | backend/controllers/authController.js:146-154 | The attached account with 200, or 404 when none is attached. |
| UserController.Patched | backend/controllers/userController.js:22-24 | Name, e-mail (lower-cased) and password change only when supplied non-empty. The password is hashed only when it differs. Role, status and creation time never change. |
| UserController.NameOnlyKeepsCredentials | backend/controllers/userController.js:22-24 | A name-only update keeps the e-mail and the stored hash. |
| UserController.EmptyPatchIsIdentity | backend/controllers/userController.js:22-24 | An update with no fields leaves the account as it was. |
| UserController.NewPasswordMatches | backend/models/User.js:22-27 | After a password change, the account accepts the new password. |
| UserController.UpdateUserProfile | backend/controllers/userController.js:13-36 | An unknown caller gets 404. An e-mail held by another account fails the unique index. Otherwise only the caller's account changes, to the patched account, and the answer carries no password. No failure changes anything. |
| AuthMiddleware.FirstField | backend/middleware/authMiddleware.js:20 | The prefix of the text up to its first space. |
| AuthMiddleware.FirstFieldOfWord | backend/middleware/authMiddleware.js:20 | A text without spaces is its own first field. |
| AuthMiddleware.BearerToken | backend/middleware/authMiddleware.js:14-20 | No token if and only if the header is absent or lacks the "Bearer " prefix; otherwise the field after the first space. |
| AuthMiddleware.Authenticate | backend/middleware/authMiddleware.js:13-37 | 401 when there is no token, the token fails to verify, or its id names no account. It succeeds if and only if none of these holds, and attaches that account without its password. |
| AuthMiddleware.Request.constructor | backend/middleware/authMiddleware.js:35 | A request starts with no attached account. |
| AuthMiddleware.ProtectRequest | backend/middleware/authMiddleware.js:13-37 | `protect` on a request gives `Authenticate`'s result. On success `req.user` is the account; on failure `req.user` is untouched. No store is modified. |
| AuthMiddleware.SignedTokenAuthenticates | backend/middleware/authMiddleware.js:20-35 | "Bearer " followed by a token signed for an existing account authenticates as exactly that account. |
| AuthMiddleware.Permits | backend/middleware/authMiddleware.js:40-73 | isAdmin, isTeacher and isStudent pass exactly for their role. isApprovedTeacher passes exactly for an approved teacher. |
| AuthMiddleware.Run | backend/middleware/authMiddleware.js:13-73 | A middleware chain that stops answers 401, 403 or 500. One that reaches the handler has an account attached whenever one was attached before or the chain contains `protect`. |
| AuthMiddleware.RoleChecks | backend/middleware/authMiddleware.js:40-73 | A sequence of role checks reaches the handler, with the account unchanged, if and only if every check permits; otherwise it stops with 403. |
| AuthMiddleware.ProtectedChain | backend/middleware/authMiddleware.js:13-73 | `protect` followed by role checks reaches the handler if and only if the request authenticates and every check permits. A failed authentication gives its 401; a refused check gives 403. |
| Routes.CourseRoutes | backend/routes/courseRoutes.js:23-44 | The seven course routes each begin with `protect` and run no second `protect`. |
| Routes.ReviewRoutes | backend/routes/reviewRoutes.js:8 | The review router's one route runs `protect` then `isStudent` and names the own-review listing. |
| Routes.AdminRoutes | backend/routes/adminRoutes.js:26-41 | The ten admin routes carry no middleware of their own; their guards are the router-wide ones. |
| Routes.Resolve | backend/routes/adminRoutes.js:20-41 | A called handler is the one of the first route that serves the request, given that route's path parameter. Once the router-wide middleware passes, a request no route serves gets 404. A request the router answers itself gets 401, 403, 404 or 500, never a success. |
| Routes.LookupFrom | backend/routes/courseRoutes.js:23-44 | The first route from a position on that serves the request, or none when none does. |
| Routes.Lookup | backend/routes/courseRoutes.js:23-44 | The first route in registration order that serves the request. |
| Routes.LookupIsFirst | backend/routes/courseRoutes.js:23-44 | A serving route with no serving route before it is the one the lookup selects. |
| Routes.FirstParam | backend/routes/courseRoutes.js:32-44 | The path segment at the pattern's parameter, none if and only if the pattern has no parameter. |
| Routes.SecondParam | backend/routes/adminRoutes.js:30 | In a pattern of one literal followed by a parameter, the parameter is the second segment. |
| Routes.OneCheck | backend/routes/courseRoutes.js:26-41 | The checks of a one-check chain all permit an account exactly when that check does. |
| Routes.TwoChecks | backend/routes/courseRoutes.js:26 | The checks of a two-check chain all permit an account exactly when both do. |
| Routes.CourseChainShape | backend/routes/courseRoutes.js:23-44 | Every course route's chain is `protect` followed by role checks that permit exactly the accounts its handler allows. |
| Routes.ReviewAccess | backend/routes/reviewRoutes.js:8 | GET /my reaches the own-review listing if and only if the request authenticates as a student, with that account as the user. A failed authentication gets `protect`'s answer, another role 403 "Student access required", and any other path 404. |
| Routes.CourseAccess | backend/routes/courseRoutes.js:23-44 | A served course request reaches its handler if and only if it authenticates and the handler allows the account. A failed authentication gets 401. An unserved path gets 404. |
| Routes.AdminAccess | backend/routes/adminRoutes.js:20-21 | A handler is called if and only if the caller is an admin and a route serves the request. A non-admin gets 403 and an unauthenticated caller 401, whatever the path. |
| Routes.MyBeforeId | backend/routes/courseRoutes.js:29-32 | "my", in any case, reaches getMyCourses although `/:id` would match it; an identifier reaches getCourseById. |
| Routes.StatsRoute | backend/routes/adminRoutes.js:26 | GET /stats reaches getStats. |
| Routes.AdminRouteShape | backend/routes/adminRoutes.js:29-41 | Each entity's three admin routes, in order: GET /<entity>/pending, then PUT /<entity>/:id/approve and /reject, with the handler each names. |
| Routes.EarlierEntitiesRefuse | backend/routes/adminRoutes.js:29-41 | No route of an earlier entity serves a path that starts with another entity's word. |
| Routes.DecisionIsFirst | backend/routes/adminRoutes.js:30-41 | A decision path is served by its decision route and by no route registered before it. |
| Routes.PendingRoute | backend/routes/adminRoutes.js:29-39 | GET /teachers/pending, /courses/pending and /reviews/pending each reach their entity's pending listing. |
| Routes.DecisionRoute | backend/routes/adminRoutes.js:30-41 | PUT /<entity>/:id/approve and /reject reach the matching decision, with the identifier as the parameter. |
| ProtectedRoute.Gate | frontend/src/components/routing/ProtectedRoute.js:7-43 | Loading shows the spinner, whatever else holds. An unauthenticated visitor is redirected to /login with the location. A listed role set missing the user's role is denied. An unapproved teacher is denied when approval is required. Render if and only if every check passes. |
| ProtectedRoute.EmptyRolesDenyEveryone | frontend/src/components/routing/ProtectedRoute.js:23-30 | An empty role list denies every signed-in user. |
| ProtectedRoute.StudentPassesApprovalCheck | frontend/src/components/routing/ProtectedRoute.js:35-38 | The approval check admits a student, whom isApprovedTeacher refuses. |
| ProtectedRoute.CreatePageMatchesCreateRoute | backend/routes/courseRoutes.js:26 | The teacher-only, approval-required page admits an account if and only if the course-creation route does. |
| Server.DecisionHandlers | backend/routes/adminRoutes.js:30-41 | The handlers that decide a teacher, a course or a review are exactly the admin routes' approve and reject handlers for that entity, and each one's verdict is the one its route names. |
| Server.Decide | backend/routes/adminRoutes.js:30-41 | An approve or reject handler keeps the store invariants and acts as its controller does, with its own verdict: 200 exactly for a pending record of its entity, and then only that record's status changes, to the verdict's target. Anything else changes nothing, and the other collections and the clock stay as they were. |
| Server.Write | backend/routes/courseRoutes.js:23-44 | Course creation, joining and review submission keep the store invariants. Each acts as its controller does. A course gets 201 exactly when both text fields are given, and the caller's pending course is stored under the clock, which advances. A join gets 200 exactly when the course is approved and lacks the caller, who is appended to the roster. A review gets 201 exactly when a comment is given and the path names an approved course the caller is on and has not reviewed; the caller's pending review is stored under the clock, which advances. A refusal changes neither the collection nor the clock, and the other collections never change. |
| Server.RefusedWriteChangesNothing | backend/routes/courseRoutes.js:23-44 | A refused course creation, join or review submission leaves the whole store as it was. |
| Server.Handle | backend/routes/courseRoutes.js:23-44 | Every handler keeps the store invariants. A read-only handler answers its controller query on the store (stats, pending lists, catalogue, own courses, one course, its approved reviews, own reviews) and changes nothing. A handler needing an identifier the path did not cast throws and changes nothing. The other handlers act as `Server.Decide` and `Server.Write` state. |
| Server.EffectFrames | backend/routes/courseRoutes.js:23-44 | Under any handler's effect, a read-only handler leaves the store as it was, and only course creation adds or removes a course. |
| Server.QueryAnswers | backend/routes/adminRoutes.js:26-39 | Each read-only handler answers as its controller does. The stats handler counts the approved students and the approved teachers. Each pending handler lists exactly the pending teachers, courses or reviews. The catalogue lists exactly the approved courses, and the own-course and own-review handlers exactly the caller's records. One course, or its approved reviews, gets 200 exactly when it is approved. An identifier that did not cast throws. |
| Server.DecisionOutcome | backend/routes/adminRoutes.js:30-41 | Under a decision handler's effect, a 200 answer leaves its record approved if it is an approve handler and rejected if it is a reject handler. Any other answer changes nothing. |
| Server.MountGuards | backend/app.js:49-53 | On the admin API, only an admin reaches a handler; anyone else gets 401 or 403. On the course API, course creation is reached only by an approved teacher. On the review API, only the own review list is reached. A reached handler always has its user. |
| Server.Dispatch | backend/app.js:49-53 | A request the router answers itself changes nothing. On the admin API, a caller who is not an admin gets 401 or 403 and changes nothing, so no approval decision is taken. On the course API, only an approved teacher adds a course. The review API changes nothing. A request that reaches a handler has that handler's effect, for the authenticated user and the identifier its path casts to. |
| Walkthrough.SoleAccountLogin | backend/controllers/authController.js:104-139 | With one account, its credentials get 403 if it is an unapproved teacher and 200 otherwise. |
| Walkthrough.SignUpTeacher | backend/controllers/authController.js:119-124 | A newly registered teacher becomes the only account, pending, and the teacher's login is refused with 403. |
| Walkthrough.AdmitTeacher | backend/controllers/adminController.js:34-48 | Once an admin approves the pending teacher, only the status changes, and the same login gets 200. |
| Walkthrough.CreatePhase | backend/controllers/courseController.js:57-65 | A newly created course is pending and absent from the catalogue. |
| Walkthrough.PublishPhase | backend/controllers/adminController.js:97-112 | Once approved, the course is listed. |
| Walkthrough.SignUpStudent | backend/controllers/authController.js:12-52 | A student with an e-mail no account holds registers with 201. The approved student is stored as account 2, and courses and reviews are left alone. |
| Walkthrough.JoinPhase | backend/controllers/courseController.js:87-108 | The student joins the approved course with an empty roster (200), and becomes its whole roster. Users, reviews and the clock are unchanged. |
| Walkthrough.SubmitPhase | backend/controllers/reviewController.js:14-57 | The enrolled student's review is answered 201 and stored as record 3, pending. It is the only review, the users and courses are unchanged, and the course's listing does not show it. |
| Walkthrough.ApproveReviewPhase | backend/controllers/adminController.js:147-162 | Once an admin approves the pending review, only its status changes, to approved, and the course's listing shows it. |
| Walkthrough.Scenario | backend/controllers/authController.js:104-139 | On a fresh database, calling the auth, admin, course and review handlers directly (not through `Server.Dispatch`): the teacher's login gets 403 until approval and 200 after, the course is absent from the catalogue until approved, the student's join gets 200, and the review is hidden until approved. |

## Left out

- `populate` and the exact `select` mechanics: referenced teachers, students and courses stay identifiers, and one listed review carries its whole record.
- Concurrency: each handler is atomic. The check-then-act sequences in joinCourse and createReview are not raced, so the store invariants hold only under sequential execution.
- bcrypt and jsonwebtoken internals: salts, the cost factor, the secret and token expiry. Beyond `Crypto.Sound`, the primitives are uninterpreted.
- Wall-clock time: `Date.now` is replaced by the store's counter, a strictly increasing nat.
- Lower-casing beyond ASCII letters: `Common.Lower` maps only A-Z.
- Server bootstrap, the database connection, CORS, JSON body parsing, the `/api` health route and the process handlers in backend/app.js and backend/server.js: I/O plumbing.
- backend/controllers/studentController.js, backend/seed.js, Frontend/Js/admin.js, the React pages, AuthContext.js and api.js: not mounted, a one-off script, or UI code outside the backend's rules.
- backend/routes/authRoutes.js and userRoutes.js are not modelled as tables. Their guards appear in the handlers: `GetMe` takes the account `protect` attached, and `UpdateUserProfile` takes the caller's identifier. (backend/routes/reviewRoutes.js is modelled, as `Routes.ReviewRoutes`.)
- Express's default 404 page: a request no route serves is answered with `Routes.NoRoute`, whose body text is not Express's HTML.
- Trailing slashes and Express's strict-routing options: paths are sequences of segments.
- Mongoose validation beyond the required text fields and the unique e-mail index (enum casting and ObjectId casting of body fields).
- The "Invalid course data", "Invalid user data" and "Failed to submit review" branches: `create` returns a document or throws, so those 400 answers are unreachable in the model.
- `ProtectedRoute.Gate`: `isAuthenticated` is an input independent of `user`, as the auth context supplies it; the console warnings are not modelled.
- `AuthController.Login`: the 403 message's wording is written out (it names the status) but is not restated in the contract.
- The production/development `stack` field of error answers.
- Http.Unhandled, Server.CastFailure, UserController.UpdateUserProfile (its duplicate-key branch) and AuthMiddleware.Run (its missing-account branch) use the corrected error rendering, 500. As written, the program answers an error thrown with no status set with 200 (see "Findings").
- Listing.Find, AdminController.PendingTeachers, AdminController.PendingCourses and AdminController.PendingReviews list in ascending order of identifier. The source's `find` has no sort, and MongoDB leaves the natural order unspecified, so this order is the model's choice, not a promise of the source.

## Findings

| source | as written | input that shows it | evidently intended | confidence | as-written member | corrected member |
|---|---|---|---|---|---|---|
| backend/middleware/errorMiddleware.js:4 | The status is `res.statusCode`, and 500 only when that is unset. A Node response's status is 200 until a handler sets one, so the fallback never fires. | `PUT /api/courses/abc/join` with a valid student token: the CastError thrown by `findById('abc')` is rendered with status 200. The same happens to the E11000 duplicate-key error of a profile update to a taken e-mail. | An error no handler gave a status to is answered with 500. | not executed | Http.UnsetErrorRendersAsSuccess | Http.ErrorStatus |
