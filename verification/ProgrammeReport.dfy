/** The programme dataset DATASET_SQL (reports/provision_programme_dashboards.py). */
module ProgrammeReport {
  import opened Wrappers
  import opened Sql

  datatype Course = Course(id: int, fullname: string, shortname: string, category: Option<int>)
  datatype Category = Category(id: int, name: string)
  datatype RoleAssignment = RoleAssignment(userid: int, roleid: int, contextid: int)
  datatype Role = Role(id: int, shortname: string)
  datatype Context = Context(id: int, level: int, instanceid: int)
  datatype Enrol = Enrol(id: int, courseid: int)
  datatype UserEnrolment = UserEnrolment(userid: int, enrolid: int)
  datatype Completion = Completion(userid: int, course: int)
  datatype Submission = Submission(userid: int, assignment: int, submitted: bool, modified: int)
  datatype Assign = Assign(id: int, course: int, name: string, grade: real)
  datatype AssignGrade = AssignGrade(assignment: int, userid: int, grade: real)
  datatype Grade = Grade(userid: int, itemid: int, finalgrade: Option<real>, modified: int)
  /** `otherModule`: itemmodule is set and is not 'assign'. */
  datatype GradeItem = GradeItem(id: int, courseid: int, itemname: Option<string>, otherModule: bool, grademax: real)
  datatype ObservationUser = ObservationUser(userid: int, observationsid: int, created: int)
  datatype Observation = Observation(id: int, name: string)
  datatype User = User(id: int, openSchool: Option<int>)
  datatype School = School(id: int, name: string)

  /**
   * The text tests and expressions of the query, which nothing here depends on: `like` and `upperLike`
   * stand for LOWER(x) LIKE and UPPER(x) LIKE on a pattern between two wildcards.
   */
  datatype Text = Text(
    isProgramme: Course -> bool,
    like: (string, string) -> bool,
    upperLike: (string, string) -> bool,
    lastPart: string -> string)

  datatype Database = Database(
    text: Text, courses: seq<Course>, categories: seq<Category>, roleAssignments: seq<RoleAssignment>,
    roles: seq<Role>, contexts: seq<Context>, enrols: seq<Enrol>, userEnrolments: seq<UserEnrolment>,
    completions: seq<Completion>, submissions: seq<Submission>, assigns: seq<Assign>,
    assignGrades: seq<AssignGrade>, grades: seq<Grade>, gradeItems: seq<GradeItem>,
    observationUsers: seq<ObservationUser>, observations: seq<Observation>, users: seq<User>,
    schools: seq<School>)

  // ----- programme_courses -----

  datatype ProgrammeCourse = ProgrammeCourse(courseId: int, name: string, shortname: string, category: string)

  predicate CategoryOf(c: Course, cc: Category) { c.category == Some(cc.id) }

  function InProgramme(text: Text): ((Course, Option<Category>)) -> bool {
    (l: (Course, Option<Category>)) => l.0.id > 1 && text.isProgramme(l.0)
  }

  function AsProgramme(l: (Course, Option<Category>)): ProgrammeCourse {
    ProgrammeCourse(l.0.id, l.0.fullname, l.0.shortname, if l.1.Some? then l.1.value.name else "Uncategorised")
  }

  function ProgrammeCourses(db: Database): seq<ProgrammeCourse> {
    Project(AsProgramme, Select(InProgramme(db.text), LeftJoin(CategoryOf, db.courses, db.categories)))
  }

  // ----- participants -----

  datatype Member = Member(courseId: int, userId: int)

  predicate RoleOf(ra: RoleAssignment, r: Role) { r.id == ra.roleid }

  predicate ContextOf(l: (RoleAssignment, Role), ctx: Context) { ctx.id == l.0.contextid && ctx.level == 50 }

  predicate CourseOfContext(l: ((RoleAssignment, Role), Context), pc: ProgrammeCourse) { pc.courseId == l.1.instanceid }

  predicate ProgrammeRole(l: (((RoleAssignment, Role), Context), ProgrammeCourse)) {
    l.0.0.1.shortname in ["employee", "editingteacher", "trainer", "teacher"]
  }

  function AsParticipant(l: (((RoleAssignment, Role), Context), ProgrammeCourse)): Member {
    Member(l.0.1.instanceid, l.0.0.0.userid)
  }

  function Participants(db: Database): seq<Member> {
    Distinct(Project(AsParticipant, Select(ProgrammeRole,
      InnerJoin(CourseOfContext,
        InnerJoin(ContextOf, InnerJoin(RoleOf, db.roleAssignments, db.roles), db.contexts),
        ProgrammeCourses(db)))))
  }

  // ----- learners -----

  datatype Learners = Learners(courseId: int, count: nat)

  type Enrolment = ((Enrol, UserEnrolment), ProgrammeCourse)

  predicate EnrolmentOf(e: Enrol, ue: UserEnrolment) { ue.enrolid == e.id }

  predicate CourseOfEnrol(l: (Enrol, UserEnrolment), pc: ProgrammeCourse) { pc.courseId == l.0.courseid }

  function Enrolments(db: Database): seq<Enrolment> {
    InnerJoin(CourseOfEnrol, InnerJoin(EnrolmentOf, db.enrols, db.userEnrolments), ProgrammeCourses(db))
  }

  function EnrolledCourse(l: Enrolment): int { l.0.0.courseid }

  function EnrolledUser(l: Enrolment): int { l.0.1.userid }

  function CountLearners(courseId: int, group: seq<Enrolment>): Learners {
    Learners(courseId, CountDistinctValues(Project(EnrolledUser, group)))
  }

  function LearnersByCourse(db: Database): seq<Learners> {
    GroupBy(EnrolledCourse, CountLearners, Enrolments(db))
  }

  // ----- completions -----

  predicate CourseOfCompletion(cc: Completion, pc: ProgrammeCourse) { pc.courseId == cc.course }

  function AsCompleted(l: (Completion, ProgrammeCourse)): Member { Member(l.0.course, l.0.userid) }

  function CompletedMembers(db: Database): seq<Member> {
    Distinct(Project(AsCompleted, InnerJoin(CourseOfCompletion, db.completions, ProgrammeCourses(db))))
  }

  // ----- union_rows -----

  datatype Activity = Activity(
    userId: int, courseId: Option<int>, kind: string, name: Option<string>, concept: Option<string>,
    score: Option<real>, scoredOn: Option<int>)

  predicate AssignOf(s: Submission, a: Assign) { a.id == s.assignment }

  predicate CourseOfAssign(l: (Submission, Assign), pc: ProgrammeCourse) { pc.courseId == l.1.course }

  type Submitted = ((Submission, Assign), ProgrammeCourse)

  predicate GradeOf(l: Submitted, ag: AssignGrade) { ag.assignment == l.0.1.id && ag.userid == l.0.0.userid }

  predicate WasSubmitted(l: (Submitted, Option<AssignGrade>)) { l.0.0.0.submitted }

  function SubmissionKind(text: Text, name: string, pc: ProgrammeCourse): string {
    if text.like(name, "micro assessment") then "micro_assessment"
    else if text.like(name, "observation") then "classroom_observation"
    else if text.like(name, "artefact") || text.like(name, "artifact")
            || text.like(pc.name, "artefact") || text.like(pc.name, "artifact") || text.upperLike(pc.shortname, "ART")
    then "artefact"
    else "other_submission"
  }

  function AssessmentKind(text: Text, name: string): string {
    if text.like(name, "micro assessment") then "micro_assessment"
    else if text.like(name, "baseline") || text.like(name, "pre test") || text.like(name, "pre-test")
            || text.like(name, "pre course") || text.like(name, "pre survey")
    then "baseline"
    else if text.like(name, "post") then "post_test"
    else if text.like(name, "observation") then "classroom_observation"
    else if text.like(name, "artefact") || text.like(name, "artifact") then "artefact"
    else "other_assessment"
  }

  function Concept(text: Text, name: string): Option<string> {
    if text.like(name, "micro assessment") then Some(text.lastPart(name)) else None
  }

  function AsSubmission(text: Text): ((Submitted, Option<AssignGrade>)) -> Activity {
    (l: (Submitted, Option<AssignGrade>)) =>
      var s, a, pc := l.0.0.0, l.0.0.1, l.0.1;
      Activity(s.userid, Some(a.course), SubmissionKind(text, a.name, pc), Some(a.name), Concept(text, a.name),
               if a.grade > 0.0 && l.1.Some? && l.1.value.grade >= 0.0
               then Some(l.1.value.grade / a.grade * 100.0) else None,
               Some(s.modified))
  }

  /** The given submissions with their assignments and programme courses. */
  function HandedIn(db: Database, submissions: seq<Submission>): seq<Submitted> {
    InnerJoin(CourseOfAssign, InnerJoin(AssignOf, submissions, db.assigns), ProgrammeCourses(db))
  }

  function SubmissionRows(db: Database): seq<Activity> {
    Project(AsSubmission(db.text),
      Select(WasSubmitted, LeftJoin(GradeOf, HandedIn(db, db.submissions), db.assignGrades)))
  }

  predicate ItemOf(g: Grade, i: GradeItem) { i.id == g.itemid }

  predicate CourseOfItem(l: (Grade, GradeItem), pc: ProgrammeCourse) { pc.courseId == l.1.courseid }

  predicate WasGraded(l: ((Grade, GradeItem), ProgrammeCourse)) {
    var g, i := l.0.0, l.0.1;
    g.finalgrade.Some? && g.finalgrade.value >= 0.0 && i.itemname.Some? && i.otherModule
  }

  function AsAssessment(text: Text): (((Grade, GradeItem), ProgrammeCourse)) -> Activity {
    (l: ((Grade, GradeItem), ProgrammeCourse)) =>
      var g, i := l.0.0, l.0.1;
      Activity(g.userid, Some(i.courseid), AssessmentKind(text, i.itemname.GetOr("")), i.itemname,
               Concept(text, i.itemname.GetOr("")),
               if i.grademax > 0.0 then Some(g.finalgrade.GetOr(0.0) / i.grademax * 100.0) else None,
               Some(g.modified))
  }

  function AssessmentRows(db: Database): seq<Activity> {
    Project(AsAssessment(db.text), Select(WasGraded,
      InnerJoin(CourseOfItem, InnerJoin(ItemOf, db.grades, db.gradeItems), ProgrammeCourses(db))))
  }

  predicate ObservationOf(ou: ObservationUser, o: Observation) { o.id == ou.observationsid }

  function AsObservation(l: (ObservationUser, Observation)): Activity {
    Activity(l.0.userid, None, "classroom_observation", Some(l.1.name), None, None, Some(l.0.created))
  }

  function ObservationRows(db: Database): seq<Activity> {
    Project(AsObservation, InnerJoin(ObservationOf, db.observationUsers, db.observations))
  }

  function AsEnrolment(p: Member): Activity {
    Activity(p.userId, Some(p.courseId), "enrolment", None, None, None, None)
  }

  function UnionRows(db: Database): seq<Activity> {
    SubmissionRows(db) + AssessmentRows(db) + ObservationRows(db) + Project(AsEnrolment, Participants(db))
  }

  // ----- ranked -----

  /**
   * ROW_NUMBER() OVER (PARTITION BY course_id ...): within a partition the numbers are 1 up to its
   * size. Which row gets which number is left open, so ties and the order of rows do not matter.
   */
  ghost predicate RowNumbers(rows: seq<Activity>, ranks: seq<nat>) {
    && |ranks| == |rows|
    && (forall i :: 0 <= i < |rows| ==> ranks[i] >= 1)
    && (forall i, j :: 0 <= i < j < |rows| && rows[i].courseId == rows[j].courseId ==> ranks[i] != ranks[j])
    && (forall i, r :: 0 <= i < |rows| && 1 <= r < ranks[i] ==> Numbered(rows, ranks, rows[i].courseId, r))
  }

  ghost predicate Numbered(rows: seq<Activity>, ranks: seq<nat>, courseId: Option<int>, r: int)
    requires |ranks| == |rows|
  {
    exists j :: 0 <= j < |rows| && rows[j].courseId == courseId && ranks[j] == r
  }

  type Ranked = (Activity, nat)

  function WithRanks(rows: seq<Activity>, ranks: seq<nat>): (r: seq<Ranked>)
    requires |ranks| == |rows|
    ensures |r| == |rows| && forall i :: 0 <= i < |rows| ==> r[i] == (rows[i], ranks[i])
  {
    seq(|rows|, i requires 0 <= i < |rows| => (rows[i], ranks[i]))
  }

  // ----- The dataset -----

  predicate UserOf(r: Ranked, u: User) { u.id == r.0.userId }

  type D1 = (Ranked, User)
  type D2 = (D1, Option<School>)
  type D3 = (D2, Option<ProgrammeCourse>)
  type D4 = (D3, Option<Learners>)
  type D5 = (D4, Option<Member>)

  predicate SchoolOf(l: D1, s: School) { l.1.openSchool == Some(s.id) }

  predicate CourseOf(l: D2, pc: ProgrammeCourse) { l.0.0.0.courseId == Some(pc.courseId) }

  predicate LearnersOf(l: D3, n: Learners) { l.0.0.0.0.courseId == Some(n.courseId) }

  predicate CompletionOf(l: D4, m: Member) {
    var a := l.0.0.0.0.0;
    a.courseId == Some(m.courseId) && m.userId == a.userId
  }

  datatype DataRow = DataRow(
    activity: Activity, schoolId: Option<int>, schoolName: string, courseName: Option<string>,
    enrolledFlag: int, completedFlag: int, courseLearners: nat)

  function Output(l: D5): DataRow {
    var d3 := l.0.0;
    var r := d3.0.0.0;
    DataRow(
      r.0, d3.0.0.1.openSchool, if d3.0.1.Some? then d3.0.1.value.name else "No school set",
      if d3.1.Some? then Some(d3.1.value.name) else None,
      if r.0.kind == "enrolment" then 1 else 0,
      if l.1.Some? then 1 else 0,
      if r.1 == 1 && l.0.1.Some? then l.0.1.value.count else 0)
  }

  function Joined(db: Database, ranked: seq<Ranked>): seq<D5> {
    LeftJoin(CompletionOf,
      LeftJoin(LearnersOf,
        LeftJoin(CourseOf,
          LeftJoin(SchoolOf, InnerJoin(UserOf, ranked, db.users), db.schools),
          ProgrammeCourses(db)),
        LearnersByCourse(db)),
      CompletedMembers(db))
  }

  function Dataset(db: Database, ranks: seq<nat>): seq<DataRow>
    requires |ranks| == |UnionRows(db)|
  {
    Project(Output, Joined(db, WithRanks(UnionRows(db), ranks)))
  }
}
