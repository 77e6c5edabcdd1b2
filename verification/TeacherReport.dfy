/** The teacher datasets STUDENT_SQL and COURSE_SQL (reports/provision_teacher_performance_report.py). */
module TeacherReport {
  import opened Wrappers
  import opened Sql

  datatype Trainer = Trainer(trainerid: int, classroomid: int)
  datatype ClassroomUser = ClassroomUser(classroomid: int, userid: int)
  datatype Classroom = Classroom(id: int, schoolCode: Option<int>)   // open_school where it is a numeral
  datatype School = School(id: int)
  datatype User = User(id: int)
  datatype UserEnrolment = UserEnrolment(userid: int, enrolid: int)
  datatype Enrol = Enrol(id: int, courseid: Option<int>)
  datatype Completion = Completion(userid: int, course: Option<int>)
  datatype Course = Course(id: int, category: Option<int>)
  datatype Category = Category(id: int)
  datatype Submission = Submission(userid: int, submitted: bool)
  datatype Grade = Grade(userid: int, itemid: int, finalgrade: Option<real>)
  /** `baseline` and `mastery` say whether the item's name matches the patterns of that score. */
  datatype GradeItem = GradeItem(id: int, grademax: real, baseline: bool, mastery: bool)

  datatype Database = Database(
    trainers: seq<Trainer>, classroomUsers: seq<ClassroomUser>, classrooms: seq<Classroom>,
    schools: seq<School>, users: seq<User>, userEnrolments: seq<UserEnrolment>, enrols: seq<Enrol>,
    completions: seq<Completion>, courses: seq<Course>, categories: seq<Category>,
    submissions: seq<Submission>, grades: seq<Grade>, gradeItems: seq<GradeItem>)

  // ----- course_rows (teacher_course_rows in STUDENT_SQL) -----

  datatype CourseRow = CourseRow(teacher: int, course: Option<int>, completed: nat)

  function TrainerId(t: Trainer): int { t.trainerid }

  function TrainerIds(db: Database): seq<int> {
    Distinct(Project(TrainerId, db.trainers))
  }

  predicate EnrolmentOf(trainer: int, ue: UserEnrolment) { ue.userid == trainer }

  predicate EnrolOf(l: (int, UserEnrolment), e: Enrol) { e.id == l.1.enrolid }

  function AsEnrolled(l: ((int, UserEnrolment), Enrol)): CourseRow {
    CourseRow(l.0.0, l.1.courseid, 0)
  }

  function OfTrainer(db: Database): Completion -> bool {
    (cc: Completion) => cc.userid in TrainerIds(db)
  }

  function AsCompleted(cc: Completion): CourseRow {
    CourseRow(cc.userid, cc.course, 1)
  }

  function CourseRows(db: Database): seq<CourseRow> {
    UnionDistinct(
      Project(AsEnrolled, InnerJoin(EnrolOf, InnerJoin(EnrolmentOf, TrainerIds(db), db.userEnrolments), db.enrols)),
      Project(AsCompleted, Select(OfTrainer(db), db.completions)))
  }

  // ----- artefacts (teacher_artefacts in STUDENT_SQL) -----

  datatype ArtefactCount = ArtefactCount(teacher: int, submitted: nat)

  function SubmittedByTrainer(db: Database): Submission -> bool {
    (s: Submission) => s.submitted && s.userid in TrainerIds(db)
  }

  function Submitter(s: Submission): int { s.userid }

  function CountSubmissions(teacher: int, group: seq<Submission>): ArtefactCount {
    ArtefactCount(teacher, |group|)
  }

  function Artefacts(db: Database): seq<ArtefactCount> {
    GroupBy(Submitter, CountSubmissions, Select(SubmittedByTrainer(db), db.submissions))
  }

  // ----- COURSE_SQL -----

  datatype Assigned = Assigned(teacher: int, course: Option<int>, completed: nat)

  function TeacherAndCourse(r: CourseRow): (int, Option<int>) { (r.teacher, r.course) }

  function MaxCompleted(group: seq<CourseRow>): nat {
    if group == [] then 0
    else
      var rest, last := MaxCompleted(group[..|group| - 1]), group[|group| - 1].completed;
      if last > rest then last else rest
  }

  function AssignGroup(key: (int, Option<int>), group: seq<CourseRow>): Assigned {
    Assigned(key.0, key.1, MaxCompleted(group))
  }

  function AssignedRows(db: Database): seq<Assigned> {
    GroupBy(TeacherAndCourse, AssignGroup, CourseRows(db))
  }

  predicate UserOf(a: Assigned, u: User) { u.id == a.teacher }

  predicate CourseOf(l: (Assigned, User), c: Course) { l.0.course == Some(c.id) }

  predicate CategoryOf(l: ((Assigned, User), Course), c: Category) { l.1.category == Some(c.id) }

  type Categorised = (((Assigned, User), Course), Option<Category>)

  predicate ArtefactsOfTeacher(l: Categorised, a: ArtefactCount) { a.teacher == l.0.0.0.teacher }

  datatype CourseReportRow = CourseReportRow(teacherId: int, courseId: Option<int>, completedFlag: nat, artefacts: nat)

  function CourseOutput(l: (Categorised, Option<ArtefactCount>)): CourseReportRow {
    var a := l.0.0.0.0;
    CourseReportRow(a.teacher, a.course, a.completed, if l.1.Some? then l.1.value.submitted else 0)
  }

  function AssignedCourses(db: Database): seq<((Assigned, User), Course)> {
    InnerJoin(CourseOf, InnerJoin(UserOf, AssignedRows(db), db.users), db.courses)
  }

  function CourseReport(db: Database): seq<CourseReportRow> {
    Project(CourseOutput,
        LeftJoin(ArtefactsOfTeacher, LeftJoin(CategoryOf, AssignedCourses(db), db.categories), Artefacts(db)))
  }

  // ----- STUDENT_SQL -----

  datatype TeacherCount = TeacherCount(teacher: int, courses: nat, completed: nat)

  function Teacher(r: CourseRow): int { r.teacher }

  function CourseColumn(r: CourseRow): Option<int> { r.course }

  function CompletedColumn(r: CourseRow): Option<int> {
    if r.completed == 1 then r.course else None
  }

  function CountCourses(teacher: int, group: seq<CourseRow>): TeacherCount {
    TeacherCount(teacher, CountDistinct(Project(CourseColumn, group)), CountDistinct(Project(CompletedColumn, group)))
  }

  function TeacherCounts(db: Database): seq<TeacherCount> {
    GroupBy(Teacher, CountCourses, CourseRows(db))
  }

  datatype ClassStudent = ClassStudent(teacher: int, classId: int, student: int)

  predicate InClass(t: Trainer, cu: ClassroomUser) { cu.classroomid == t.classroomid }

  function AsClassStudent(l: (Trainer, ClassroomUser)): ClassStudent {
    ClassStudent(l.0.trainerid, l.0.classroomid, l.1.userid)
  }

  function ClassStudents(db: Database): seq<ClassStudent> {
    Distinct(Project(AsClassStudent, InnerJoin(InClass, Distinct(db.trainers), db.classroomUsers)))
  }

  datatype Score = Score(student: int, percent: real)

  predicate ItemOf(g: Grade, i: GradeItem) { i.id == g.itemid }

  predicate BaselineGrade(l: (Grade, GradeItem)) {
    l.0.finalgrade.Some? && l.1.grademax > 0.0 && l.1.baseline
  }

  predicate MasteryGrade(l: (Grade, GradeItem)) {
    l.0.finalgrade.Some? && l.1.grademax > 0.0 && l.1.mastery
  }

  function Graded(l: (Grade, GradeItem)): int { l.0.userid }

  function PercentSum(group: seq<(Grade, GradeItem)>): real {
    if group == [] then 0.0
    else
      var l := group[|group| - 1];
      PercentSum(group[..|group| - 1])
      + (if l.1.grademax > 0.0 then l.0.finalgrade.GetOr(0.0) / l.1.grademax * 100.0 else 0.0)
  }

  function Average(student: int, group: seq<(Grade, GradeItem)>): Score {
    Score(student, if group == [] then 0.0 else PercentSum(group) / |group| as real)
  }

  function Baselines(db: Database): seq<Score> {
    GroupBy(Graded, Average, Select(BaselineGrade, InnerJoin(ItemOf, db.grades, db.gradeItems)))
  }

  function Masteries(db: Database): seq<Score> {
    GroupBy(Graded, Average, Select(MasteryGrade, InnerJoin(ItemOf, db.grades, db.gradeItems)))
  }

  datatype Volume = Volume(student: int, grades: nat)

  predicate HasGrade(g: Grade) { g.finalgrade.Some? }

  function GradeUser(g: Grade): int { g.userid }

  function CountGrades(student: int, group: seq<Grade>): Volume { Volume(student, |group|) }

  function Volumes(db: Database): seq<Volume> {
    GroupBy(GradeUser, CountGrades, Select(HasGrade, db.grades))
  }

  type J0 = (ClassStudent, Classroom)
  type J1 = (J0, Option<Score>)
  type J2 = (J1, Option<Score>)
  type J3 = (J2, Option<Volume>)
  type J4 = (J3, Option<TeacherCount>)
  type J5 = (J4, Option<ArtefactCount>)

  predicate ClassOf(cs: ClassStudent, c: Classroom) { c.id == cs.classId }

  predicate BaselineOf(l: J0, s: Score) { s.student == l.0.student }

  predicate MasteryOf(l: J1, s: Score) { s.student == l.0.0.student }

  predicate VolumeOf(l: J2, v: Volume) { v.student == l.0.0.0.student }

  predicate CountsOf(l: J3, c: TeacherCount) { c.teacher == l.0.0.0.0.teacher }

  predicate ArtefactsOf(l: J4, a: ArtefactCount) { a.teacher == l.0.0.0.0.0.teacher }

  datatype GradedRow = GradedRow(
    key: ClassStudent, schoolCode: Option<int>, courses: Option<TeacherCount>, artefacts: nat,
    baseline: Option<real>, mastery: Option<real>, grades: nat)

  function Percent(s: Option<Score>): Option<real> {
    if s.Some? then Some(s.value.percent) else None
  }

  function AsGraded(l: J5): GradedRow {
    var j3 := l.0.0;
    var j0 := j3.0.0.0;
    GradedRow(
      j0.0, j0.1.schoolCode, l.0.1, if l.1.Some? then l.1.value.submitted else 0,
      Percent(j3.0.0.1), Percent(j3.0.1), if j3.1.Some? then j3.1.value.grades else 0)
  }

  function GradedJoined(db: Database, j0: seq<J0>): seq<J5> {
    LeftJoin(ArtefactsOf,
      LeftJoin(CountsOf,
        LeftJoin(VolumeOf,
          LeftJoin(MasteryOf, LeftJoin(BaselineOf, j0, Baselines(db)), Masteries(db)),
          Volumes(db)),
        TeacherCounts(db)),
      Artefacts(db))
  }

  function GradedRows(db: Database): seq<GradedRow> {
    Project(AsGraded, GradedJoined(db, InnerJoin(ClassOf, ClassStudents(db), db.classrooms)))
  }

  predicate TeacherUser(g: GradedRow, u: User) { u.id == g.key.teacher }

  predicate StudentUser(l: (GradedRow, User), u: User) { u.id == l.0.key.student }

  predicate SchoolOf(l: ((GradedRow, User), User), s: School) { l.0.0.schoolCode == Some(s.id) }

  datatype StudentRow = StudentRow(
    key: ClassStudent, schoolId: Option<int>, coursesAssigned: nat, coursesCompleted: nat, artefacts: nat,
    baseline: Option<real>, mastery: Option<real>, gain: Option<real>, assessments: nat)

  function Gain(baseline: Option<real>, mastery: Option<real>): Option<real> {
    if baseline.None? || mastery.None? || baseline.value == 0.0 then None
    else Some((mastery.value - baseline.value) / baseline.value)
  }

  function StudentOutput(l: (((GradedRow, User), User), Option<School>)): StudentRow {
    var g := l.0.0.0;
    StudentRow(
      g.key, if l.1.Some? then Some(l.1.value.id) else None,
      if g.courses.Some? then g.courses.value.courses else 0,
      if g.courses.Some? then g.courses.value.completed else 0,
      g.artefacts, g.baseline, g.mastery, Gain(g.baseline, g.mastery), g.grades)
  }

  function NamedRows(db: Database): seq<((GradedRow, User), User)> {
    InnerJoin(StudentUser, InnerJoin(TeacherUser, GradedRows(db), db.users), db.users)
  }

  function StudentReport(db: Database): seq<StudentRow> {
    Project(StudentOutput, LeftJoin(SchoolOf, NamedRows(db), db.schools))
  }
}
