/** Grain and agreement of the teacher datasets, for every database with unique primary keys. */
module TeacherReportProofs {
  import opened Wrappers
  import opened Sets
  import opened Sql
  import opened TeacherReport

  ghost predicate UniqueKeys(db: Database) {
    && (forall i, j :: 0 <= i < j < |db.users| ==> db.users[i].id != db.users[j].id)
    && (forall i, j :: 0 <= i < j < |db.courses| ==> db.courses[i].id != db.courses[j].id)
    && (forall i, j :: 0 <= i < j < |db.categories| ==> db.categories[i].id != db.categories[j].id)
    && (forall i, j :: 0 <= i < j < |db.classrooms| ==> db.classrooms[i].id != db.classrooms[j].id)
    && (forall i, j :: 0 <= i < j < |db.schools| ==> db.schools[i].id != db.schools[j].id)
  }

  // ----- What the database says of a teacher -----

  ghost predicate IsTrainer(db: Database, user: int) {
    exists t :: t in db.trainers && t.trainerid == user
  }

  ghost predicate EnrolledIn(db: Database, user: int, course: Option<int>) {
    exists ue, e :: ue in db.userEnrolments && e in db.enrols
      && ue.userid == user && e.id == ue.enrolid && e.courseid == course
  }

  /** The courses a trainer has completed. */
  ghost function CompletedOf(db: Database, teacher: int): set<Option<int>> {
    set cc | cc in db.completions && cc.userid == teacher && cc.course.Some? && IsTrainer(db, teacher) :: cc.course
  }

  /** The courses a trainer is enrolled in or has completed. */
  ghost function CoursesOf(db: Database, teacher: int): set<Option<int>> {
    CompletedOf(db, teacher)
    + (set e | e in db.enrols && e.courseid.Some? && EnrolledIn(db, teacher, e.courseid) && IsTrainer(db, teacher)
         :: e.courseid)
  }

  /** The union has the enrolments of trainers with flag 0 and their completions with flag 1. */
  lemma CourseRowMeans(db: Database, r: CourseRow)
    ensures r in CourseRows(db) <==>
      && IsTrainer(db, r.teacher)
      && ((r.completed == 0 && EnrolledIn(db, r.teacher, r.course))
          || (r.completed == 1 && Completion(r.teacher, r.course) in db.completions))
  {
    var trainers := InnerJoin(EnrolmentOf, TrainerIds(db), db.userEnrolments);
    var joined, done := InnerJoin(EnrolOf, trainers, db.enrols), Select(OfTrainer(db), db.completions);
    DistinctMeans(Project(AsEnrolled, joined) + Project(AsCompleted, done));
    DistinctMeans(Project(TrainerId, db.trainers));
    ProjectMembers(TrainerId, db.trainers, r.teacher);
    ProjectMembers(AsEnrolled, joined, r);
    ProjectMembers(AsCompleted, done, r);
    JoinMembers(EnrolmentOf, TrainerIds(db), db.userEnrolments);
    JoinMembers(EnrolOf, trainers, db.enrols);
    SelectMeans(OfTrainer(db), db.completions);
    hide InnerJoin, Select, Project, Distinct;
    assert r in CourseRows(db) <==> r in Project(AsEnrolled, joined) || r in Project(AsCompleted, done);
    if r.completed == 0 && IsTrainer(db, r.teacher) && EnrolledIn(db, r.teacher, r.course) {
      var ue, e :| ue in db.userEnrolments && e in db.enrols
        && ue.userid == r.teacher && e.id == ue.enrolid && e.courseid == r.course;
      assert (r.teacher, ue) in trainers;
      assert ((r.teacher, ue), e) in joined;
    }
    if r.completed == 1 {
      assert AsCompleted(Completion(r.teacher, r.course)) == r;
    }
  }

  lemma CoursesInRows(db: Database, teacher: int)
    ensures forall c :: c in CoursesOf(db, teacher) <==>
      c.Some? && exists r :: r in CourseRows(db) && r.teacher == teacher && r.course == c
    ensures forall c :: c in CompletedOf(db, teacher) <==>
      c.Some? && exists r :: r in CourseRows(db) && r.teacher == teacher && r.course == c && r.completed == 1
  {
    hide CourseRows, IsTrainer;
    forall r ensures r in CourseRows(db) <==>
      && IsTrainer(db, r.teacher)
      && ((r.completed == 0 && EnrolledIn(db, r.teacher, r.course))
          || (r.completed == 1 && Completion(r.teacher, r.course) in db.completions))
    {
      CourseRowMeans(db, r);
    }
    hide EnrolledIn;
    forall c: Option<int> | c.Some? && IsTrainer(db, teacher)
      ensures EnrolledIn(db, teacher, c) ==> c in CoursesOf(db, teacher) && CourseRow(teacher, c, 0) in CourseRows(db)
      ensures Completion(teacher, c) in db.completions ==>
        c in CompletedOf(db, teacher) && CourseRow(teacher, c, 1) in CourseRows(db)
    {
      EnrolmentExists(db, teacher, c);
    }
  }

  lemma EnrolmentExists(db: Database, user: int, c: Option<int>)
    ensures EnrolledIn(db, user, c) ==> exists e :: e in db.enrols && e.courseid == c
  {
  }

  ghost predicate Exists(db: Database, course: Option<int>) {
    exists c :: c in db.courses && course == Some(c.id)
  }

  // ----- STUDENT_SQL -----

  lemma CountsForTeacher(db: Database, l: J3)
    ensures OneMatch(CountsOf, l, TeacherCounts(db))
    ensures var c := Lookup(CountsOf, l, TeacherCounts(db));
      var t := l.0.0.0.0.teacher;
      && (if c.Some? then c.value.courses else 0) == |CoursesOf(db, t)|
      && (if c.Some? then c.value.completed else 0) == |CompletedOf(db, t)|
  {
    var t := l.0.0.0.0.teacher;
    CoursesInRows(db, t);
    hide CourseRows, CoursesOf, CompletedOf;
    GroupByLookup(CountsOf, l, t, Teacher, CountCourses, CourseRows(db));
    GroupOfMeans(Teacher, t, CourseRows(db));
    var group := GroupOf(Teacher, t, CourseRows(db));
    assert NonNull(Project(CourseColumn, group)) == CoursesOf(db, t) by {
      forall v ensures v in Project(CourseColumn, group) <==> exists r :: r in group && r.course == v {
        ProjectMembers(CourseColumn, group, v);
      }
    }
    assert NonNull(Project(CompletedColumn, group)) == CompletedOf(db, t) by {
      forall v ensures v in Project(CompletedColumn, group) <==> exists r :: r in group && CompletedColumn(r) == v {
        ProjectMembers(CompletedColumn, group, v);
      }
    }
  }

  /** Every joined column of a row of `graded` is looked up in its relation. */
  predicate LooksUp(db: Database, l: J5) {
    && l.0.0.0.0.1 == Lookup(BaselineOf, l.0.0.0.0.0, Baselines(db))
    && l.0.0.0.1 == Lookup(MasteryOf, l.0.0.0.0, Masteries(db))
    && l.0.0.1 == Lookup(VolumeOf, l.0.0.0, Volumes(db))
    && l.0.1 == Lookup(CountsOf, l.0.0, TeacherCounts(db))
    && l.1 == Lookup(ArtefactsOf, l.0, Artefacts(db))
  }

  /** The five left joins of `graded` keep its rows one for one. */
  lemma GradedRowForRow(db: Database, j0: seq<J0>)
    ensures |GradedJoined(db, j0)| == |j0|
    ensures forall i :: 0 <= i < |j0| ==>
      LooksUp(db, GradedJoined(db, j0)[i]) && GradedJoined(db, j0)[i].0.0.0.0.0 == j0[i]
  {
    hide CourseRows, Baselines, Masteries, Volumes, Artefacts, TeacherCounts, OneMatch, LeftJoin, Lookup, Matching;
    hide BaselineOf, MasteryOf, VolumeOf, CountsOf, ArtefactsOf;
    forall l: J0 ensures OneMatch(BaselineOf, l, Baselines(db)) {
      BaselineOnce(db, l);
    }
    LeftJoinRowForRow(BaselineOf, j0, Baselines(db));
    var j1 := LeftJoin(BaselineOf, j0, Baselines(db));
    forall l: J1 ensures OneMatch(MasteryOf, l, Masteries(db)) {
      MasteryOnce(db, l);
    }
    LeftJoinRowForRow(MasteryOf, j1, Masteries(db));
    var j2 := LeftJoin(MasteryOf, j1, Masteries(db));
    forall l: J2 ensures OneMatch(VolumeOf, l, Volumes(db)) {
      VolumeOnce(db, l);
    }
    LeftJoinRowForRow(VolumeOf, j2, Volumes(db));
    var j3 := LeftJoin(VolumeOf, j2, Volumes(db));
    forall l: J3 ensures OneMatch(CountsOf, l, TeacherCounts(db)) {
      CountsForTeacher(db, l);
    }
    LeftJoinRowForRow(CountsOf, j3, TeacherCounts(db));
    var j4 := LeftJoin(CountsOf, j3, TeacherCounts(db));
    forall l: J4 ensures OneMatch(ArtefactsOf, l, Artefacts(db)) {
      ArtefactsOnce(db, l);
    }
    LeftJoinRowForRow(ArtefactsOf, j4, Artefacts(db));
  }

  lemma BaselineOnce(db: Database, l: J0)
    ensures OneMatch(BaselineOf, l, Baselines(db))
  {
    GroupByLookup(BaselineOf, l, l.0.student, Graded, Average,
        Select(BaselineGrade, InnerJoin(ItemOf, db.grades, db.gradeItems)));
  }

  lemma MasteryOnce(db: Database, l: J1)
    ensures OneMatch(MasteryOf, l, Masteries(db))
  {
    GroupByLookup(MasteryOf, l, l.0.0.student, Graded, Average,
        Select(MasteryGrade, InnerJoin(ItemOf, db.grades, db.gradeItems)));
  }

  lemma VolumeOnce(db: Database, l: J2)
    ensures OneMatch(VolumeOf, l, Volumes(db))
  {
    GroupByLookup(VolumeOf, l, l.0.0.0.student, GradeUser, CountGrades, Select(HasGrade, db.grades));
  }

  lemma ArtefactsOnce(db: Database, l: J4)
    ensures OneMatch(ArtefactsOf, l, Artefacts(db))
  {
    GroupByLookup(ArtefactsOf, l, l.0.0.0.0.0.teacher, Submitter, CountSubmissions,
        Select(SubmittedByTrainer(db), db.submissions));
  }

  /** A graded row comes from a class student whose class exists, with that teacher's counts. */
  lemma GradedRowOrigin(db: Database, g: GradedRow)
    requires g in GradedRows(db)
    ensures g.key in ClassStudents(db)
    ensures (if g.courses.Some? then g.courses.value.courses else 0) == |CoursesOf(db, g.key.teacher)|
    ensures (if g.courses.Some? then g.courses.value.completed else 0) == |CompletedOf(db, g.key.teacher)|
  {
    hide CourseRows, TeacherCounts, GradedJoined, ClassStudents, CoursesOf, CompletedOf, Lookup;
    var j0 := InnerJoin(ClassOf, ClassStudents(db), db.classrooms);
    GradedRowForRow(db, j0);
    var joined := GradedJoined(db, j0);
    var i :| 0 <= i < |joined| && Project(AsGraded, joined)[i] == g;
    JoinMembers(ClassOf, ClassStudents(db), db.classrooms);
    assert j0[i] in j0;
    CountsForTeacher(db, joined[i].0.0);
  }

  lemma NamedRowForRow(db: Database)
    requires UniqueKeys(db)
    ensures NamedRows(db) == Matched(StudentUser, Matched(TeacherUser, GradedRows(db), db.users), db.users)
    ensures |StudentReport(db)| == |NamedRows(db)|
    ensures forall i :: 0 <= i < |NamedRows(db)| ==>
      StudentReport(db)[i] == StudentOutput((NamedRows(db)[i], Lookup(SchoolOf, NamedRows(db)[i], db.schools)))
  {
    hide GradedRows;
    InnerJoinSelects(TeacherUser, GradedRows(db), db.users);
    InnerJoinSelects(StudentUser, InnerJoin(TeacherUser, GradedRows(db), db.users), db.users);
    LeftJoinRowForRow(SchoolOf, NamedRows(db), db.schools);
  }

  /** Every row's course figures are those of its teacher, who exists. */
  lemma StudentRowCounts(db: Database, r: StudentRow)
    requires UniqueKeys(db) && r in StudentReport(db)
    ensures r.coursesAssigned == |CoursesOf(db, r.key.teacher)|
    ensures r.coursesCompleted == |CompletedOf(db, r.key.teacher)|
    ensures r.gain == Gain(r.baseline, r.mastery)
    ensures exists u :: u in db.users && u.id == r.key.teacher
  {
    hide GradedRows, CoursesOf, CompletedOf, StudentReport, Lookup, Matched;
    NamedRowForRow(db);
    var i :| 0 <= i < |StudentReport(db)| && StudentReport(db)[i] == r;
    var l := NamedRows(db)[i];
    var teachers := InnerJoin(TeacherUser, GradedRows(db), db.users);
    JoinMembers(StudentUser, teachers, db.users);
    JoinMembers(TeacherUser, GradedRows(db), db.users);
    assert l in NamedRows(db);
    GradedRowOrigin(db, l.0.0);
  }

  // ----- Grain of STUDENT_SQL -----

  function KeyOfRow(r: StudentRow): ClassStudent { r.key }

  function KeyOfJ0(l: J0): ClassStudent { l.0 }

  function KeyOfGraded(g: GradedRow): ClassStudent { g.key }

  function KeyOfTeacherJoin(l: (GradedRow, User)): ClassStudent { l.0.key }

  function KeyOfNamed(l: ((GradedRow, User), User)): ClassStudent { l.0.0.key }

  function Itself(k: ClassStudent): ClassStudent { k }

  lemma GradedKeys(db: Database)
    requires UniqueKeys(db)
    ensures NoDuplicates(Project(KeyOfGraded, GradedRows(db)))
    ensures forall k :: k in Project(KeyOfGraded, GradedRows(db))
              <==> k in ClassStudents(db) && exists c :: c in db.classrooms && c.id == k.classId
  {
    hide GradedJoined, ClassStudents, Lookup, HasMatch;
    var students := ClassStudents(db);
    var j0 := InnerJoin(ClassOf, students, db.classrooms);
    ClassStudentsDistinct(db);
    assert Project(Itself, students) == students;
    InnerJoinSelects(ClassOf, students, db.classrooms);
    MatchedKeepsDistinct(ClassOf, students, db.classrooms, Itself, KeyOfJ0);
    GradedRowForRow(db, j0);
    assert Project(KeyOfGraded, GradedRows(db)) == Project(KeyOfJ0, j0);
    JoinMembers(ClassOf, students, db.classrooms);
    forall k
      ensures k in Project(KeyOfJ0, j0) <==> k in students && exists c :: c in db.classrooms && c.id == k.classId {
      ProjectMembers(KeyOfJ0, j0, k);
      if k in students && exists c :: c in db.classrooms && c.id == k.classId {
        var c :| c in db.classrooms && c.id == k.classId;
        assert (k, c) in j0;
      }
    }
  }

  lemma ClassStudentsDistinct(db: Database)
    ensures NoDuplicates(ClassStudents(db))
  {
    DistinctMeans(Project(AsClassStudent, InnerJoin(InClass, Distinct(db.trainers), db.classroomUsers)));
  }

  /** The class students are the (trainer, class, student) triples of the two tables. */
  lemma ClassStudentsMean(db: Database, k: ClassStudent)
    ensures k in ClassStudents(db)
       <==> Trainer(k.teacher, k.classId) in db.trainers && ClassroomUser(k.classId, k.student) in db.classroomUsers
  {
    var joined := InnerJoin(InClass, Distinct(db.trainers), db.classroomUsers);
    DistinctMeans(db.trainers);
    DistinctMeans(Project(AsClassStudent, joined));
    ProjectMembers(AsClassStudent, joined, k);
    JoinMembers(InClass, Distinct(db.trainers), db.classroomUsers);
    var l := (Trainer(k.teacher, k.classId), ClassroomUser(k.classId, k.student));
    assert l in joined <==> l.0 in db.trainers && l.1 in db.classroomUsers;
    if k in ClassStudents(db) {
      var l' :| l' in joined && AsClassStudent(l') == k;
      assert l' == l;
    }
    assert AsClassStudent(l) == k;
  }

  /**
   * One row for each distinct (teacher, class, student) whose class and users exist, and no other:
   * the seven joins neither drop nor duplicate a row.
   */
  lemma StudentGrain(db: Database)
    requires UniqueKeys(db)
    ensures NoDuplicates(Project(KeyOfRow, StudentReport(db)))
    ensures forall k :: k in Project(KeyOfRow, StudentReport(db)) <==>
      && k in ClassStudents(db)
      && (exists c :: c in db.classrooms && c.id == k.classId)
      && (exists u :: u in db.users && u.id == k.teacher)
      && (exists u :: u in db.users && u.id == k.student)
  {
    hide GradedRows, ClassStudents, StudentReport, Lookup, NamedRows;
    var graded := GradedRows(db);
    GradedKeys(db);
    NamedRowForRow(db);
    var named := NamedRows(db);
    var teachers := Matched(TeacherUser, graded, db.users);
    MatchedKeepsDistinct(TeacherUser, graded, db.users, KeyOfGraded, KeyOfTeacherJoin);
    MatchedKeepsDistinct(StudentUser, teachers, db.users, KeyOfTeacherJoin, KeyOfNamed);
    assert Project(KeyOfRow, StudentReport(db)) == Project(KeyOfNamed, named);
    forall k ensures k in Project(KeyOfNamed, named) <==>
      && k in Project(KeyOfGraded, graded)
      && (exists u :: u in db.users && u.id == k.teacher)
      && (exists u :: u in db.users && u.id == k.student)
    {
      NamedKey(db, graded, k);
    }
  }

  lemma NamedKey(db: Database, graded: seq<GradedRow>, k: ClassStudent)
    ensures k in Project(KeyOfNamed, Matched(StudentUser, Matched(TeacherUser, graded, db.users), db.users)) <==>
      && k in Project(KeyOfGraded, graded)
      && (exists u :: u in db.users && u.id == k.teacher)
      && (exists u :: u in db.users && u.id == k.student)
  {
    var teachers := Matched(TeacherUser, graded, db.users);
    var named := Matched(StudentUser, teachers, db.users);
    MatchedMembers(TeacherUser, graded, db.users);
    MatchedMembers(StudentUser, teachers, db.users);
    ProjectMembers(KeyOfNamed, named, k);
    ProjectMembers(KeyOfGraded, graded, k);
    hide Matched, Project;
    if k in Project(KeyOfNamed, named) {
      var l :| l in named && KeyOfNamed(l) == k;
      LookupMeans(StudentUser, l.0, db.users);
      LookupMeans(TeacherUser, l.0.0, db.users);
    }
    if && k in Project(KeyOfGraded, graded)
       && (exists u :: u in db.users && u.id == k.teacher) && (exists u :: u in db.users && u.id == k.student) {
      var g :| g in graded && KeyOfGraded(g) == k;
      LookupMeans(TeacherUser, g, db.users);
      var l := (g, Lookup(TeacherUser, g, db.users).value);
      LookupMeans(StudentUser, l, db.users);
      assert l in teachers;
      assert (l, Lookup(StudentUser, l, db.users).value) in named;
    }
  }

  // ----- COURSE_SQL -----

  lemma {:induction false} MaxCompletedMeans(group: seq<CourseRow>)
    requires forall r :: r in group ==> r.completed <= 1
    ensures MaxCompleted(group) <= 1
    ensures MaxCompleted(group) == 1 <==> exists r :: r in group && r.completed == 1
  {
    if group != [] {
      var n := |group| - 1;
      MaxCompletedMeans(group[..n]);
      assert group == group[..n] + [group[n]];
    }
  }

  lemma CourseRowFlags(db: Database)
    ensures forall r :: r in CourseRows(db) ==> r.completed <= 1
  {
    hide CourseRows;
    forall r | r in CourseRows(db) ensures r.completed <= 1 {
      CourseRowMeans(db, r);
    }
  }

  function AssignedKey(a: Assigned): (int, Option<int>) { (a.teacher, a.course) }

  /** `assigned` has one row for each (teacher, course) of the union, flagged if any row is completed. */
  lemma AssignedMeans(db: Database)
    ensures NoDuplicates(Project(AssignedKey, AssignedRows(db)))
    ensures forall a :: a in AssignedRows(db) ==> AssignedMean(db, a)
    ensures forall r :: r in CourseRows(db) ==>
      exists a :: a in AssignedRows(db) && AssignedKey(a) == TeacherAndCourse(r)
  {
    hide CourseRows;
    var rows := CourseRows(db);
    var keys := Distinct(Project(TeacherAndCourse, rows));
    var grouped := AssignedRows(db);
    DistinctMeans(Project(TeacherAndCourse, rows));
    CourseRowFlags(db);
    assert forall i :: 0 <= i < |keys| ==> grouped[i] == AssignGroup(keys[i], GroupOf(TeacherAndCourse, keys[i], rows));
    assert Project(AssignedKey, grouped) == keys;
    forall a | a in grouped ensures AssignedMean(db, a) {
      var i :| 0 <= i < |grouped| && grouped[i] == a;
      GroupOfMeans(TeacherAndCourse, keys[i], rows);
      MaxCompletedMeans(GroupOf(TeacherAndCourse, keys[i], rows));
      assert keys[i] in keys;
      ProjectMembers(TeacherAndCourse, rows, keys[i]);
    }
    forall r | r in rows ensures exists a :: a in grouped && AssignedKey(a) == TeacherAndCourse(r) {
      ProjectMembers(TeacherAndCourse, rows, TeacherAndCourse(r));
      assert TeacherAndCourse(r) in keys;
      var i :| 0 <= i < |keys| && keys[i] == TeacherAndCourse(r);
      assert grouped[i] in grouped && AssignedKey(grouped[i]) == keys[i];
    }
  }

  ghost predicate AssignedMean(db: Database, a: Assigned) {
    && a.completed <= 1
    && (exists r :: r in CourseRows(db) && TeacherAndCourse(r) == AssignedKey(a))
    && (a.completed == 1 <==>
        exists r :: r in CourseRows(db) && TeacherAndCourse(r) == AssignedKey(a) && r.completed == 1)
  }

  function ReportKey(r: CourseReportRow): (int, Option<int>) { (r.teacherId, r.courseId) }

  function UserJoinKey(l: (Assigned, User)): (int, Option<int>) { AssignedKey(l.0) }

  function CourseJoinKey(l: ((Assigned, User), Course)): (int, Option<int>) { AssignedKey(l.0.0) }

  lemma CourseReportRowForRow(db: Database)
    requires UniqueKeys(db)
    ensures |CourseReport(db)| == |AssignedCourses(db)|
    ensures forall i :: 0 <= i < |CourseReport(db)| ==>
      var a, r := AssignedCourses(db)[i].0.0, CourseReport(db)[i];
      r.teacherId == a.teacher && r.courseId == a.course && r.completedFlag == a.completed
    ensures AssignedCourses(db) == Matched(CourseOf, Matched(UserOf, AssignedRows(db), db.users), db.courses)
  {
    hide AssignedRows, Artefacts;
    InnerJoinSelects(UserOf, AssignedRows(db), db.users);
    InnerJoinSelects(CourseOf, InnerJoin(UserOf, AssignedRows(db), db.users), db.courses);
    LeftJoinRowForRow(CategoryOf, AssignedCourses(db), db.categories);
    var categorised := LeftJoin(CategoryOf, AssignedCourses(db), db.categories);
    forall l: Categorised ensures OneMatch(ArtefactsOfTeacher, l, Artefacts(db)) {
      CourseArtefactsOnce(db, l);
    }
    LeftJoinRowForRow(ArtefactsOfTeacher, categorised, Artefacts(db));
  }

  lemma CourseArtefactsOnce(db: Database, l: Categorised)
    ensures OneMatch(ArtefactsOfTeacher, l, Artefacts(db))
  {
    GroupByLookup(ArtefactsOfTeacher, l, l.0.0.0.teacher, Submitter, CountSubmissions,
        Select(SubmittedByTrainer(db), db.submissions));
  }

  /** What COURSE_SQL should list: a trainer's course, flagged if it was completed. */
  ghost predicate Reported(db: Database, a: Assigned) {
    && (exists u :: u in db.users && u.id == a.teacher)
    && Exists(db, a.course) && a.course in CoursesOf(db, a.teacher)
    && a.completed == if a.course in CompletedOf(db, a.teacher) then 1 else 0
  }

  /** `assigned` has a trainer's courses, each with its flag. */
  lemma AssignedFromTables(db: Database, a: Assigned)
    requires a.course.Some?
    ensures a in AssignedRows(db) <==>
      a.course in CoursesOf(db, a.teacher) && a.completed == if a.course in CompletedOf(db, a.teacher) then 1 else 0
  {
    hide *;
    if a in AssignedRows(db) {
      AssignedFlag(db, a);
    }
    if a.course in CoursesOf(db, a.teacher) {
      var b := CourseAssigned(db, a.teacher, a.course);
      AssignedFlag(db, b);
    }
  }

  lemma AssignedFlag(db: Database, a: Assigned)
    requires a in AssignedRows(db) && a.course.Some?
    ensures a.course in CoursesOf(db, a.teacher)
    ensures a.completed == if a.course in CompletedOf(db, a.teacher) then 1 else 0
  {
    CourseInRows(db, a.teacher, a.course);
    MeanOf(db, a);
    hide AssignedRows, CourseRows, CoursesOf, CompletedOf;
    if r :| r in CourseRows(db) && r.teacher == a.teacher && r.course == a.course && r.completed == 1 {
      assert TeacherAndCourse(r) == AssignedKey(a);
    }
  }

  lemma MeanOf(db: Database, a: Assigned)
    requires a in AssignedRows(db)
    ensures AssignedMean(db, a)
  {
    hide *;
    AssignedMeans(db);
  }

  lemma CourseInRows(db: Database, teacher: int, c: Option<int>)
    ensures c in CoursesOf(db, teacher) <==>
      c.Some? && exists r :: r in CourseRows(db) && r.teacher == teacher && r.course == c
    ensures c in CompletedOf(db, teacher) <==>
      c.Some? && exists r :: r in CourseRows(db) && r.teacher == teacher && r.course == c && r.completed == 1
  {
    hide *;
    CoursesInRows(db, teacher);
  }

  lemma CourseAssigned(db: Database, teacher: int, course: Option<int>) returns (a: Assigned)
    requires course in CoursesOf(db, teacher)
    ensures a in AssignedRows(db) && a.teacher == teacher && a.course == course
  {
    CoursesInRows(db, teacher);
    hide AssignedRows, CourseRows, CoursesOf, CompletedOf, NoDuplicates, AssignedMean;
    AssignedMeans(db);
    var r :| r in CourseRows(db) && r.teacher == teacher && r.course == course;
    a :| a in AssignedRows(db) && AssignedKey(a) == TeacherAndCourse(r);
  }

  lemma AssignedCoursesMean(db: Database)
    requires UniqueKeys(db)
    ensures NoDuplicates(Project(CourseJoinKey, AssignedCourses(db)))
    ensures forall a :: (exists l :: l in AssignedCourses(db) && l.0.0 == a) <==> Reported(db, a)
  {
    hide *;
    AssignedMeans(db);
    CourseReportRowForRow(db);
    AssignedKeysDistinct(db);
    forall a ensures (exists l :: l in AssignedCourses(db) && l.0.0 == a) <==> Reported(db, a) {
      AssignedJoined(db, a);
      ReportedIf(db, a);
    }
  }

  lemma ReportedIf(db: Database, a: Assigned)
    ensures Reported(db, a) <==>
      a in AssignedRows(db) && (exists u :: u in db.users && u.id == a.teacher) && Exists(db, a.course)
  {
    hide AssignedRows, CoursesOf, CompletedOf;
    if a.course.Some? {
      AssignedFromTables(db, a);
    }
  }

  lemma AssignedKeysDistinct(db: Database)
    requires AssignedCourses(db) == Matched(CourseOf, Matched(UserOf, AssignedRows(db), db.users), db.courses)
    requires NoDuplicates(Project(AssignedKey, AssignedRows(db)))
    ensures NoDuplicates(Project(CourseJoinKey, AssignedCourses(db)))
  {
    hide AssignedRows, Matched, AssignedCourses, Project, NoDuplicates;
    MatchedKeepsDistinct(UserOf, AssignedRows(db), db.users, AssignedKey, UserJoinKey);
    MatchedKeepsDistinct(CourseOf, Matched(UserOf, AssignedRows(db), db.users), db.courses, UserJoinKey, CourseJoinKey);
  }

  lemma AssignedJoined(db: Database, a: Assigned)
    ensures (exists l :: l in AssignedCourses(db) && l.0.0 == a) <==>
      a in AssignedRows(db) && (exists u :: u in db.users && u.id == a.teacher) && Exists(db, a.course)
  {
    hide AssignedRows;
    JoinMembers(UserOf, AssignedRows(db), db.users);
    JoinMembers(CourseOf, InnerJoin(UserOf, AssignedRows(db), db.users), db.courses);
    hide InnerJoin;
    if a in AssignedRows(db) && (exists u :: u in db.users && u.id == a.teacher) && Exists(db, a.course) {
      var u :| u in db.users && u.id == a.teacher;
      var c :| c in db.courses && a.course == Some(c.id);
      assert ((a, u), c) in AssignedCourses(db);
    }
  }

  /** COURSE_SQL has one row a (teacher, course), for exactly a trainer's courses where user and course exist. */
  lemma CourseGrain(db: Database)
    requires UniqueKeys(db)
    ensures NoDuplicates(Project(ReportKey, CourseReport(db)))
    ensures forall t, c, flag ::
      (exists r :: r in CourseReport(db) && r.teacherId == t && r.courseId == c && r.completedFlag == flag)
              <==> Reported(db, Assigned(t, c, flag))
  {
    hide AssignedRows, AssignedCourses, CourseReport, Exists, Reported;
    CourseReportRowForRow(db);
    AssignedCoursesMean(db);
    var joined, report := AssignedCourses(db), CourseReport(db);
    assert Project(ReportKey, report) == Project(CourseJoinKey, joined);
    forall t, c, flag
      ensures (exists r :: r in report && r.teacherId == t && r.courseId == c && r.completedFlag == flag)
         <==> exists l :: l in joined && l.0.0 == Assigned(t, c, flag)
    {
      if exists r :: r in report && r.teacherId == t && r.courseId == c && r.completedFlag == flag {
        var i :| 0 <= i < |report| && ReportKey(report[i]) == (t, c) && report[i].completedFlag == flag;
        assert joined[i] in joined && joined[i].0.0 == Assigned(t, c, flag);
      }
      if i :| 0 <= i < |joined| && joined[i].0.0 == Assigned(t, c, flag) {
        assert report[i] in report;
      }
    }
  }

  // ----- The two datasets agree -----

  function RowFor(teacher: int, completedOnly: bool): CourseReportRow -> bool {
    (r: CourseReportRow) => r.teacherId == teacher && (completedOnly ==> r.completedFlag == 1)
  }

  function CourseId(r: CourseReportRow): Option<int> { r.courseId }

  ghost function Wanted(db: Database, teacher: int, completedOnly: bool): set<Option<int>> {
    if completedOnly then CompletedOf(db, teacher) else CoursesOf(db, teacher)
  }

  /** A teacher's rows in COURSE_SQL are the teacher's courses that exist, each once. */
  lemma CourseReportCount(db: Database, teacher: int, completedOnly: bool)
    requires UniqueKeys(db) && exists u :: u in db.users && u.id == teacher
    ensures |Select(RowFor(teacher, completedOnly), CourseReport(db))|
         == |set c | c in Wanted(db, teacher, completedOnly) && Exists(db, c)|
  {
    hide CourseReport, AssignedRows, CourseRows, CoursesOf, CompletedOf;
    CourseGrain(db);
    var report := CourseReport(db);
    var rows := Select(RowFor(teacher, completedOnly), report);
    SelectKeepsDistinct(RowFor(teacher, completedOnly), report, ReportKey);
    SelectMeans(RowFor(teacher, completedOnly), report);
    var courses := Project(CourseId, rows);
    assert NoDuplicates(courses) by {
      forall i, j | 0 <= i < j < |rows| ensures courses[i] != courses[j] {
        assert rows[i] in rows && rows[j] in rows;
        assert Project(ReportKey, rows)[i] != Project(ReportKey, rows)[j];
      }
    }
    SizeOfNoDuplicates(courses);
    forall c ensures c in courses <==> c in Wanted(db, teacher, completedOnly) && Exists(db, c) {
      CourseListed(db, teacher, completedOnly, c);
    }
    assert (set c | c in courses) == set c | c in Wanted(db, teacher, completedOnly) && Exists(db, c);
  }

  lemma CourseListed(db: Database, teacher: int, completedOnly: bool, c: Option<int>)
    requires UniqueKeys(db) && exists u :: u in db.users && u.id == teacher
    ensures c in Project(CourseId, Select(RowFor(teacher, completedOnly), CourseReport(db)))
       <==> c in Wanted(db, teacher, completedOnly) && Exists(db, c)
  {
    hide CourseReport, Select, Project, Exists, Wanted, UniqueKeys, Reported, AssignedRows;
    var report := CourseReport(db);
    var rows := Select(RowFor(teacher, completedOnly), report);
    CourseGrain(db);
    SelectMeans(RowFor(teacher, completedOnly), report);
    ProjectMembers(CourseId, rows, c);
    if r :| r in rows && CourseId(r) == c {
      ReportedIsWanted(db, teacher, c, r.completedFlag, completedOnly);
    }
    if c in Wanted(db, teacher, completedOnly) && Exists(db, c) {
      var flag := WantedIsReported(db, teacher, c, completedOnly);
      var r :| r in report && r.teacherId == teacher && r.courseId == c && r.completedFlag == flag;
      assert r in rows;
    }
  }

  lemma ReportedIsWanted(db: Database, teacher: int, c: Option<int>, flag: nat, completedOnly: bool)
    requires Reported(db, Assigned(teacher, c, flag)) && (completedOnly ==> flag == 1)
    ensures c in Wanted(db, teacher, completedOnly) && Exists(db, c)
  {
    hide CoursesOf, CompletedOf, Exists;
  }

  lemma WantedIsReported(db: Database, teacher: int, c: Option<int>, completedOnly: bool) returns (flag: nat)
    requires exists u :: u in db.users && u.id == teacher
    requires c in Wanted(db, teacher, completedOnly) && Exists(db, c)
    ensures Reported(db, Assigned(teacher, c, flag)) && (completedOnly ==> flag == 1)
  {
    assert c in CoursesOf(db, teacher);
    hide CoursesOf, CompletedOf, Exists;
    flag := if c in CompletedOf(db, teacher) then 1 else 0;
  }

  lemma RowCountsAgree(db: Database, r: StudentRow)
    requires UniqueKeys(db) && r in StudentReport(db)
    ensures r.coursesAssigned == |Select(RowFor(r.key.teacher, false), CourseReport(db))|
       <==> forall c :: c in CoursesOf(db, r.key.teacher) ==> Exists(db, c)
    ensures r.coursesCompleted == |Select(RowFor(r.key.teacher, true), CourseReport(db))|
       <==> forall c :: c in CompletedOf(db, r.key.teacher) ==> Exists(db, c)
    ensures r.coursesCompleted <= r.coursesAssigned
  {
    hide CourseReport, StudentReport, CourseRows, Exists;
    var t := r.key.teacher;
    StudentRowCounts(db, r);
    CourseReportCount(db, t, false);
    CourseReportCount(db, t, true);
    SubsetSize((set c | c in CoursesOf(db, t) && Exists(db, c)), CoursesOf(db, t));
    SubsetSize((set c | c in CompletedOf(db, t) && Exists(db, c)), CompletedOf(db, t));
    SubsetSize(CompletedOf(db, t), CoursesOf(db, t));
  }

  /**
   * For every row of STUDENT_SQL: its course figures equal the row counts of its teacher in
   * COURSE_SQL exactly when those courses exist in the course table; NULL course ids do no harm.
   */
  lemma CountsAgreeIffCoursesExist(db: Database)
    requires UniqueKeys(db)
    ensures forall r :: r in StudentReport(db) ==>
      && (r.coursesAssigned == |Select(RowFor(r.key.teacher, false), CourseReport(db))|
          <==> forall c :: c in CoursesOf(db, r.key.teacher) ==> Exists(db, c))
      && (r.coursesCompleted == |Select(RowFor(r.key.teacher, true), CourseReport(db))|
          <==> forall c :: c in CompletedOf(db, r.key.teacher) ==> Exists(db, c))
      && r.coursesCompleted <= r.coursesAssigned
  {
    hide *;
    forall r | r in StudentReport(db)
      ensures r.coursesAssigned == |Select(RowFor(r.key.teacher, false), CourseReport(db))|
         <==> forall c :: c in CoursesOf(db, r.key.teacher) ==> Exists(db, c)
      ensures r.coursesCompleted == |Select(RowFor(r.key.teacher, true), CourseReport(db))|
         <==> forall c :: c in CompletedOf(db, r.key.teacher) ==> Exists(db, c)
      ensures r.coursesCompleted <= r.coursesAssigned
    {
      RowCountsAgree(db, r);
    }
  }

  /** Enrolment methods and completions name existing courses, or none. */
  ghost predicate ForeignKeysIntact(db: Database) {
    && (forall e :: e in db.enrols && e.courseid.Some? ==> Exists(db, e.courseid))
    && (forall cc :: cc in db.completions && cc.course.Some? ==> Exists(db, cc.course))
  }

  /** With intact foreign keys the two queries agree on every teacher. */
  lemma QueriesAgree(db: Database)
    requires UniqueKeys(db) && ForeignKeysIntact(db)
    ensures forall r :: r in StudentReport(db) ==>
      && r.coursesAssigned == |Select(RowFor(r.key.teacher, false), CourseReport(db))|
      && r.coursesCompleted == |Select(RowFor(r.key.teacher, true), CourseReport(db))|
      && r.coursesCompleted <= r.coursesAssigned
  {
    hide CourseReport, StudentReport, CourseRows, Exists, UniqueKeys, Select;
    CountsAgreeIffCoursesExist(db);
    forall teacher ensures forall c :: c in CoursesOf(db, teacher) ==> Exists(db, c) {
      CoursesExist(db, teacher);
    }
    assert forall teacher, c :: c in CompletedOf(db, teacher) ==> c in CoursesOf(db, teacher);
  }

  lemma CoursesExist(db: Database, teacher: int)
    requires ForeignKeysIntact(db)
    ensures forall c :: c in CoursesOf(db, teacher) ==> Exists(db, c)
  {
    hide Exists;
  }

  // ----- Where they differ -----

  /** One trainer, one student, and a completion of a course that was deleted. */
  const DELETED_COURSE := Database(
    [Trainer(1, 10)], [ClassroomUser(10, 2)], [Classroom(10, None)], [], [User(1), User(2)], [], [],
    [Completion(1, Some(5))], [], [], [], [], [])

  lemma DeletedCourseIsAssigned()
    ensures UniqueKeys(DELETED_COURSE) && !ForeignKeysIntact(DELETED_COURSE)
    ensures Some(5) in CoursesOf(DELETED_COURSE, 1) && !Exists(DELETED_COURSE, Some(5))
  {
    var db := DELETED_COURSE;
    assert db.trainers[0] in db.trainers && db.completions[0] in db.completions;
  }

  lemma StudentRowOf(db: Database, k: ClassStudent) returns (r: StudentRow)
    requires UniqueKeys(db) && k in ClassStudents(db) && exists c :: c in db.classrooms && c.id == k.classId
    requires exists u :: u in db.users && u.id == k.teacher
    requires exists u :: u in db.users && u.id == k.student
    ensures r in StudentReport(db) && KeyOfRow(r) == k
  {
    hide *;
    StudentGrain(db);
    ProjectMembers(KeyOfRow, StudentReport(db), k);
    r :| r in StudentReport(db) && KeyOfRow(r) == k;
  }

  lemma DeletedCourseDiffers()
    ensures UniqueKeys(DELETED_COURSE) && !ForeignKeysIntact(DELETED_COURSE)
    ensures exists r ::
      && r in StudentReport(DELETED_COURSE)
      && r.coursesAssigned != |Select(RowFor(r.key.teacher, false), CourseReport(DELETED_COURSE))|
  {
    var db, key := DELETED_COURSE, ClassStudent(1, 10, 2);
    hide StudentReport, ClassStudents, CourseReport, CoursesOf, CompletedOf, Exists, UniqueKeys, ForeignKeysIntact;
    hide Select;
    assert db.trainers[0] in db.trainers && db.classroomUsers[0] in db.classroomUsers;
    assert db.classrooms[0] in db.classrooms && db.users[0] in db.users && db.users[1] in db.users;
    ClassStudentsMean(db, key);
    DeletedCourseIsAssigned();
    var r := StudentRowOf(db, key);
    CountsAgreeIffCoursesExist(db);
  }
}
