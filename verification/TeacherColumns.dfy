/** Every figure of a student row and of a course row, against the tables it is taken from. */
module TeacherColumns {
  import opened Wrappers
  import opened Sql
  import opened TeacherReport
  import opened TeacherReportProofs

  // ----- Counts -----

  function SubmittedBy(user: int): Submission -> bool {
    (s: Submission) => s.submitted && s.userid == user
  }

  function GradedFor(student: int): Grade -> bool {
    (g: Grade) => g.finalgrade.Some? && g.userid == student
  }

  lemma {:induction false} SelectedGroupCount<T(!new), K(!new)>(
    key: T -> K, k: K, p: T -> bool, q: T -> bool, rows: seq<T>)
    requires forall x :: q(x) <==> p(x) && key(x) == k
    ensures |GroupOf(key, k, Select(p, rows))| == CountIf(q, rows)
  {
    if rows != [] {
      var n := |rows| - 1;
      SelectedGroupCount(key, k, p, q, rows[..n]);
      GroupOfOne(key, k, Select(p, rows[..n]), rows[n]);
    }
  }

  lemma GroupOfOne<T, K>(key: T -> K, k: K, rows: seq<T>, x: T)
    ensures GroupOf(key, k, rows + [x]) == GroupOf(key, k, rows) + (if key(x) == k then [x] else [])
    ensures rows + [] == rows
  {
    assert (rows + [x])[..|rows|] == rows;
  }

  lemma EmptyGroup<T(!new), K(!new)>(key: T -> K, k: K, rows: seq<T>)
    ensures GroupOf(key, k, rows) == [] <==> !exists x :: x in rows && key(x) == k
  {
    GroupOfMeans(key, k, rows);
    var group := GroupOf(key, k, rows);
    assert group != [] ==> group[0] in group;
  }

  // ----- Scores -----

  datatype Tally = Tally(count: nat, sum: real) {
    function Plus(other: Tally): Tally {
      Tally(count + other.count, sum + other.sum)
    }

    /** AVG over no values is NULL. */
    function Mean(): Option<real> {
      if count == 0 then None else Some(sum / count as real)
    }
  }

  predicate IsBaseline(i: GradeItem) { i.baseline }

  predicate IsMastery(i: GradeItem) { i.mastery }

  /** The percentages of one grade: one for each item it belongs to that is wanted and has a maximum. */
  function PercentsOf(g: Grade, items: seq<GradeItem>, wanted: GradeItem -> bool): Tally {
    if items == [] then Tally(0, 0.0)
    else
      var i := items[|items| - 1];
      PercentsOf(g, items[..|items| - 1], wanted).Plus(
        if i.id == g.itemid && i.grademax > 0.0 && wanted(i) && g.finalgrade.Some?
        then Tally(1, g.finalgrade.value / i.grademax * 100.0) else Tally(0, 0.0))
  }

  /** The percentages of a student's grades in the wanted items. */
  function PercentsFor(student: int, grades: seq<Grade>, items: seq<GradeItem>, wanted: GradeItem -> bool): Tally {
    if grades == [] then Tally(0, 0.0)
    else
      var g := grades[|grades| - 1];
      PercentsFor(student, grades[..|grades| - 1], items, wanted).Plus(
        if g.userid == student then PercentsOf(g, items, wanted) else Tally(0, 0.0))
  }

  /** What a student's group of the joined and selected rows adds up to. */
  function GroupTally(student: int, p: ((Grade, GradeItem)) -> bool, rows: seq<(Grade, GradeItem)>): Tally {
    TallyOf(GroupOf(Graded, student, Select(p, rows)))
  }

  function TallyOf(group: seq<(Grade, GradeItem)>): Tally {
    Tally(|group|, PercentSum(group))
  }

  lemma TallyOne(group: seq<(Grade, GradeItem)>, l: (Grade, GradeItem))
    ensures TallyOf(group + [l]) == TallyOf(group).Plus(Tally(1, Percentage(l)))
    ensures TallyOf(group).Plus(Tally(0, 0.0)) == TallyOf(group) && group + [] == group
  {
    hide PercentSum, Percentage;
    PercentSumOne(group, l);
  }

  function Percentage(l: (Grade, GradeItem)): real {
    if l.1.grademax > 0.0 then l.0.finalgrade.GetOr(0.0) / l.1.grademax * 100.0 else 0.0
  }

  lemma PercentSumOne(rows: seq<(Grade, GradeItem)>, l: (Grade, GradeItem))
    ensures PercentSum(rows + [l]) == PercentSum(rows) + Percentage(l)
  {
    assert (rows + [l])[..|rows|] == rows;
  }

  lemma SelectLast<T>(p: T -> bool, rows: seq<T>)
    requires rows != []
    ensures Select(p, rows) == Select(p, rows[..|rows| - 1]) + (if p(rows[|rows| - 1]) then [rows[|rows| - 1]] else [])
  {
  }

  lemma GroupTallyNext(student: int, p: ((Grade, GradeItem)) -> bool, rows: seq<(Grade, GradeItem)>)
    requires rows != []
    ensures var last := rows[|rows| - 1];
      GroupTally(student, p, rows) == GroupTally(student, p, rows[..|rows| - 1]).Plus(
        if !p(last) || Graded(last) != student then Tally(0, 0.0)
        else Tally(1, Percentage(last)))
  {
    hide Percentage, TallyOf, Select, GroupOf;
    var n := |rows| - 1;
    var before := Select(p, rows[..n]);
    SelectLast(p, rows);
    GroupOfOne(Graded, student, before, rows[n]);
    TallyOne(GroupOf(Graded, student, before), rows[n]);
  }

  lemma {:induction false} GroupTallyAppend(
    student: int, p: ((Grade, GradeItem)) -> bool, a: seq<(Grade, GradeItem)>, b: seq<(Grade, GradeItem)>)
    ensures GroupTally(student, p, a + b) == GroupTally(student, p, a).Plus(GroupTally(student, p, b))
  {
    hide GroupTally;
    if b == [] {
      assert a + b == a;
      assert GroupTally(student, p, []) == Tally(0, 0.0) by { NothingTallied(student, p); }
    } else {
      var n := |b| - 1;
      GroupTallyAppend(student, p, a, b[..n]);
      assert (a + b)[..|a + b| - 1] == a + b[..n];
      GroupTallyNext(student, p, a + b);
      GroupTallyNext(student, p, b);
    }
  }

  lemma NothingTallied(student: int, p: ((Grade, GradeItem)) -> bool)
    ensures GroupTally(student, p, []) == Tally(0, 0.0)
  {
  }

  /** The condition of the subquery on scores: graded, with a maximum, of the wanted kind. */
  ghost predicate Selects(p: ((Grade, GradeItem)) -> bool, wanted: GradeItem -> bool) {
    forall l :: p(l) <==> l.0.finalgrade.Some? && l.1.grademax > 0.0 && wanted(l.1)
  }

  lemma {:induction false} OneGradeTally(
    student: int, p: ((Grade, GradeItem)) -> bool, wanted: GradeItem -> bool, g: Grade, items: seq<GradeItem>)
    requires Selects(p, wanted)
    ensures GroupTally(student, p, PairAll(g, Matching(ItemOf, g, items)))
         == if g.userid == student then PercentsOf(g, items, wanted) else Tally(0, 0.0)
  {
    hide GroupTally;
    if items == [] {
      NothingTallied(student, p);
    } else {
      var n := |items| - 1;
      OneGradeTally(student, p, wanted, g, items[..n]);
      var before, all := PairAll(g, Matching(ItemOf, g, items[..n])), PairAll(g, Matching(ItemOf, g, items));
      if ItemOf(g, items[n]) {
        assert all[..|all| - 1] == before && all[|all| - 1] == (g, items[n]);
        GroupTallyNext(student, p, all);
      } else {
        assert all == before;
      }
    }
  }

  lemma {:induction false} StudentTally(
    student: int, p: ((Grade, GradeItem)) -> bool, wanted: GradeItem -> bool, grades: seq<Grade>, items: seq<GradeItem>)
    requires Selects(p, wanted)
    ensures GroupTally(student, p, InnerJoin(ItemOf, grades, items)) == PercentsFor(student, grades, items, wanted)
  {
    hide GroupTally, PairAll, Matching, PercentsOf, Selects;
    if grades == [] {
      NothingTallied(student, p);
    } else {
      var n := |grades| - 1;
      StudentTally(student, p, wanted, grades[..n], items);
      OneGradeTally(student, p, wanted, grades[n], items);
      GroupTallyAppend(student, p, InnerJoin(ItemOf, grades[..n], items),
                       PairAll(grades[n], Matching(ItemOf, grades[n], items)));
    }
  }

  lemma BaselineAverage(db: Database, l: J0)
    ensures Percent(Lookup(BaselineOf, l, Baselines(db)))
         == PercentsFor(l.0.student, db.grades, db.gradeItems, IsBaseline).Mean()
  {
    var joined := InnerJoin(ItemOf, db.grades, db.gradeItems);
    StudentTally(l.0.student, BaselineGrade, IsBaseline, db.grades, db.gradeItems);
    GroupByLookup(BaselineOf, l, l.0.student, Graded, Average, Select(BaselineGrade, joined));
    EmptyGroup(Graded, l.0.student, Select(BaselineGrade, joined));
  }

  lemma MasteryAverage(db: Database, l: J1)
    ensures Percent(Lookup(MasteryOf, l, Masteries(db)))
         == PercentsFor(l.0.0.student, db.grades, db.gradeItems, IsMastery).Mean()
  {
    var joined := InnerJoin(ItemOf, db.grades, db.gradeItems);
    StudentTally(l.0.0.student, MasteryGrade, IsMastery, db.grades, db.gradeItems);
    GroupByLookup(MasteryOf, l, l.0.0.student, Graded, Average, Select(MasteryGrade, joined));
    EmptyGroup(Graded, l.0.0.student, Select(MasteryGrade, joined));
  }

  lemma VolumeCount(db: Database, l: J2)
    ensures var v := Lookup(VolumeOf, l, Volumes(db));
      (if v.Some? then v.value.grades else 0) == CountIf(GradedFor(l.0.0.0.student), db.grades)
  {
    var student := l.0.0.0.student;
    GroupByLookup(VolumeOf, l, student, GradeUser, CountGrades, Select(HasGrade, db.grades));
    SelectedGroupCount(GradeUser, student, HasGrade, GradedFor(student), db.grades);
    EmptyGroup(GradeUser, student, Select(HasGrade, db.grades));
  }

  lemma ArtefactGroup(db: Database, teacher: int)
    requires IsTrainer(db, teacher)
    ensures var group := GroupOf(Submitter, teacher, Select(SubmittedByTrainer(db), db.submissions));
      |group| == CountIf(SubmittedBy(teacher), db.submissions)
  {
    DistinctMeans(Project(TrainerId, db.trainers));
    ProjectMembers(TrainerId, db.trainers, teacher);
    OnlySubmitter(db, teacher, db.submissions);
  }

  lemma {:induction false} OnlySubmitter(db: Database, teacher: int, submissions: seq<Submission>)
    requires teacher in TrainerIds(db)
    ensures |GroupOf(Submitter, teacher, Select(SubmittedByTrainer(db), submissions))|
         == CountIf(SubmittedBy(teacher), submissions)
  {
    hide TrainerIds;
    SelectedGroupCount(Submitter, teacher, SubmittedByTrainer(db), SubmittedBy(teacher), submissions);
  }

  lemma ArtefactCountOf(db: Database, l: J4)
    requires IsTrainer(db, l.0.0.0.0.0.teacher)
    ensures var a := Lookup(ArtefactsOf, l, Artefacts(db));
      (if a.Some? then a.value.submitted else 0) == CountIf(SubmittedBy(l.0.0.0.0.0.teacher), db.submissions)
  {
    var teacher, rows := l.0.0.0.0.0.teacher, Select(SubmittedByTrainer(db), db.submissions);
    hide SubmittedByTrainer, SubmittedBy, IsTrainer;
    GroupByLookup(ArtefactsOf, l, teacher, Submitter, CountSubmissions, rows);
    ArtefactGroup(db, teacher);
    EmptyGroup(Submitter, teacher, rows);
  }

  // ----- STUDENT_SQL -----

  /** The figures of a graded row, from the tables. */
  ghost predicate GradedMean(db: Database, g: GradedRow) {
    && g.artefacts == CountIf(SubmittedBy(g.key.teacher), db.submissions)
    && g.baseline == PercentsFor(g.key.student, db.grades, db.gradeItems, IsBaseline).Mean()
    && g.mastery == PercentsFor(g.key.student, db.grades, db.gradeItems, IsMastery).Mean()
    && g.grades == CountIf(GradedFor(g.key.student), db.grades)
    && (exists c :: c in db.classrooms && c.id == g.key.classId && c.schoolCode == g.schoolCode)
  }

  lemma ClassTrainer(db: Database, k: ClassStudent)
    requires k in ClassStudents(db)
    ensures IsTrainer(db, k.teacher)
  {
    ClassStudentsMean(db, k);
  }

  lemma JoinedMeans(db: Database, l: J5)
    requires LooksUp(db, l) && IsTrainer(db, l.0.0.0.0.0.0.teacher)
    requires l.0.0.0.0.0.1 in db.classrooms && l.0.0.0.0.0.1.id == l.0.0.0.0.0.0.classId
    ensures GradedMean(db, AsGraded(l))
  {
    hide Lookup, Baselines, Masteries, Volumes, Artefacts, TeacherCounts, CountIf, PercentsFor, Percent, IsTrainer;
    BaselineAverage(db, l.0.0.0.0.0);
    MasteryAverage(db, l.0.0.0.0);
    VolumeCount(db, l.0.0.0);
    ArtefactCountOf(db, l.0);
  }

  lemma GradedFigures(db: Database, g: GradedRow)
    requires g in GradedRows(db)
    ensures GradedMean(db, g)
  {
    hide GradedJoined, ClassStudents, LooksUp, GradedMean, IsTrainer;
    var j0 := InnerJoin(ClassOf, ClassStudents(db), db.classrooms);
    GradedRowForRow(db, j0);
    var joined := GradedJoined(db, j0);
    var i :| 0 <= i < |joined| && Project(AsGraded, joined)[i] == g;
    JoinMembers(ClassOf, ClassStudents(db), db.classrooms);
    assert j0[i] in j0;
    ClassTrainer(db, j0[i].0);
    JoinedMeans(db, joined[i]);
  }

  ghost predicate SchoolFound(db: Database, code: Option<int>, school: Option<int>) {
    if exists s :: s in db.schools && code == Some(s.id) then school == code else school == None
  }

  /**
   * Every column of a row of STUDENT_SQL, from the tables: submissions and courses of the teacher,
   * the averages and the number of the student's grades, the gain, and the school of the class.
   */
  lemma StudentRowMeans(db: Database, r: StudentRow)
    requires UniqueKeys(db) && r in StudentReport(db)
    ensures r.coursesAssigned == |CoursesOf(db, r.key.teacher)|
    ensures r.coursesCompleted == |CompletedOf(db, r.key.teacher)|
    ensures r.artefacts == CountIf(SubmittedBy(r.key.teacher), db.submissions)
    ensures r.baseline == PercentsFor(r.key.student, db.grades, db.gradeItems, IsBaseline).Mean()
    ensures r.mastery == PercentsFor(r.key.student, db.grades, db.gradeItems, IsMastery).Mean()
    ensures r.assessments == CountIf(GradedFor(r.key.student), db.grades)
    ensures r.gain.Some? <==> r.baseline.Some? && r.mastery.Some? && r.baseline.value != 0.0
    ensures r.gain.Some? ==> r.gain.value * r.baseline.value == r.mastery.value - r.baseline.value
    ensures exists c :: c in db.classrooms && c.id == r.key.classId && SchoolFound(db, c.schoolCode, r.schoolId)
  {
    hide GradedRows, CoursesOf, CompletedOf, StudentReport, CountIf, PercentsFor;
    StudentRowCounts(db, r);
    var l := StudentRowOrigin(db, r);
    GradedFigures(db, l.0.0);
    LookupMeans(SchoolOf, l, db.schools);
    hide Lookup;
    assert GradedMean(db, l.0.0);
    var c :| c in db.classrooms && c.id == r.key.classId && c.schoolCode == l.0.0.schoolCode;
    assert SchoolFound(db, c.schoolCode, r.schoolId);
  }

  lemma StudentRowOrigin(db: Database, r: StudentRow) returns (l: ((GradedRow, User), User))
    requires UniqueKeys(db) && r in StudentReport(db)
    ensures l.0.0 in GradedRows(db) && r == StudentOutput((l, Lookup(SchoolOf, l, db.schools)))
  {
    hide GradedRows, StudentReport, Lookup, Matched, StudentOutput;
    NamedRowForRow(db);
    var i :| 0 <= i < |StudentReport(db)| && StudentReport(db)[i] == r;
    l := NamedRows(db)[i];
    JoinMembers(StudentUser, InnerJoin(TeacherUser, GradedRows(db), db.users), db.users);
    JoinMembers(TeacherUser, GradedRows(db), db.users);
    assert l in NamedRows(db);
  }

  // ----- COURSE_SQL -----

  lemma CourseRowArtefacts(db: Database, l: Categorised)
    requires IsTrainer(db, l.0.0.0.teacher)
    ensures var a := Lookup(ArtefactsOfTeacher, l, Artefacts(db));
      (if a.Some? then a.value.submitted else 0) == CountIf(SubmittedBy(l.0.0.0.teacher), db.submissions)
  {
    var teacher, rows := l.0.0.0.teacher, Select(SubmittedByTrainer(db), db.submissions);
    hide SubmittedByTrainer, SubmittedBy, IsTrainer;
    GroupByLookup(ArtefactsOfTeacher, l, teacher, Submitter, CountSubmissions, rows);
    ArtefactGroup(db, teacher);
    EmptyGroup(Submitter, teacher, rows);
  }

  /** Every row of COURSE_SQL: a trainer's course with its completion flag, and the teacher's submissions. */
  lemma CourseReportMeans(db: Database, r: CourseReportRow)
    requires UniqueKeys(db) && r in CourseReport(db)
    ensures r.courseId in CoursesOf(db, r.teacherId)
    ensures r.completedFlag == if r.courseId in CompletedOf(db, r.teacherId) then 1 else 0
    ensures r.artefacts == CountIf(SubmittedBy(r.teacherId), db.submissions)
  {
    hide CourseReport, CoursesOf, CompletedOf, CountIf, Lookup, Artefacts, AssignedCourses;
    CourseGrain(db);
    assert Reported(db, Assigned(r.teacherId, r.courseId, r.completedFlag));
    CourseReportRowForRow(db);
    var i :| 0 <= i < |CourseReport(db)| && CourseReport(db)[i] == r;
    var l := CourseRowOrigin(db, i);
    TeachesCourses(db, r.teacherId, r.courseId);
    CourseRowArtefacts(db, l);
  }

  lemma TeachesCourses(db: Database, teacher: int, course: Option<int>)
    requires course in CoursesOf(db, teacher)
    ensures IsTrainer(db, teacher)
  {
  }

  lemma CourseRowOrigin(db: Database, i: nat) returns (l: Categorised)
    requires UniqueKeys(db) && i < |CourseReport(db)|
    ensures l.0.0.0.teacher == CourseReport(db)[i].teacherId
    ensures var a := Lookup(ArtefactsOfTeacher, l, Artefacts(db));
      CourseReport(db)[i].artefacts == if a.Some? then a.value.submitted else 0
  {
    hide AssignedCourses, Artefacts, Lookup, OneMatch;
    var categorised := LeftJoin(CategoryOf, AssignedCourses(db), db.categories);
    forall l: Categorised ensures OneMatch(ArtefactsOfTeacher, l, Artefacts(db)) {
      CourseArtefactsOnce(db, l);
    }
    LeftJoinRowForRow(ArtefactsOfTeacher, categorised, Artefacts(db));
    l := categorised[i];
  }
}
