/**
 * The course-completion card over COURSE_SQL, before formatting
 * (reports/provision_teacher_performance_report.py), against the figures STUDENT_SQL carries.
 */
module CompletionMetrics {
  import opened Wrappers
  import opened Sets
  import opened Sql
  import opened TeacherReport
  import opened TeacherReportProofs

  /** CASE WHEN completed_flag = 1 THEN course_id END */
  function CompletedCourseId(r: CourseReportRow): Option<int> {
    if r.completedFlag == 1 then r.courseId else None
  }

  function AssignedCount(rows: seq<CourseReportRow>): nat {
    CountDistinct(Project(CourseId, rows))
  }

  function CompletedCount(rows: seq<CourseReportRow>): nat {
    CountDistinct(Project(CompletedCourseId, rows))
  }

  /** The card; NULLIF makes it NULL without courses. */
  function CompletionShare(rows: seq<CourseReportRow>): Option<real> {
    if AssignedCount(rows) == 0 then None else Some(CompletedCount(rows) as real / AssignedCount(rows) as real)
  }

  /** Under any filter of the rows the share lies between 0 and 1. */
  lemma ShareWithinUnit(rows: seq<CourseReportRow>)
    ensures CompletedCount(rows) <= AssignedCount(rows)
    ensures CompletionShare(rows).Some? ==> 0.0 <= CompletionShare(rows).value <= 1.0
  {
    var all, done := Project(CourseId, rows), Project(CompletedCourseId, rows);
    forall v | v in NonNull(done) ensures v in NonNull(all) {
      ProjectMembers(CompletedCourseId, rows, v);
      ProjectMembers(CourseId, rows, v);
    }
    SubsetSize(NonNull(done), NonNull(all));
    if AssignedCount(rows) > 0 {
      RatioWithinUnit(CompletedCount(rows), AssignedCount(rows));
    }
  }

  lemma RatioWithinUnit(part: nat, whole: nat)
    requires part <= whole && whole > 0
    ensures 0.0 <= part as real / whole as real <= 1.0
  {
  }

  lemma CountedForTeacher(db: Database, teacher: int)
    requires UniqueKeys(db) && exists u :: u in db.users && u.id == teacher
    requires forall c :: c in CoursesOf(db, teacher) ==> Exists(db, c)
    ensures var rows := Select(RowFor(teacher, false), CourseReport(db));
      AssignedCount(rows) == |CoursesOf(db, teacher)| && CompletedCount(rows) == |CompletedOf(db, teacher)|
  {
    hide CourseReport, Select, Exists, UniqueKeys, CourseRows, Project;
    var rows, finished := Select(RowFor(teacher, false), CourseReport(db)),
        Select(RowFor(teacher, true), CourseReport(db));
    SelectMeans(RowFor(teacher, false), CourseReport(db));
    SelectMeans(RowFor(teacher, true), CourseReport(db));
    forall c ensures c in NonNull(Project(CourseId, rows)) <==> c in CoursesOf(db, teacher) {
      CourseListed(db, teacher, false, c);
    }
    forall c ensures c in NonNull(Project(CompletedCourseId, rows)) <==> c in CompletedOf(db, teacher) {
      CourseListed(db, teacher, true, c);
      ProjectMembers(CourseId, finished, c);
      ProjectMembers(CompletedCourseId, rows, c);
    }
    assert NonNull(Project(CourseId, rows)) == CoursesOf(db, teacher);
    assert NonNull(Project(CompletedCourseId, rows)) == CompletedOf(db, teacher);
  }

  /** Filtered to one teacher, the card is the quotient of the two figures on the teacher's student rows. */
  lemma ShareOfTeacher(db: Database)
    requires UniqueKeys(db) && ForeignKeysIntact(db)
    ensures forall r :: r in StudentReport(db) ==>
      CompletionShare(Select(RowFor(r.key.teacher, false), CourseReport(db)))
        == if r.coursesAssigned == 0 then None else Some(r.coursesCompleted as real / r.coursesAssigned as real)
  {
    hide CourseReport, StudentReport, CourseRows, Exists, UniqueKeys, Select, AssignedCount, CompletedCount;
    forall r | r in StudentReport(db)
      ensures CompletionShare(Select(RowFor(r.key.teacher, false), CourseReport(db)))
           == if r.coursesAssigned == 0 then None else Some(r.coursesCompleted as real / r.coursesAssigned as real)
    {
      StudentRowCounts(db, r);
      CoursesExist(db, r.key.teacher);
      CountedForTeacher(db, r.key.teacher);
    }
  }
}
