/** The rows of the programme dataset, column by column, against the tables they are taken from. */
module ProgrammeColumns {
  import opened Wrappers
  import opened Sql
  import opened ProgrammeReport
  import opened ProgrammeReportProofs

  // ----- programme_courses -----

  ghost predicate InProgrammeCourses(db: Database, c: Course) {
    c in db.courses && c.id > 1 && db.text.isProgramme(c)
  }

  predicate Names(pc: ProgrammeCourse, c: Course) {
    pc.courseId == c.id && pc.name == c.fullname && pc.shortname == c.shortname
  }

  /** The category of a course, if it has one. */
  ghost predicate InCategory(db: Database, c: Course, category: string) {
    if exists cc :: cc in db.categories && c.category == Some(cc.id)
    then exists cc :: cc in db.categories && c.category == Some(cc.id) && category == cc.name
    else category == "Uncategorised"
  }

  lemma ProgrammeCourseMeans(db: Database, pc: ProgrammeCourse)
    ensures pc in ProgrammeCourses(db) <==>
      exists c :: InProgrammeCourses(db, c) && Names(pc, c) && InCategory(db, c, pc.category)
  {
    var joined := LeftJoin(CategoryOf, db.courses, db.categories);
    LeftJoinMembers(CategoryOf, db.courses, db.categories);
    SelectMeans(InProgramme(db.text), joined);
    ProjectMembers(AsProgramme, Select(InProgramme(db.text), joined), pc);
    hide LeftJoin, Select, Project;
    if pc in ProgrammeCourses(db) {
      var l :| l in joined && InProgramme(db.text)(l) && AsProgramme(l) == pc;
      assert InProgrammeCourses(db, l.0) && Names(pc, l.0) && InCategory(db, l.0, pc.category);
    }
    if c :| InProgrammeCourses(db, c) && Names(pc, c) && InCategory(db, c, pc.category) {
      if exists cc :: cc in db.categories && c.category == Some(cc.id) {
        var cc :| cc in db.categories && c.category == Some(cc.id) && pc.category == cc.name;
        assert (c, Some(cc)) in joined && AsProgramme((c, Some(cc))) == pc;
      } else {
        assert (c, None) in joined && AsProgramme((c, None)) == pc;
      }
    }
  }

  /** Of every programme course there is a row. */
  lemma SomeProgrammeCourse(db: Database, c: Course) returns (pc: ProgrammeCourse)
    requires InProgrammeCourses(db, c)
    ensures pc in ProgrammeCourses(db) && Names(pc, c)
  {
    var category := "Uncategorised";
    if exists cc :: cc in db.categories && c.category == Some(cc.id) {
      var cc :| cc in db.categories && c.category == Some(cc.id);
      category := cc.name;
    }
    pc := ProgrammeCourse(c.id, c.fullname, c.shortname, category);
    hide ProgrammeCourses;
    assert InCategory(db, c, pc.category) && Names(pc, c);
    ProgrammeCourseMeans(db, pc);
  }

  lemma CourseOfRow(db: Database, pc: ProgrammeCourse) returns (c: Course)
    requires pc in ProgrammeCourses(db)
    ensures InProgrammeCourses(db, c) && Names(pc, c) && InCategory(db, c, pc.category)
  {
    hide ProgrammeCourses;
    ProgrammeCourseMeans(db, pc);
    c :| InProgrammeCourses(db, c) && Names(pc, c) && InCategory(db, c, pc.category);
  }

  // ----- participants -----

  /** The user has one of four roles in the context of a programme course. */
  ghost predicate IsParticipant(db: Database, course: int, user: int) {
    && (exists c :: InProgrammeCourses(db, c) && c.id == course)
    && exists ra, r, ctx :: ra in db.roleAssignments && r in db.roles && ctx in db.contexts
         && HoldsRole(ra, r, ctx, Member(course, user))
  }

  ghost predicate HoldsRole(ra: RoleAssignment, r: Role, ctx: Context, m: Member) {
    && ra.userid == m.userId && r.id == ra.roleid && ctx.id == ra.contextid && ctx.level == 50
    && ctx.instanceid == m.courseId && r.shortname in {"employee", "editingteacher", "trainer", "teacher"}
  }

  function RoleContexts(db: Database): seq<((RoleAssignment, Role), Context)> {
    InnerJoin(ContextOf, InnerJoin(RoleOf, db.roleAssignments, db.roles), db.contexts)
  }

  function Participating(db: Database): seq<(((RoleAssignment, Role), Context), ProgrammeCourse)> {
    Select(ProgrammeRole, InnerJoin(CourseOfContext, RoleContexts(db), ProgrammeCourses(db)))
  }

  lemma ParticipatingMeans(db: Database)
    ensures forall l :: l in Participating(db) <==>
      && l.0.0.0 in db.roleAssignments && l.0.0.1 in db.roles && l.0.1 in db.contexts && l.1 in ProgrammeCourses(db)
      && l.1.courseId == l.0.1.instanceid && HoldsRole(l.0.0.0, l.0.0.1, l.0.1, AsParticipant(l))
  {
    hide ProgrammeCourses;
    SelectMeans(ProgrammeRole, InnerJoin(CourseOfContext, RoleContexts(db), ProgrammeCourses(db)));
    JoinMembers(CourseOfContext, RoleContexts(db), ProgrammeCourses(db));
    JoinMembers(ContextOf, InnerJoin(RoleOf, db.roleAssignments, db.roles), db.contexts);
    JoinMembers(RoleOf, db.roleAssignments, db.roles);
    hide InnerJoin, Select;
  }

  /** `participants` has each pair of a programme course and a user with such a role in it once. */
  lemma ParticipantsMean(db: Database)
    ensures NoDuplicates(Participants(db))
    ensures forall m :: m in Participants(db) <==> IsParticipant(db, m.courseId, m.userId)
  {
    hide ProgrammeCourses, InProgrammeCourses, IsParticipant;
    DistinctMeans(Project(AsParticipant, Participating(db)));
    hide InnerJoin, Select, Project, Distinct;
    forall m ensures m in Participants(db) <==> IsParticipant(db, m.courseId, m.userId) {
      ProjectMembers(AsParticipant, Participating(db), m);
      ParticipantMeans(db, m);
    }
  }

  lemma ParticipantMeans(db: Database, m: Member)
    ensures (exists l :: l in Participating(db) && AsParticipant(l) == m) <==> IsParticipant(db, m.courseId, m.userId)
  {
    hide ProgrammeCourses, InProgrammeCourses, Participating;
    ParticipatingMeans(db);
    if l :| l in Participating(db) && AsParticipant(l) == m {
      var c := CourseOfRow(db, l.1);
    }
    if IsParticipant(db, m.courseId, m.userId) {
      var c :| InProgrammeCourses(db, c) && c.id == m.courseId;
      var pc := SomeProgrammeCourse(db, c);
      var ra, r, ctx :| ra in db.roleAssignments && r in db.roles && ctx in db.contexts && HoldsRole(ra, r, ctx, m);
      assert (((ra, r), ctx), pc) in Participating(db) && AsParticipant((((ra, r), ctx), pc)) == m;
    }
  }

  // ----- union_rows -----

  /** The first of the conditions that holds decides the kind of a submission. */
  ghost predicate IsSubmissionKind(text: Text, name: string, c: Course, kind: string) {
    var micro, observation := text.like(name, "micro assessment"), text.like(name, "observation");
    var artefact := text.like(name, "artefact") || text.like(name, "artifact") || text.like(c.fullname, "artefact")
      || text.like(c.fullname, "artifact") || text.upperLike(c.shortname, "ART");
    && (kind == "micro_assessment" <==> micro)
    && (kind == "classroom_observation" <==> !micro && observation)
    && (kind == "artefact" <==> !micro && !observation && artefact)
    && (kind == "other_submission" <==> !micro && !observation && !artefact)
  }

  ghost predicate IsAssessmentKind(text: Text, name: string, kind: string) {
    var micro, post := text.like(name, "micro assessment"), text.like(name, "post");
    var baseline := text.like(name, "baseline") || text.like(name, "pre test") || text.like(name, "pre-test")
      || text.like(name, "pre course") || text.like(name, "pre survey");
    var observation := text.like(name, "observation");
    var artefact := text.like(name, "artefact") || text.like(name, "artifact");
    && (kind == "micro_assessment" <==> micro)
    && (kind == "baseline" <==> !micro && baseline)
    && (kind == "post_test" <==> !micro && !baseline && post)
    && (kind == "classroom_observation" <==> !micro && !baseline && !post && observation)
    && (kind == "artefact" <==> !micro && !baseline && !post && !observation && artefact)
    && (kind == "other_assessment" <==> !micro && !baseline && !post && !observation && !artefact)
  }

  ghost predicate IsConcept(text: Text, name: string, concept: Option<string>) {
    && (concept.Some? <==> text.like(name, "micro assessment"))
    && (concept.Some? ==> concept.value == text.lastPart(name))
  }

  /** A score in percent: NULL without a grade, for a negative grade or without a positive maximum. */
  ghost predicate IsScore(grade: Option<real>, maximum: real, score: Option<real>) {
    && (score.Some? <==> grade.Some? && grade.value >= 0.0 && maximum > 0.0)
    && (score.Some? ==> score.value * maximum == 100.0 * grade.value)
  }

  /** The grade of a submission: any of those for its assignment and user, NULL without one. */
  ghost predicate IsGrade(db: Database, s: Submission, grade: Option<real>) {
    if grade.Some? then exists ag :: ag in db.assignGrades && IsGradeOf(s, ag) && grade.value == ag.grade
    else forall ag :: ag in db.assignGrades ==> !IsGradeOf(s, ag)
  }

  ghost predicate SubmissionRow(db: Database, s: Submission, w: Assign, c: Course, grade: Option<real>, a: Activity) {
    && s in db.submissions && s.submitted && w in db.assigns && w.id == s.assignment
    && InProgrammeCourses(db, c) && c.id == w.course && IsGrade(db, s, grade)
    && a.userId == s.userid && a.courseId == Some(c.id) && a.name == Some(w.name) && a.scoredOn == Some(s.modified)
    && IsSubmissionKind(db.text, w.name, c, a.kind) && IsConcept(db.text, w.name, a.concept)
    && IsScore(grade, w.grade, a.score)
  }

  ghost predicate AssessmentRow(db: Database, g: Grade, i: GradeItem, c: Course, a: Activity) {
    && g in db.grades && i in db.gradeItems && i.id == g.itemid && InProgrammeCourses(db, c) && c.id == i.courseid
    && g.finalgrade.Some? && g.finalgrade.value >= 0.0 && i.itemname.Some? && i.otherModule
    && a.userId == g.userid && a.courseId == Some(c.id) && a.name == i.itemname && a.scoredOn == Some(g.modified)
    && IsAssessmentKind(db.text, i.itemname.value, a.kind) && IsConcept(db.text, i.itemname.value, a.concept)
    && IsScore(g.finalgrade, i.grademax, a.score)
  }

  ghost predicate ObservationRow(db: Database, ou: ObservationUser, o: Observation, a: Activity) {
    && ou in db.observationUsers && o in db.observations && o.id == ou.observationsid
    && a == Activity(ou.userid, None, "classroom_observation", Some(o.name), None, None, Some(ou.created))
  }

  ghost predicate EnrolmentRow(db: Database, a: Activity) {
    && a.courseId.Some? && IsParticipant(db, a.courseId.value, a.userId)
    && a == Activity(a.userId, a.courseId, "enrolment", None, None, None, None)
  }

  lemma SubmissionKindMeans(text: Text, name: string, pc: ProgrammeCourse, c: Course)
    requires Names(pc, c)
    ensures forall kind :: IsSubmissionKind(text, name, c, kind) <==> kind == SubmissionKind(text, name, pc)
  {
    assert "artefact"[0] != "other_submission"[0] && "micro_assessment"[0] != "classroom_observation"[0];
  }

  lemma AssessmentKindMeans(text: Text, name: string)
    ensures forall kind :: IsAssessmentKind(text, name, kind) <==> kind == AssessmentKind(text, name)
  {
    assert "artefact"[0] != "other_assessment"[0] && "micro_assessment"[0] != "classroom_observation"[0];
    assert "baseline"[0] != "post_test"[0];
  }

  lemma ConceptMeans(text: Text, name: string)
    ensures forall concept :: IsConcept(text, name, concept) <==> concept == Concept(text, name)
  {
  }

  lemma Cancel(x: real, y: real, m: real)
    requires m > 0.0 && x * m == y * m
    ensures x == y
  {
    assert (x - y) * m == 0.0;
  }

  lemma ScoreMeans(grade: real, maximum: real, score: Option<real>)
    ensures IsScore(Some(grade), maximum, score) <==>
      score == if maximum > 0.0 && grade >= 0.0 then Some(grade / maximum * 100.0) else None
  {
    if maximum > 0.0 {
      var percent := grade / maximum * 100.0;
      assert grade / maximum * maximum == grade;
      assert percent * maximum == 100.0 * grade;
      if score.Some? && score.value * maximum == 100.0 * grade {
        Cancel(score.value, percent, maximum);
      }
    }
  }

  type GradedSubmission = (Submitted, Option<AssignGrade>)

  function GradedSubmissions(db: Database): seq<GradedSubmission> {
    Select(WasSubmitted, LeftJoin(GradeOf, HandedIn(db, db.submissions), db.assignGrades))
  }

  lemma GradedSubmissionsMean(db: Database)
    ensures forall l :: l in GradedSubmissions(db) <==>
      && l.0.0.0 in db.submissions && l.0.0.0.submitted && l.0.0.1 in db.assigns && l.0.0.1.id == l.0.0.0.assignment
      && l.0.1 in ProgrammeCourses(db) && l.0.1.courseId == l.0.0.1.course
      && (if l.1.Some? then l.1.value in db.assignGrades && GradeOf(l.0, l.1.value)
          else forall ag :: ag in db.assignGrades ==> !GradeOf(l.0, ag))
  {
    hide ProgrammeCourses, GradeOf;
    var handed := HandedIn(db, db.submissions);
    SelectMeans(WasSubmitted, LeftJoin(GradeOf, handed, db.assignGrades));
    LeftJoinMembers(GradeOf, handed, db.assignGrades);
    JoinMembers(CourseOfAssign, InnerJoin(AssignOf, db.submissions, db.assigns), ProgrammeCourses(db));
    JoinMembers(AssignOf, db.submissions, db.assigns);
    hide InnerJoin, LeftJoin, Select;
  }

  function GradeValue(g: Option<AssignGrade>): Option<real> {
    if g.Some? then Some(g.value.grade) else None
  }

  /** The activity made of a submission with its assignment, course and grade, and only that one. */
  lemma SubmissionActivity(db: Database, l: GradedSubmission, c: Course, a: Activity)
    requires l in GradedSubmissions(db) && InProgrammeCourses(db, c) && Names(l.0.1, c)
    ensures SubmissionRow(db, l.0.0.0, l.0.0.1, c, GradeValue(l.1), a) <==> a == AsSubmission(db.text)(l)
  {
    hide InProgrammeCourses, GradedSubmissions, ProgrammeCourses, IsSubmissionKind, SubmissionKind;
    hide IsConcept, Concept, IsScore;
    GradedSubmissionsMean(db);
    var w := l.0.0.1;
    SubmissionKindMeans(db.text, w.name, l.0.1, c);
    ConceptMeans(db.text, w.name);
    assert IsGrade(db, l.0.0.0, GradeValue(l.1));
    if l.1.Some? {
      ScoreMeans(l.1.value.grade, w.grade, a.score);
    } else {
      assert IsScore(None, w.grade, a.score) <==> a.score == None by { NoScore(w.grade, a.score); }
    }
  }

  lemma NoScore(maximum: real, score: Option<real>)
    ensures IsScore(None, maximum, score) <==> score == None
  {
  }

  lemma SubmissionRowsMean(db: Database, a: Activity)
    ensures a in SubmissionRows(db) <==> exists s, w, c, grade :: SubmissionRow(db, s, w, c, grade, a)
  {
    hide GradedSubmissions, AsSubmission, SubmissionRow, InProgrammeCourses;
    assert SubmissionRows(db) == Project(AsSubmission(db.text), GradedSubmissions(db)) by { SubmissionRowsAre(db); }
    ProjectMembers(AsSubmission(db.text), GradedSubmissions(db), a);
    hide SubmissionRows;
    if l :| l in GradedSubmissions(db) && AsSubmission(db.text)(l) == a {
      GradedSubmissionsMean(db);
      var c := CourseOfRow(db, l.0.1);
      SubmissionActivity(db, l, c, a);
    }
    if s, w, c, grade :| SubmissionRow(db, s, w, c, grade, a) {
      var l := SubmissionWith(db, s, w, c, grade, a);
      SubmissionActivity(db, l, c, a);
    }
  }

  lemma SubmissionRowsAre(db: Database)
    ensures SubmissionRows(db) == Project(AsSubmission(db.text), GradedSubmissions(db))
  {
  }

  lemma SubmissionWith(db: Database, s: Submission, w: Assign, c: Course, grade: Option<real>, a: Activity)
    returns (l: GradedSubmission)
    requires SubmissionRow(db, s, w, c, grade, a)
    ensures l in GradedSubmissions(db) && Names(l.0.1, c) && InProgrammeCourses(db, c)
    ensures l.0.0.0 == s && l.0.0.1 == w && GradeValue(l.1) == grade
  {
    hide GradedSubmissions, InProgrammeCourses, IsSubmissionKind, IsConcept, IsScore, ProgrammeCourses;
    GradedSubmissionsMean(db);
    var pc := SomeProgrammeCourse(db, c);
    var g: Option<AssignGrade> := None;
    if grade.Some? {
      var ag :| ag in db.assignGrades && IsGradeOf(s, ag) && grade.value == ag.grade;
      g := Some(ag);
    }
    l := (((s, w), pc), g);
  }

  type GradedItem = ((Grade, GradeItem), ProgrammeCourse)

  lemma AssessmentActivity(db: Database, l: GradedItem, c: Course, a: Activity)
    requires l.0.0 in db.grades && l.0.1 in db.gradeItems && l.0.1.id == l.0.0.itemid && WasGraded(l)
    requires InProgrammeCourses(db, c) && c.id == l.0.1.courseid
    ensures AssessmentRow(db, l.0.0, l.0.1, c, a) <==> a == AsAssessment(db.text)(l)
  {
    hide InProgrammeCourses, IsAssessmentKind, AssessmentKind, IsConcept, Concept, IsScore;
    AssessmentKindMeans(db.text, l.0.1.itemname.value);
    ConceptMeans(db.text, l.0.1.itemname.value);
    ScoreMeans(l.0.0.finalgrade.value, l.0.1.grademax, a.score);
  }

  lemma AssessmentRowsMean(db: Database, a: Activity)
    ensures a in AssessmentRows(db) <==> exists g, i, c :: AssessmentRow(db, g, i, c, a)
  {
    hide ProgrammeCourses, InProgrammeCourses, AsAssessment;
    var pairs := InnerJoin(ItemOf, db.grades, db.gradeItems);
    var joined := InnerJoin(CourseOfItem, pairs, ProgrammeCourses(db));
    ProjectMembers(AsAssessment(db.text), Select(WasGraded, joined), a);
    SelectMeans(WasGraded, joined);
    JoinMembers(CourseOfItem, pairs, ProgrammeCourses(db));
    JoinMembers(ItemOf, db.grades, db.gradeItems);
    hide InnerJoin, Select, Project, AssessmentRow, WasGraded;
    if l :| l in joined && WasGraded(l) && AsAssessment(db.text)(l) == a {
      var c := CourseOfRow(db, l.1);
      AssessmentActivity(db, l, c, a);
    }
    if g, i, c :| AssessmentRow(db, g, i, c, a) {
      AssessmentParts(db, g, i, c, a);
      var pc := SomeProgrammeCourse(db, c);
      AssessmentActivity(db, ((g, i), pc), c, a);
      assert ((g, i), pc) in joined;
    }
  }

  lemma AssessmentParts(db: Database, g: Grade, i: GradeItem, c: Course, a: Activity)
    requires AssessmentRow(db, g, i, c, a)
    ensures g in db.grades && i in db.gradeItems && i.id == g.itemid && InProgrammeCourses(db, c) && c.id == i.courseid
    ensures forall pc: ProgrammeCourse :: WasGraded(((g, i), pc))
  {
    hide InProgrammeCourses, IsAssessmentKind, IsConcept, IsScore;
  }

  lemma ObservationRowsMean(db: Database, a: Activity)
    ensures a in ObservationRows(db) <==> exists ou, o :: ObservationRow(db, ou, o, a)
  {
    var joined := InnerJoin(ObservationOf, db.observationUsers, db.observations);
    ProjectMembers(AsObservation, joined, a);
    JoinMembers(ObservationOf, db.observationUsers, db.observations);
    if l :| l in joined && AsObservation(l) == a {
      assert ObservationRow(db, l.0, l.1, a);
    }
    if ou, o :| ObservationRow(db, ou, o, a) {
      assert (ou, o) in joined && AsObservation((ou, o)) == a;
    }
  }

  lemma EnrolmentRowsMean(db: Database, a: Activity)
    ensures a in Project(AsEnrolment, Participants(db)) <==> EnrolmentRow(db, a)
  {
    hide Participants, IsParticipant;
    ParticipantsMean(db);
    ProjectMembers(AsEnrolment, Participants(db), a);
    if EnrolmentRow(db, a) {
      assert Member(a.courseId.value, a.userId) in Participants(db);
      assert AsEnrolment(Member(a.courseId.value, a.userId)) == a;
    }
  }

  /**
   * The rows of the union, from the tables: every submission of a programme course with each of its
   * grades, every grade of a programme item, every observation, and every participant.
   */
  lemma UnionRowsMean(db: Database, a: Activity)
    ensures a in UnionRows(db) <==>
      || (exists s, w, c, grade :: SubmissionRow(db, s, w, c, grade, a))
      || (exists g, i, c :: AssessmentRow(db, g, i, c, a))
      || (exists ou, o :: ObservationRow(db, ou, o, a))
      || EnrolmentRow(db, a)
  {
    hide *;
    SubmissionRowsMean(db, a);
    AssessmentRowsMean(db, a);
    ObservationRowsMean(db, a);
    EnrolmentRowsMean(db, a);
    UnionParts(db, a);
  }

  lemma UnionParts(db: Database, a: Activity)
    ensures a in UnionRows(db) <==>
      || a in SubmissionRows(db) || a in AssessmentRows(db) || a in ObservationRows(db)
      || a in Project(AsEnrolment, Participants(db))
  {
    hide SubmissionRows, AssessmentRows, ObservationRows, Participants;
  }

  // ----- The dataset -----

  ghost predicate SchoolNamed(db: Database, id: Option<int>, name: string) {
    if exists s :: s in db.schools && id == Some(s.id)
    then exists s :: s in db.schools && id == Some(s.id) && name == s.name
    else name == "No school set"
  }

  ghost predicate CourseNamed(db: Database, id: Option<int>, name: Option<string>) {
    if id.None? then name == None
    else exists c :: InProgrammeCourses(db, c) && id == Some(c.id) && name == Some(c.fullname)
  }

  /**
   * With existing users, every column of every row of the dataset: the activity, the user's school,
   * the course's name, the flags, and the course's learners on the row numbered 1.
   */
  lemma DatasetRowMeans(db: Database, ranks: seq<nat>, i: nat)
    requires UniqueKeys(db) && |ranks| == |UnionRows(db)| && i < |ranks|
    requires forall a :: a in UnionRows(db) ==> UserExists(db, a)
    ensures i < |Dataset(db, ranks)|
    ensures var row, a := Dataset(db, ranks)[i], UnionRows(db)[i];
      && row.activity == a
      && row.enrolledFlag == (if EnrolmentRow(db, a) then 1 else 0)
      && row.completedFlag == (if HasCompleted(db, a) then 1 else 0)
      && row.courseLearners
           == (if ranks[i] == 1 && a.courseId.Some? then |LearnersOfCourse(db, a.courseId.value)| else 0)
      && CourseNamed(db, a.courseId, row.courseName)
      && SchoolNamed(db, row.schoolId, row.schoolName)
      && exists u :: u in db.users && u.id == a.userId && row.schoolId == u.openSchool
  {
    hide *;
    DatasetRowForRow(db, ranks);
    FlagsMean(db, ranks);
    var a := UnionRows(db)[i];
    assert a in UnionRows(db);
    var u := RowUser(db, Dataset(db, ranks)[i], (a, ranks[i]));
    LearnersOfRow(db, ((a, ranks[i]), u));
    JoinedColumns(db, ((a, ranks[i]), u));
    EnrolmentRowsMean(db, a);
  }

  lemma RowUser(db: Database, row: DataRow, r: Ranked) returns (u: User)
    requires ComesFrom(db, row, r)
    ensures u in db.users && u.id == r.0.userId && row == DatasetOf(db, (r, u))
  {
    hide DatasetOf;
    u :| u in db.users && u.id == r.0.userId && row == DatasetOf(db, (r, u));
  }

  lemma JoinedColumns(db: Database, l: D1)
    requires UniqueKeys(db) && l.0.0 in UnionRows(db)
    ensures var row := DatasetOf(db, l);
      && CourseNamed(db, l.0.0.courseId, row.courseName)
      && row.schoolId == l.1.openSchool && SchoolNamed(db, row.schoolId, row.schoolName)
      && 0 <= row.enrolledFlag <= 1 && 0 <= row.completedFlag <= 1
  {
    hide UnionRows, ProgrammeCourses, LearnersByCourse, CompletedMembers, Lookup, InProgrammeCourses;
    LookupMeans(SchoolOf, l, db.schools);
    var d2 := (l, Lookup(SchoolOf, l, db.schools));
    LookupMeans(CourseOf, d2, ProgrammeCourses(db));
    if l.0.0.courseId.Some? {
      RowIsProgramme(db, l.0.0);
      CourseFound(db, d2);
      var pc := Lookup(CourseOf, d2, ProgrammeCourses(db)).value;
      var c := CourseOfRow(db, pc);
    }
  }
}
