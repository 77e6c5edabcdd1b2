/** The programme dataset keeps the rows of the union, and counts each course's learners once. */
module ProgrammeReportProofs {
  import opened Wrappers
  import opened Sql
  import opened ProgrammeReport

  ghost predicate UniqueKeys(db: Database) {
    && (forall i, j :: 0 <= i < j < |db.users| ==> db.users[i].id != db.users[j].id)
    && (forall i, j :: 0 <= i < j < |db.schools| ==> db.schools[i].id != db.schools[j].id)
    && (forall i, j :: 0 <= i < j < |db.courses| ==> db.courses[i].id != db.courses[j].id)
    && (forall i, j :: 0 <= i < j < |db.categories| ==> db.categories[i].id != db.categories[j].id)
  }

  ghost predicate UserExists(db: Database, a: Activity) {
    exists u :: u in db.users && u.id == a.userId
  }

  // ----- Programme courses -----

  ghost predicate IsProgrammeCourse(db: Database, id: int) {
    exists c :: c in db.courses && c.id == id && c.id > 1 && db.text.isProgramme(c)
  }

  function CourseKey(pc: ProgrammeCourse): int { pc.courseId }

  function JoinedCourseKey(l: (Course, Option<Category>)): int { l.0.id }

  lemma ProgrammeCoursesMean(db: Database)
    requires UniqueKeys(db)
    ensures NoDuplicates(Project(CourseKey, ProgrammeCourses(db)))
    ensures forall id :: (exists pc :: pc in ProgrammeCourses(db) && pc.courseId == id) <==> IsProgrammeCourse(db, id)
  {
    var joined := LeftJoin(CategoryOf, db.courses, db.categories);
    LeftJoinRowForRow(CategoryOf, db.courses, db.categories);
    assert NoDuplicates(Project(JoinedCourseKey, joined));
    var kept := Select(InProgramme(db.text), joined);
    SelectKeepsDistinct(InProgramme(db.text), joined, JoinedCourseKey);
    SelectMeans(InProgramme(db.text), joined);
    assert Project(CourseKey, ProgrammeCourses(db)) == Project(JoinedCourseKey, kept);
    hide UniqueKeys, NoDuplicates;
    forall id ensures (exists pc :: pc in ProgrammeCourses(db) && pc.courseId == id) <==> IsProgrammeCourse(db, id) {
      ProgrammeCourseIds(db, joined, id);
    }
  }

  lemma ProgrammeCourseIds(db: Database, joined: seq<(Course, Option<Category>)>, id: int)
    requires joined == LeftJoin(CategoryOf, db.courses, db.categories) && |joined| == |db.courses|
    requires forall i :: 0 <= i < |joined| ==> joined[i].0 == db.courses[i]
    ensures (exists pc :: pc in ProgrammeCourses(db) && pc.courseId == id) <==> IsProgrammeCourse(db, id)
  {
    var kept := Select(InProgramme(db.text), joined);
    SelectMeans(InProgramme(db.text), joined);
    forall pc ensures pc in ProgrammeCourses(db) <==> exists l :: l in kept && AsProgramme(l) == pc {
      ProjectMembers(AsProgramme, kept, pc);
    }
    hide ProgrammeCourses, Select, LeftJoin, InProgramme;
    if pc :| pc in ProgrammeCourses(db) && pc.courseId == id {
      var l :| l in kept && AsProgramme(l) == pc;
      JoinedCourse(db, joined, l);
    }
    if c :| c in db.courses && c.id == id && c.id > 1 && db.text.isProgramme(c) {
      var l := CourseJoined(db, joined, c);
      assert l in kept && AsProgramme(l) in ProgrammeCourses(db);
    }
  }

  lemma JoinedCourse(db: Database, joined: seq<(Course, Option<Category>)>, l: (Course, Option<Category>))
    requires |joined| == |db.courses| && forall i :: 0 <= i < |joined| ==> joined[i].0 == db.courses[i]
    requires l in joined && InProgramme(db.text)(l)
    ensures IsProgrammeCourse(db, l.0.id)
  {
    var i :| 0 <= i < |joined| && joined[i] == l;
    assert db.courses[i] in db.courses;
  }

  lemma CourseJoined(db: Database, joined: seq<(Course, Option<Category>)>, c: Course)
    returns (l: (Course, Option<Category>))
    requires |joined| == |db.courses| && forall i :: 0 <= i < |joined| ==> joined[i].0 == db.courses[i]
    requires c in db.courses && c.id > 1 && db.text.isProgramme(c)
    ensures l in joined && l.0 == c && InProgramme(db.text)(l)
  {
    var i :| 0 <= i < |db.courses| && db.courses[i] == c;
    l := joined[i];
  }

  lemma CourseOnce(db: Database, l: D2)
    requires UniqueKeys(db)
    ensures OneMatch(CourseOf, l, ProgrammeCourses(db))
  {
    hide ProgrammeCourses;
    ProgrammeCoursesMean(db);
    var courses := ProgrammeCourses(db);
    forall i, j | 0 <= i < j < |courses| ensures !(CourseOf(l, courses[i]) && CourseOf(l, courses[j])) {
      assert Project(CourseKey, courses)[i] != Project(CourseKey, courses)[j];
    }
  }

  // ----- Learners -----

  /** The distinct users enrolled in a course. */
  function LearnersOfCourse(db: Database, id: int): set<int> {
    set e, ue | e in db.enrols && ue in db.userEnrolments && ue.enrolid == e.id && e.courseid == id :: ue.userid
  }

  lemma LearnersOnce(db: Database, l: D3)
    ensures OneMatch(LearnersOf, l, LearnersByCourse(db))
  {
    hide Enrolments;
    var c := l.0.0.0.0.courseId;
    var rows := LearnersByCourse(db);
    var keys := Distinct(Project(EnrolledCourse, Enrolments(db)));
    DistinctMeans(Project(EnrolledCourse, Enrolments(db)));
    assert forall i :: 0 <= i < |rows| ==>
        rows[i] == CountLearners(keys[i], GroupOf(EnrolledCourse, keys[i], Enrolments(db)));
  }

  /** The learners of a programme course are its distinct enrolled users, or 0 by COALESCE. */
  lemma LearnersCounted(db: Database, l: D3, id: int)
    requires UniqueKeys(db) && l.0.0.0.0.courseId == Some(id) && IsProgrammeCourse(db, id)
    ensures var n := Lookup(LearnersOf, l, LearnersByCourse(db));
      (if n.Some? then n.value.count else 0) == |LearnersOfCourse(db, id)|
  {
    hide Enrolments, IsProgrammeCourse;
    GroupByLookup(LearnersOf, l, id, EnrolledCourse, CountLearners, Enrolments(db));
    var group := GroupOf(EnrolledCourse, id, Enrolments(db));
    GroupOfMeans(EnrolledCourse, id, Enrolments(db));
    var users := Project(EnrolledUser, group);
    forall u ensures u in users <==> u in LearnersOfCourse(db, id) {
      ProjectMembers(EnrolledUser, group, u);
      LearnerEnrolled(db, id, u);
    }
    assert (set u | u in users) == LearnersOfCourse(db, id);
    if !exists x :: x in Enrolments(db) && EnrolledCourse(x) == id {
      assert forall i :: 0 <= i < |group| ==> group[i] in group;
      assert LearnersOfCourse(db, id) == {};
    }
  }

  lemma LearnerEnrolled(db: Database, id: int, u: int)
    requires UniqueKeys(db) && IsProgrammeCourse(db, id)
    ensures (exists l :: l in Enrolments(db) && EnrolledCourse(l) == id && EnrolledUser(l) == u)
       <==> u in LearnersOfCourse(db, id)
  {
    hide ProgrammeCourses, IsProgrammeCourse;
    ProgrammeCoursesMean(db);
    var pairs := InnerJoin(EnrolmentOf, db.enrols, db.userEnrolments);
    JoinMembers(EnrolmentOf, db.enrols, db.userEnrolments);
    JoinMembers(CourseOfEnrol, pairs, ProgrammeCourses(db));
    if u in LearnersOfCourse(db, id) {
      var e, ue :|
        e in db.enrols && ue in db.userEnrolments && ue.enrolid == e.id && e.courseid == id && ue.userid == u;
      var pc :| pc in ProgrammeCourses(db) && pc.courseId == id;
      assert (e, ue) in pairs;
      assert ((e, ue), pc) in Enrolments(db);
    }
  }

  // ----- Completions -----

  lemma CompletionOnce(db: Database, l: D4)
    ensures OneMatch(CompletionOf, l, CompletedMembers(db))
  {
    DistinctMeans(Project(AsCompleted, InnerJoin(CourseOfCompletion, db.completions, ProgrammeCourses(db))));
  }

  // ----- The joins of the dataset -----

  function DatasetOf(db: Database, l: D1): DataRow {
    var d2 := (l, Lookup(SchoolOf, l, db.schools));
    var d3 := (d2, Lookup(CourseOf, d2, ProgrammeCourses(db)));
    var d4 := (d3, Lookup(LearnersOf, d3, LearnersByCourse(db)));
    Output((d4, Lookup(CompletionOf, d4, CompletedMembers(db))))
  }

  /** The four left joins keep the rows one for one. */
  lemma LeftJoinsRowForRow(db: Database, ranked: seq<Ranked>)
    requires UniqueKeys(db)
    ensures var d1 := InnerJoin(UserOf, ranked, db.users);
      && |Joined(db, ranked)| == |d1|
      && forall i :: 0 <= i < |d1| ==> Output(Joined(db, ranked)[i]) == DatasetOf(db, d1[i])
  {
    hide ProgrammeCourses, LearnersByCourse, CompletedMembers, Output;
    var d1 := InnerJoin(UserOf, ranked, db.users);
    LeftJoinRowForRow(SchoolOf, d1, db.schools);
    var d2 := LeftJoin(SchoolOf, d1, db.schools);
    forall l: D2 ensures OneMatch(CourseOf, l, ProgrammeCourses(db)) {
      CourseOnce(db, l);
    }
    LeftJoinRowForRow(CourseOf, d2, ProgrammeCourses(db));
    var d3 := LeftJoin(CourseOf, d2, ProgrammeCourses(db));
    forall l: D3 ensures OneMatch(LearnersOf, l, LearnersByCourse(db)) {
      LearnersOnce(db, l);
    }
    LeftJoinRowForRow(LearnersOf, d3, LearnersByCourse(db));
    var d4 := LeftJoin(LearnersOf, d3, LearnersByCourse(db));
    forall l: D4 ensures OneMatch(CompletionOf, l, CompletedMembers(db)) {
      CompletionOnce(db, l);
    }
    LeftJoinRowForRow(CompletionOf, d4, CompletedMembers(db));
  }

  ghost predicate ComesFrom(db: Database, row: DataRow, r: Ranked) {
    exists u :: u in db.users && u.id == r.0.userId && row == DatasetOf(db, (r, u))
  }

  /** With existing users, the dataset is the union, row for row, however the rows are numbered. */
  lemma DatasetRowForRow(db: Database, ranks: seq<nat>)
    requires UniqueKeys(db) && |ranks| == |UnionRows(db)|
    requires forall a :: a in UnionRows(db) ==> UserExists(db, a)
    ensures |Dataset(db, ranks)| == |UnionRows(db)|
    ensures forall i :: 0 <= i < |UnionRows(db)| ==>
      Dataset(db, ranks)[i].activity == UnionRows(db)[i]
      && ComesFrom(db, Dataset(db, ranks)[i], (UnionRows(db)[i], ranks[i]))
  {
    hide UnionRows, DatasetOf, Joined;
    var ranked := WithRanks(UnionRows(db), ranks);
    forall r | r in ranked ensures OneMatch(UserOf, r, db.users) && HasMatch(UserOf, r, db.users) {
      var i :| 0 <= i < |ranked| && ranked[i] == r;
      assert UserExists(db, UnionRows(db)[i]);
      LookupMeans(UserOf, r, db.users);
    }
    InnerJoinRowForRow(UserOf, ranked, db.users);
    LeftJoinsRowForRow(db, ranked);
    var d1 := InnerJoin(UserOf, ranked, db.users);
    forall i | 0 <= i < |d1|
      ensures ComesFrom(db, Dataset(db, ranks)[i], ranked[i]) && Dataset(db, ranks)[i].activity == UnionRows(db)[i]
    {
      ActivityKept(db, d1[i]);
      LookupMeans(UserOf, ranked[i], db.users);
    }
  }

  lemma ActivityKept(db: Database, l: D1)
    ensures DatasetOf(db, l).activity == l.0.0
  {
  }

  ghost predicate HasCompleted(db: Database, a: Activity) {
    a.courseId.Some? && IsProgrammeCourse(db, a.courseId.value) &&
        Completion(a.userId, a.courseId.value) in db.completions
  }

  lemma CompletedMembersMean(db: Database, m: Member)
    requires UniqueKeys(db)
    ensures m in CompletedMembers(db) <==>
      IsProgrammeCourse(db, m.courseId) && Completion(m.userId, m.courseId) in db.completions
  {
    hide ProgrammeCourses, IsProgrammeCourse, UniqueKeys;
    var joined := InnerJoin(CourseOfCompletion, db.completions, ProgrammeCourses(db));
    DistinctMeans(Project(AsCompleted, joined));
    ProjectMembers(AsCompleted, joined, m);
    JoinMembers(CourseOfCompletion, db.completions, ProgrammeCourses(db));
    ProgrammeCoursesMean(db);
    if IsProgrammeCourse(db, m.courseId) && Completion(m.userId, m.courseId) in db.completions {
      var pc :| pc in ProgrammeCourses(db) && pc.courseId == m.courseId;
      assert (Completion(m.userId, m.courseId), pc) in joined;
    }
  }

  lemma CompletionFound(db: Database, l: D4)
    requires UniqueKeys(db)
    ensures Lookup(CompletionOf, l, CompletedMembers(db)).Some? <==> HasCompleted(db, l.0.0.0.0.0)
  {
    hide CompletedMembers, IsProgrammeCourse;
    LookupMeans(CompletionOf, l, CompletedMembers(db));
    var a := l.0.0.0.0.0;
    if a.courseId.Some? {
      CompletedMembersMean(db, Member(a.courseId.value, a.userId));
    }
  }

  lemma CourseFound(db: Database, l: D2)
    requires UniqueKeys(db)
    ensures Lookup(CourseOf, l, ProgrammeCourses(db)).Some? <==>
      l.0.0.0.courseId.Some? && IsProgrammeCourse(db, l.0.0.0.courseId.value)
  {
    hide ProgrammeCourses, IsProgrammeCourse;
    LookupMeans(CourseOf, l, ProgrammeCourses(db));
    ProgrammeCoursesMean(db);
  }

  /**
   * The flags of every row of the dataset: completed exactly when its participant has a completion
   * of its course, enrolled exactly on the participants' own rows; a course name exactly on rows
   * with a course.
   */
  lemma FlagsMean(db: Database, ranks: seq<nat>)
    requires UniqueKeys(db) && |ranks| == |UnionRows(db)|
    requires forall a :: a in UnionRows(db) ==> UserExists(db, a)
    ensures |Dataset(db, ranks)| == |UnionRows(db)|
    ensures forall i :: 0 <= i < |UnionRows(db)| ==>
      var row := Dataset(db, ranks)[i];
      && (row.completedFlag == 1 <==> HasCompleted(db, UnionRows(db)[i]))
      && (row.enrolledFlag == 1 <==> UnionRows(db)[i] in Project(AsEnrolment, Participants(db)))
      && (row.courseName.Some? <==> UnionRows(db)[i].courseId.Some?)
  {
    DatasetRowForRow(db, ranks);
    RowsAreProgramme(db);
    hide UnionRows, Joined, Dataset, ProgrammeCourses, LearnersByCourse, CompletedMembers, Lookup, HasCompleted,
         IsProgrammeCourse;
    forall i | 0 <= i < |UnionRows(db)|
      ensures Dataset(db, ranks)[i].completedFlag == 1 <==> HasCompleted(db, UnionRows(db)[i])
      ensures Dataset(db, ranks)[i].enrolledFlag == 1 <==> UnionRows(db)[i] in Project(AsEnrolment, Participants(db))
      ensures Dataset(db, ranks)[i].courseName.Some? <==> UnionRows(db)[i].courseId.Some?
    {
      var r := (UnionRows(db)[i], ranks[i]);
      assert r.0 in UnionRows(db);
      EnrolmentKind(db, r.0);
      var u :| u in db.users && u.id == r.0.userId && Dataset(db, ranks)[i] == DatasetOf(db, (r, u));
      var d2 := ((r, u), Lookup(SchoolOf, (r, u), db.schools));
      CourseFound(db, d2);
      var d3 := (d2, Lookup(CourseOf, d2, ProgrammeCourses(db)));
      CompletionFound(db, (d3, Lookup(LearnersOf, d3, LearnersByCourse(db))));
    }
  }

  /** Without that hypothesis too: the dataset has exactly the rows of the union with a user, in order. */
  lemma OnlyUserlessRowsDropped(db: Database, ranks: seq<nat>)
    requires UniqueKeys(db) && |ranks| == |UnionRows(db)|
    ensures Project(ActivityColumn, Dataset(db, ranks)) == Select(HasUser(db), UnionRows(db))
  {
    hide UnionRows, Joined, DatasetOf;
    var ranked := WithRanks(UnionRows(db), ranks);
    LeftJoinsRowForRow(db, ranked);
    InnerJoinSelects(UserOf, ranked, db.users);
    MatchedActivities(db, ranked);
    var d1 := Matched(UserOf, ranked, db.users);
    forall i | 0 <= i < |d1| ensures Dataset(db, ranks)[i].activity == JoinedActivity(d1[i]) {
      ActivityKept(db, d1[i]);
    }
    assert Project(ActivityColumn, Dataset(db, ranks)) == Project(JoinedActivity, d1);
    assert Project(RankedActivity, ranked) == UnionRows(db);
  }

  function ActivityColumn(r: DataRow): Activity { r.activity }

  function JoinedActivity(l: D1): Activity { l.0.0 }

  function RankedActivity(r: Ranked): Activity { r.0 }

  ghost function HasUser(db: Database): Activity -> bool {
    (a: Activity) => UserExists(db, a)
  }

  lemma UserMatches(db: Database, r: Ranked)
    ensures HasMatch(UserOf, r, db.users) <==> UserExists(db, r.0)
  {
    LookupMeans(UserOf, r, db.users);
  }

  lemma {:induction false} MatchedActivities(db: Database, ranked: seq<Ranked>)
    ensures Project(JoinedActivity, Matched(UserOf, ranked, db.users)) ==
      Select(HasUser(db), Project(RankedActivity, ranked))
  {
    hide UserExists, Lookup;
    if ranked != [] {
      var n := |ranked| - 1;
      MatchedActivities(db, ranked[..n]);
      UserMatches(db, ranked[n]);
      assert Project(RankedActivity, ranked)[..n] == Project(RankedActivity, ranked[..n]);
      var before := Matched(UserOf, ranked[..n], db.users);
      assert forall x :: Project(JoinedActivity, before + [x]) == Project(JoinedActivity, before) + [JoinedActivity(x)];
    }
  }

  lemma KindsDiffer(text: Text, name: string, pc: ProgrammeCourse)
    ensures SubmissionKind(text, name, pc) != "enrolment" && AssessmentKind(text, name) != "enrolment"
  {
    assert "post_test"[0] != "enrolment"[0];
  }

  /** A row of the union is of kind "enrolment" exactly when it stems from a participant. */
  lemma EnrolmentKind(db: Database, a: Activity)
    requires a in UnionRows(db)
    ensures a.kind == "enrolment" <==> a in Project(AsEnrolment, Participants(db))
  {
    hide Participants, ProgrammeCourses, SubmissionKind, AssessmentKind;
    if a in SubmissionRows(db) {
      var pairs := InnerJoin(CourseOfAssign, InnerJoin(AssignOf, db.submissions, db.assigns), ProgrammeCourses(db));
      var rows := Select(WasSubmitted, LeftJoin(GradeOf, pairs, db.assignGrades));
      ProjectMembers(AsSubmission(db.text), rows, a);
      var l :| l in rows && AsSubmission(db.text)(l) == a;
      KindsDiffer(db.text, l.0.0.1.name, l.0.1);
    } else if a in AssessmentRows(db) {
      var rows := Select(WasGraded,
          InnerJoin(CourseOfItem, InnerJoin(ItemOf, db.grades, db.gradeItems), ProgrammeCourses(db)));
      ProjectMembers(AsAssessment(db.text), rows, a);
      var l :| l in rows && AsAssessment(db.text)(l) == a;
      KindsDiffer(db.text, l.0.1.itemname.GetOr(""), l.1);
    } else if a in ObservationRows(db) {
      ProjectMembers(AsObservation, InnerJoin(ObservationOf, db.observationUsers, db.observations), a);
    }
    ProjectMembers(AsEnrolment, Participants(db), a);
  }

  // ----- One row a submission -----

  predicate IsSubmitted(l: Submitted) { l.0.0.submitted }

  function SubmissionOf(l: Submitted): Submission { l.0.0 }

  ghost predicate UniqueAssignments(db: Database) {
    forall i, j :: 0 <= i < j < |db.assigns| ==> db.assigns[i].id != db.assigns[j].id
  }

  /** Submitted, for an assignment of a programme course. */
  ghost predicate IsCounted(db: Database, s: Submission) {
    s.submitted && exists a :: a in db.assigns && a.id == s.assignment && IsProgrammeCourse(db, a.course)
  }

  ghost function Counted(db: Database): Submission -> bool {
    (s: Submission) => IsCounted(db, s)
  }

  /** At most one grade was given to this user for this assignment. */
  ghost predicate GradedOnce(db: Database, s: Submission) {
    forall i, j :: 0 <= i < j < |db.assignGrades| ==>
      !(IsGradeOf(s, db.assignGrades[i]) && IsGradeOf(s, db.assignGrades[j]))
  }

  predicate IsGradeOf(s: Submission, g: AssignGrade) { g.assignment == s.assignment && g.userid == s.userid }

  lemma OneAssignment(db: Database, s: Submission)
    requires UniqueAssignments(db)
    ensures OneMatch(AssignOf, s, db.assigns)
  {
  }

  lemma OneCourse(db: Database, l: (Submission, Assign))
    requires UniqueKeys(db)
    ensures OneMatch(CourseOfAssign, l, ProgrammeCourses(db))
    ensures HasMatch(CourseOfAssign, l, ProgrammeCourses(db)) <==> IsProgrammeCourse(db, l.1.course)
  {
    hide ProgrammeCourses, IsProgrammeCourse;
    ProgrammeCoursesMean(db);
    LookupMeans(CourseOfAssign, l, ProgrammeCourses(db));
    var courses := ProgrammeCourses(db);
    forall i, j | 0 <= i < j < |courses| ensures !(CourseOfAssign(l, courses[i]) && CourseOfAssign(l, courses[j])) {
      assert Project(CourseKey, courses)[i] != Project(CourseKey, courses)[j];
    }
  }

  lemma IsCountedFor(db: Database, s: Submission, a: Assign)
    requires UniqueAssignments(db) && a in db.assigns && a.id == s.assignment
    ensures IsCounted(db, s) <==> s.submitted && IsProgrammeCourse(db, a.course)
  {
    hide IsProgrammeCourse;
    assert forall b :: b in db.assigns && b.id == s.assignment ==> b == a;
  }

  /** One submission joins to itself with its assignment and course, if it is for a programme course. */
  lemma HandedInOne(db: Database, s: Submission)
    requires UniqueKeys(db) && UniqueAssignments(db)
    ensures var joined := InnerJoin(CourseOfAssign, PairAll(s, Matching(AssignOf, s, db.assigns)),
      ProgrammeCourses(db));
      && |joined| <= 1 && (forall l :: l in joined ==> SubmissionOf(l) == s)
      && (|joined| == 1 && s.submitted <==> IsCounted(db, s))
  {
    OneAssignment(db, s);
    PairedOnce(AssignOf, s, db.assigns);
    LookupMeans(AssignOf, s, db.assigns);
    hide ProgrammeCourses, IsProgrammeCourse, UniqueKeys, UniqueAssignments, Matching, Lookup, PairAll, OneMatch;
    if HasMatch(AssignOf, s, db.assigns) {
      var a := Lookup(AssignOf, s, db.assigns).value;
      OneCourse(db, (s, a));
      PairedOnce(CourseOfAssign, (s, a), ProgrammeCourses(db));
      JoinOfOne(CourseOfAssign, (s, a), ProgrammeCourses(db));
      hide InnerJoin, IsCounted;
      IsCountedFor(db, s, a);
    }
  }

  lemma JoinOfOne<A(!new), B(!new)>(on: (A, B) -> bool, a: A, rs: seq<B>)
    ensures InnerJoin(on, [a], rs) == PairAll(a, Matching(on, a, rs))
  {
    assert [a][..0] == [];
    assert InnerJoin(on, [], rs) == [];
  }

  lemma JoinOneMore<A(!new), B(!new)>(on: (A, B) -> bool, ls: seq<A>, a: A, rs: seq<B>)
    ensures InnerJoin(on, ls + [a], rs) == InnerJoin(on, ls, rs) + PairAll(a, Matching(on, a, rs))
  {
    assert (ls + [a])[..|ls|] == ls;
  }

  lemma Reassociate<T>(a: seq<T>, b: seq<T>, c: seq<T>)
    ensures (a + b) + c == a + (b + c)
  {
  }

  lemma SelectSnoc<A>(p: A -> bool, ls: seq<A>, a: A)
    ensures Select(p, ls + [a]) == Select(p, ls) + (if p(a) then [a] else [])
  {
    assert (ls + [a])[..|ls|] == ls;
  }

  lemma {:induction false} JoinAppend<A(!new), B(!new)>(on: (A, B) -> bool, a: seq<A>, b: seq<A>, rs: seq<B>)
    ensures InnerJoin(on, a + b, rs) == InnerJoin(on, a, rs) + InnerJoin(on, b, rs)
  {
    if b == [] {
      assert a + b == a;
    } else {
      hide *;
      var n := |b| - 1;
      JoinAppend(on, a, b[..n], rs);
      JoinOneMore(on, a + b[..n], b[n], rs);
      JoinOneMore(on, b[..n], b[n], rs);
      assert a + b == a + b[..n] + [b[n]] && b == b[..n] + [b[n]];
      Reassociate(InnerJoin(on, a, rs), InnerJoin(on, b[..n], rs), PairAll(b[n], Matching(on, b[n], rs)));
    }
  }

  function HandedInBy(db: Database, s: Submission): seq<Submitted> {
    InnerJoin(CourseOfAssign, PairAll(s, Matching(AssignOf, s, db.assigns)), ProgrammeCourses(db))
  }

  lemma HandedInOneMore(db: Database, submissions: seq<Submission>, s: Submission)
    ensures HandedIn(db, submissions + [s]) == HandedIn(db, submissions) + HandedInBy(db, s)
  {
    hide InnerJoin, PairAll, Matching, ProgrammeCourses;
    JoinOneMore(AssignOf, submissions, s, db.assigns);
    JoinAppend(CourseOfAssign, InnerJoin(AssignOf, submissions, db.assigns),
               PairAll(s, Matching(AssignOf, s, db.assigns)), ProgrammeCourses(db));
  }

  lemma KeptOfAtMostOne(joined: seq<Submitted>, s: Submission)
    requires |joined| <= 1 && forall l :: l in joined ==> SubmissionOf(l) == s
    ensures Project(SubmissionOf, Select(IsSubmitted, joined)) == if |joined| == 1 && s.submitted then [s] else []
  {
    if |joined| == 1 {
      assert joined[0] in joined && joined == [joined[0]] && joined[..0] == [];
      assert Select(IsSubmitted, []) == [];
    }
  }

  lemma KeptOne(db: Database, s: Submission)
    requires UniqueKeys(db) && UniqueAssignments(db)
    ensures Project(SubmissionOf, Select(IsSubmitted, HandedInBy(db, s))) == if Counted(db)(s) then [s] else []
  {
    HandedInOne(db, s);
    hide ProgrammeCourses, UniqueKeys, UniqueAssignments, IsCounted, Matching, InnerJoin, PairAll, Select, Project;
    KeptOfAtMostOne(HandedInBy(db, s), s);
  }

  lemma NothingHandedIn(db: Database)
    ensures Project(SubmissionOf, Select(IsSubmitted, HandedIn(db, []))) == Select(Counted(db), [])
  {
    hide ProgrammeCourses;
    assert HandedIn(db, []) == [];
  }

  /** The joins keep exactly the counted submissions, in order. */
  lemma {:induction false} KeptSubmissions(db: Database, submissions: seq<Submission>)
    requires UniqueKeys(db) && UniqueAssignments(db)
    ensures Project(SubmissionOf, Select(IsSubmitted, HandedIn(db, submissions))) == Select(Counted(db), submissions)
  {
    hide *;
    if submissions == [] {
      NothingHandedIn(db);
    } else {
      var n := |submissions| - 1;
      var s, before := submissions[n], HandedIn(db, submissions[..n]);
      KeptSubmissions(db, submissions[..n]);
      assert submissions == submissions[..n] + [s];
      HandedInOneMore(db, submissions[..n], s);
      SelectAppend(IsSubmitted, before, HandedInBy(db, s));
      ProjectAppend(SubmissionOf, Select(IsSubmitted, before), Select(IsSubmitted, HandedInBy(db, s)));
      KeptOne(db, s);
      SelectSnoc(Counted(db), submissions[..n], s);
    }
  }

  lemma ProjectAppend<A, B>(f: A -> B, a: seq<A>, b: seq<A>)
    ensures Project(f, a + b) == Project(f, a) + Project(f, b)
  {
  }

  /**
   * The activity rows of submissions: at least one a counted submission, and exactly one each if and
   * only if none of them has two grades for its assignment and user.
   */
  lemma SubmissionGrain(db: Database)
    requires UniqueKeys(db) && UniqueAssignments(db)
    ensures var submissions := Select(Counted(db), db.submissions);
      && |SubmissionRows(db)| >= |submissions|
      && (|SubmissionRows(db)| == |submissions| <==> forall s :: s in submissions ==> GradedOnce(db, s))
      && ((forall s :: s in submissions ==> GradedOnce(db, s)) ==>
            forall i :: 0 <= i < |submissions| ==>
              SubmissionRows(db)[i].userId == submissions[i].userid
              && SubmissionRows(db)[i].scoredOn == Some(submissions[i].modified))
  {
    hide ProgrammeCourses, UniqueKeys, UniqueAssignments, IsCounted, GradedOnce, HandedIn, OneMatch;
    var handed, submissions := HandedIn(db, db.submissions), Select(Counted(db), db.submissions);
    var kept := Select(IsSubmitted, handed);
    KeptSubmissions(db, db.submissions);
    SelectLeftJoin(IsSubmitted, WasSubmitted, GradeOf, handed, db.assignGrades);
    LeftJoinLength(GradeOf, kept, db.assignGrades);
    SelectMeans(IsSubmitted, handed);
    forall l | l in kept ensures OneMatch(GradeOf, l, db.assignGrades) <==> GradedOnce(db, SubmissionOf(l)) {
      HandedInIsOfAssignment(db, l);
      SameGrades(db, l);
    }
    assert Project(SubmissionOf, kept) == submissions;
    forall s ensures s in submissions <==> exists l :: l in kept && SubmissionOf(l) == s {
      ProjectMembers(SubmissionOf, kept, s);
    }
    if forall l :: l in kept ==> OneMatch(GradeOf, l, db.assignGrades) {
      LeftJoinRowForRow(GradeOf, kept, db.assignGrades);
    }
  }

  lemma HandedInIsOfAssignment(db: Database, l: Submitted)
    requires l in HandedIn(db, db.submissions)
    ensures l.0.1.id == l.0.0.assignment
  {
    JoinMembers(CourseOfAssign, InnerJoin(AssignOf, db.submissions, db.assigns), ProgrammeCourses(db));
    JoinMembers(AssignOf, db.submissions, db.assigns);
  }

  lemma SameGrades(db: Database, l: Submitted)
    requires l.0.1.id == l.0.0.assignment
    ensures OneMatch(GradeOf, l, db.assignGrades) <==> GradedOnce(db, SubmissionOf(l))
  {
    assert forall i :: 0 <= i < |db.assignGrades| ==>
      (GradeOf(l, db.assignGrades[i]) <==> IsGradeOf(SubmissionOf(l), db.assignGrades[i]));
  }

  // ----- Learners are counted once a course -----

  lemma RowIsProgramme(db: Database, a: Activity)
    requires UniqueKeys(db) && a in UnionRows(db) && a.courseId.Some?
    ensures IsProgrammeCourse(db, a.courseId.value)
  {
    hide IsProgrammeCourse, ProgrammeCourses, SubmissionRows, AssessmentRows, ObservationRows, Participants;
    ProgrammeCoursesMean(db);
    if a in SubmissionRows(db) {
      SubmissionCourse(db, a);
    } else if a in AssessmentRows(db) {
      AssessmentCourse(db, a);
    } else if a in ObservationRows(db) {
      ObservationCourse(db, a);
    } else {
      assert a in Project(AsEnrolment, Participants(db));
      EnrolmentCourse(db, a);
    }
  }

  /** Rows of the union carry a programme course, or none at all. */
  lemma RowsAreProgramme(db: Database)
    requires UniqueKeys(db)
    ensures forall a :: a in UnionRows(db) && a.courseId.Some? ==> IsProgrammeCourse(db, a.courseId.value)
  {
    hide UnionRows, IsProgrammeCourse, UniqueKeys;
    forall a | a in UnionRows(db) && a.courseId.Some? ensures IsProgrammeCourse(db, a.courseId.value) {
      RowIsProgramme(db, a);
    }
  }

  lemma SubmissionCourse(db: Database, a: Activity)
    requires a in SubmissionRows(db)
    ensures exists pc :: pc in ProgrammeCourses(db) && a.courseId == Some(pc.courseId)
  {
    hide ProgrammeCourses;
    var pairs := InnerJoin(AssignOf, db.submissions, db.assigns);
    var inner := InnerJoin(CourseOfAssign, pairs, ProgrammeCourses(db));
    var joined := LeftJoin(GradeOf, inner, db.assignGrades);
    ProjectMembers(AsSubmission(db.text), Select(WasSubmitted, joined), a);
    SelectMeans(WasSubmitted, joined);
    LeftJoinLeft(GradeOf, inner, db.assignGrades);
    JoinMembers(CourseOfAssign, pairs, ProgrammeCourses(db));
  }

  lemma {:induction false} LeftJoinLeft<A(!new), B(!new)>(on: (A, B) -> bool, ls: seq<A>, rs: seq<B>)
    ensures forall p :: p in LeftJoin(on, ls, rs) ==> p.0 in ls
  {
    if ls != [] {
      var n := |ls| - 1;
      LeftJoinLeft(on, ls[..n], rs);
      assert ls == ls[..n] + [ls[n]];
    }
  }

  lemma AssessmentCourse(db: Database, a: Activity)
    requires a in AssessmentRows(db)
    ensures exists pc :: pc in ProgrammeCourses(db) && a.courseId == Some(pc.courseId)
  {
    hide ProgrammeCourses;
    var pairs := InnerJoin(ItemOf, db.grades, db.gradeItems);
    var joined := InnerJoin(CourseOfItem, pairs, ProgrammeCourses(db));
    ProjectMembers(AsAssessment(db.text), Select(WasGraded, joined), a);
    SelectMeans(WasGraded, joined);
    JoinMembers(CourseOfItem, pairs, ProgrammeCourses(db));
  }

  lemma ObservationCourse(db: Database, a: Activity)
    requires a in ObservationRows(db)
    ensures a.courseId == None
  {
    ProjectMembers(AsObservation, InnerJoin(ObservationOf, db.observationUsers, db.observations), a);
  }

  lemma EnrolmentCourse(db: Database, a: Activity)
    requires a in Project(AsEnrolment, Participants(db))
    ensures exists pc :: pc in ProgrammeCourses(db) && a.courseId == Some(pc.courseId)
  {
    hide ProgrammeCourses;
    var contexts := InnerJoin(ContextOf, InnerJoin(RoleOf, db.roleAssignments, db.roles), db.contexts);
    var joined := InnerJoin(CourseOfContext, contexts, ProgrammeCourses(db));
    var kept := Select(ProgrammeRole, joined);
    ProjectMembers(AsEnrolment, Participants(db), a);
    DistinctMeans(Project(AsParticipant, kept));
    SelectMeans(ProgrammeRole, joined);
    JoinMembers(CourseOfContext, contexts, ProgrammeCourses(db));
    var p :| p in Participants(db) && AsEnrolment(p) == a;
    ProjectMembers(AsParticipant, kept, p);
  }

  lemma NonEmpty(s: set<int>)
    ensures s == {} || exists x :: x in s
  {
    assert (forall x :: x !in s) ==> s == {};
  }

  /** The sum of a figure over a set of courses. */
  ghost function SumOver(courses: set<int>, f: int -> int): int {
    if courses == {} then 0
    else
      NonEmpty(courses);
      var c :| c in courses;
      f(c) + SumOver(courses - {c}, f)
  }

  lemma {:induction false} SumOverAdd(courses: set<int>, f: int -> int, c: int)
    requires c !in courses
    ensures SumOver(courses + {c}, f) == SumOver(courses, f) + f(c)
    decreases courses
  {
    var all := courses + {c};
    var d :| d in all && SumOver(all, f) == f(d) + SumOver(all - {d}, f);
    if d == c {
      assert all - {d} == courses;
    } else {
      SumOverAdd(courses - {d}, f, c);
      assert all - {d} == (courses - {d}) + {c};
      SumOverAdd(courses - {d}, f, d);
      assert courses == (courses - {d}) + {d};
    }
  }

  ghost function LearnerCount(db: Database): int -> int {
    (id: int) => |LearnersOfCourse(db, id)|
  }

  function LearnersColumn(r: DataRow): int { r.courseLearners }

  ghost predicate CountsHere(db: Database, a: Activity, rank: nat) {
    rank == 1 && a.courseId.Some? && UserExists(db, a)
  }

  /** The courses among the first `n` rows whose row numbered 1 has a user. */
  ghost function CountedAmong(db: Database, rows: seq<Activity>, ranks: seq<nat>, n: nat): set<int>
    requires n <= |rows| == |ranks|
  {
    set i | 0 <= i < n && CountsHere(db, rows[i], ranks[i]) :: rows[i].courseId.value
  }

  /** The courses whose first numbered row has a user. */
  ghost function CountedCourses(db: Database, ranks: seq<nat>): set<int>
    requires |ranks| == |UnionRows(db)|
  {
    CountedAmong(db, UnionRows(db), ranks, |ranks|)
  }

  ghost function CoursesWithRows(db: Database): set<int> {
    set a | a in UnionRows(db) && a.courseId.Some? :: a.courseId.value
  }

  /** Each course has exactly one row numbered 1. */
  lemma {:induction false} FirstRowFor(rows: seq<Activity>, ranks: seq<nat>, i: nat) returns (first: nat)
    requires RowNumbers(rows, ranks) && i < |rows|
    ensures first < |rows| && rows[first].courseId == rows[i].courseId && ranks[first] == 1
  {
    if ranks[i] == 1 {
      first := i;
    } else {
      assert Numbered(rows, ranks, rows[i].courseId, 1);
      first :| 0 <= first < |rows| && rows[first].courseId == rows[i].courseId && ranks[first] == 1;
    }
  }

  lemma LearnersOfRow(db: Database, l: D1)
    requires UniqueKeys(db) && l.0.0 in UnionRows(db)
    ensures DatasetOf(db, l).courseLearners
         == if l.0.1 == 1 && l.0.0.courseId.Some? then |LearnersOfCourse(db, l.0.0.courseId.value)| else 0
  {
    hide UnionRows, ProgrammeCourses, LearnersByCourse, CompletedMembers, IsProgrammeCourse, UniqueKeys;
    var d2 := (l, Lookup(SchoolOf, l, db.schools));
    var d3 := (d2, Lookup(CourseOf, d2, ProgrammeCourses(db)));
    LookupMeans(LearnersOf, d3, LearnersByCourse(db));
    if l.0.0.courseId.Some? {
      RowIsProgramme(db, l.0.0);
      LearnersCounted(db, d3, l.0.0.courseId.value);
    }
  }

  function LearnersIf(db: Database, r: Ranked): nat {
    if r.1 == 1 && r.0.courseId.Some? then |LearnersOfCourse(db, r.0.courseId.value)| else 0
  }

  function JoinedLearners(db: Database): D1 -> int {
    (l: D1) => DatasetOf(db, l).courseLearners
  }

  lemma SumOfOneMore<T>(f: T -> int, xs: seq<T>, x: T)
    ensures SumOf(f, xs + [x]) == SumOf(f, xs) + f(x)
  {
    assert (xs + [x])[..|xs|] == xs;
  }

  /** One row more: the course it counts for, if any, was not counted before. */
  lemma CountedOneMore(db: Database, rows: seq<Activity>, ranks: seq<nat>, n: nat)
    requires RowNumbers(rows, ranks) && n < |rows|
    ensures SumOver(CountedAmong(db, rows, ranks, n + 1), LearnerCount(db))
         == SumOver(CountedAmong(db, rows, ranks, n), LearnerCount(db))
            + (if UserExists(db, rows[n]) then LearnersIf(db, (rows[n], ranks[n])) else 0)
  {
    hide UserExists, LearnersOfCourse, SumOver, Numbered;
    var before := CountedAmong(db, rows, ranks, n);
    if CountsHere(db, rows[n], ranks[n]) {
      var c := rows[n].courseId.value;
      assert CountedAmong(db, rows, ranks, n + 1) == before + {c};
      assert c !in before;
      SumOverAdd(before, LearnerCount(db), c);
    } else {
      assert CountedAmong(db, rows, ranks, n + 1) == before;
    }
  }

  lemma {:induction false} MatchedSum(db: Database, rows: seq<Activity>, ranks: seq<nat>, n: nat)
    requires |ranks| == |rows| && RowNumbers(rows, ranks) && n <= |rows|
    requires forall l: D1 :: l.0.0 in rows ==> JoinedLearners(db)(l) == LearnersIf(db, l.0)
    ensures SumOf(JoinedLearners(db), Matched(UserOf, WithRanks(rows, ranks)[..n], db.users))
         == SumOver(CountedAmong(db, rows, ranks, n), LearnerCount(db))
  {
    hide UserExists, RowNumbers, Lookup, LearnersIf, JoinedLearners, SumOver, SumOf;
    var ranked := WithRanks(rows, ranks);
    if n == 0 {
      NothingCounted(db, rows, ranks);
    } else {
      MatchedSum(db, rows, ranks, n - 1);
      assert ranked[..n][..n - 1] == ranked[..n - 1] && ranked[..n][n - 1] == (rows[n - 1], ranks[n - 1]);
      UserMatches(db, ranked[n - 1]);
      CountedOneMore(db, rows, ranks, n - 1);
      assert rows[n - 1] in rows;
      var before, after := Matched(UserOf, ranked[..n - 1], db.users), Matched(UserOf, ranked[..n], db.users);
      if HasMatch(UserOf, ranked[n - 1], db.users) {
        var l: D1 := (ranked[n - 1], Lookup(UserOf, ranked[n - 1], db.users).value);
        assert after == before + [l];
        assert JoinedLearners(db)(l) == LearnersIf(db, ranked[n - 1]);
        SumOfOneMore(JoinedLearners(db), before, l);
      } else {
        assert after == before;
      }
    }
  }

  lemma NothingCounted(db: Database, rows: seq<Activity>, ranks: seq<nat>)
    requires |ranks| == |rows|
    ensures SumOf(JoinedLearners(db), []) == 0 && SumOver(CountedAmong(db, rows, ranks, 0), LearnerCount(db)) == 0
  {
    assert CountedAmong(db, rows, ranks, 0) == {};
  }

  /**
   * SUM(course_learners) over the dataset, whatever rows lack a user and whichever row ROW_NUMBER
   * puts first: the distinct learners of each course whose first numbered row has a user, once.
   */
  lemma SumIsOverCountedCourses(db: Database, ranks: seq<nat>)
    requires UniqueKeys(db) && RowNumbers(UnionRows(db), ranks)
    ensures SumOf(LearnersColumn, Dataset(db, ranks)) == SumOver(CountedCourses(db, ranks), LearnerCount(db))
  {
    hide *;
    var rows := UnionRows(db);
    RanksFit(rows, ranks);
    var ranked := WithRanks(rows, ranks);
    forall l: D1 | l.0.0 in rows ensures JoinedLearners(db)(l) == LearnersIf(db, l.0) {
      LearnersOfJoined(db, l);
    }
    MatchedSum(db, rows, ranks, |rows|);
    assert ranked[..|rows|] == ranked;
    DatasetRows(db, ranks);
    JoinedSum(db, ranks, Matched(UserOf, ranked, db.users));
    CountedAll(db, ranks);
  }

  lemma LearnersOfJoined(db: Database, l: D1)
    requires UniqueKeys(db) && l.0.0 in UnionRows(db)
    ensures JoinedLearners(db)(l) == LearnersIf(db, l.0)
  {
    LearnersOfRow(db, l);
    hide UnionRows, DatasetOf, LearnersOfCourse;
  }

  lemma CountedAll(db: Database, ranks: seq<nat>)
    requires |ranks| == |UnionRows(db)|
    ensures CountedCourses(db, ranks) == CountedAmong(db, UnionRows(db), ranks, |UnionRows(db)|)
  {
    hide UnionRows, CountedAmong;
  }

  lemma DatasetRows(db: Database, ranks: seq<nat>)
    requires UniqueKeys(db) && |ranks| == |UnionRows(db)|
    ensures var d1 := Matched(UserOf, WithRanks(UnionRows(db), ranks), db.users);
      && |Dataset(db, ranks)| == |d1|
      && forall i :: 0 <= i < |d1| ==> Dataset(db, ranks)[i] == DatasetOf(db, d1[i])
  {
    var ranked := WithRanks(UnionRows(db), ranks);
    UserOnce(db, ranked);
    hide UnionRows, DatasetOf, Joined, UniqueKeys, OneMatch;
    LeftJoinsRowForRow(db, ranked);
    InnerJoinSelects(UserOf, ranked, db.users);
  }

  lemma UserOnce(db: Database, ranked: seq<Ranked>)
    requires UniqueKeys(db)
    ensures forall r :: r in ranked ==> OneMatch(UserOf, r, db.users)
  {
  }

  lemma RanksFit(rows: seq<Activity>, ranks: seq<nat>)
    requires RowNumbers(rows, ranks)
    ensures |ranks| == |rows|
  {
  }

  lemma JoinedSum(db: Database, ranks: seq<nat>, d1: seq<D1>)
    requires |ranks| == |UnionRows(db)| && |Dataset(db, ranks)| == |d1|
    requires forall i :: 0 <= i < |d1| ==> Dataset(db, ranks)[i] == DatasetOf(db, d1[i])
    ensures SumOf(LearnersColumn, Dataset(db, ranks)) == SumOf(JoinedLearners(db), d1)
  {
    hide UnionRows, DatasetOf, Dataset, SumOf;
    SumOfProject(LearnersColumn, RowOfJoined(db), JoinedLearners(db), d1);
    assert Dataset(db, ranks) == Project(RowOfJoined(db), d1);
  }

  function RowOfJoined(db: Database): D1 -> DataRow {
    (l: D1) => DatasetOf(db, l)
  }

  /**
   * With existing users, SUM(course_learners) over the dataset is the sum of the distinct learners
   * of the courses that have a row, each course once, whichever row ROW_NUMBER puts first.
   */
  lemma LearnersCountedOnce(db: Database, ranks: seq<nat>)
    requires UniqueKeys(db) && RowNumbers(UnionRows(db), ranks)
    requires forall a :: a in UnionRows(db) ==> UserExists(db, a)
    ensures SumOf(LearnersColumn, Dataset(db, ranks)) == SumOver(CoursesWithRows(db), LearnerCount(db))
    ensures forall c :: c in CoursesWithRows(db) ==> IsProgrammeCourse(db, c)
  {
    hide UnionRows, Dataset, UniqueKeys, IsProgrammeCourse, LearnersOfCourse, UserExists, SumOver, SumOf;
    var rows := UnionRows(db);
    SumIsOverCountedCourses(db, ranks);
    forall c ensures c in CountedCourses(db, ranks) <==> c in CoursesWithRows(db) {
      if c in CountedCourses(db, ranks) {
        var i :| 0 <= i < |rows| && CountsHere(db, rows[i], ranks[i]) && rows[i].courseId == Some(c);
        assert rows[i] in rows;
      }
      if c in CoursesWithRows(db) {
        var i :| 0 <= i < |rows| && rows[i].courseId == Some(c);
        var first := FirstRowFor(rows, ranks, i);
        assert rows[first] in rows && CountsHere(db, rows[first], ranks[first]);
      }
    }
    assert CountedCourses(db, ranks) == CoursesWithRows(db);
    RowsAreProgramme(db);
  }

  // ----- A numbering exists -----

  function EarlierInPartition(rows: seq<Activity>, courseId: Option<int>): nat {
    if rows == [] then 0
    else EarlierInPartition(rows[..|rows| - 1], courseId) + (if rows[|rows| - 1].courseId == courseId then 1 else 0)
  }

  lemma {:induction false} EarlierAttained(rows: seq<Activity>, courseId: Option<int>, r: nat) returns (j: nat)
    requires r < EarlierInPartition(rows, courseId)
    ensures j < |rows| && rows[j].courseId == courseId && EarlierInPartition(rows[..j], courseId) == r
  {
    var n := |rows| - 1;
    if r < EarlierInPartition(rows[..n], courseId) {
      j := EarlierAttained(rows[..n], courseId, r);
      assert rows[..n][..j] == rows[..j];
    } else {
      j := n;
    }
  }

  lemma {:induction false} EarlierGrows(rows: seq<Activity>, courseId: Option<int>, i: nat, j: nat)
    requires i <= j <= |rows|
    ensures EarlierInPartition(rows[..i], courseId) <= EarlierInPartition(rows[..j], courseId)
    ensures i < j && rows[i].courseId == courseId ==>
      EarlierInPartition(rows[..i], courseId) < EarlierInPartition(rows[..j], courseId)
  {
    if i < j {
      EarlierGrows(rows, courseId, i, j - 1);
      assert rows[..j][..j - 1] == rows[..j - 1];
    }
  }

  /** Numbering each row by its position in its partition is one of the numberings. */
  lemma RowNumbersExist(rows: seq<Activity>) returns (ranks: seq<nat>)
    ensures RowNumbers(rows, ranks)
  {
    ranks := seq(|rows|, i requires 0 <= i < |rows| => EarlierInPartition(rows[..i], rows[i].courseId) + 1);
    forall i, j | 0 <= i < j < |rows| && rows[i].courseId == rows[j].courseId ensures ranks[i] != ranks[j] {
      EarlierGrows(rows, rows[i].courseId, i, j);
    }
    forall i, r | 0 <= i < |rows| && 1 <= r < ranks[i] ensures Numbered(rows, ranks, rows[i].courseId, r) {
      var j := EarlierAttained(rows[..i], rows[i].courseId, r - 1);
      assert rows[..i][..j] == rows[..j] && ranks[j] == r;
    }
  }
}
