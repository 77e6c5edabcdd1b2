/** The user dataset and its grain: one row a user (reports/provision_moodle_user_report.py). */
module UserReport {
  import opened Wrappers
  import opened Sql

  datatype User = User(id: int, deleted: int, suspended: int)
  datatype RoleAssignment = RoleAssignment(userid: int, roleid: int)
  datatype Role = Role(id: int, shortname: string)
  datatype UserEnrolment = UserEnrolment(userid: int, enrolid: int)
  datatype Enrol = Enrol(id: int, courseid: Option<int>)

  datatype Database = Database(
    users: seq<User>, roleAssignments: seq<RoleAssignment>, roles: seq<Role>,
    userEnrolments: seq<UserEnrolment>, enrols: seq<Enrol>)

  // ----- The role subquery -----

  const RANKED := [
    "administrator", "manager", "projectmanager", "operationalmanager", "verticalmanager",
    "interventionmanager", "datamanager", "contentmanager", "projectcoordinator", "projectspoc",
    "editingteacher", "trainer", "teacher", "coursecreator", "employee"]

  const UNRANKED := 99

  /** The position in `RANKED`, counted from 1, or 99. */
  function Rank(shortname: string): nat {
    if shortname == "administrator" then 1
    else if shortname == "manager" then 2
    else if shortname == "projectmanager" then 3
    else if shortname == "operationalmanager" then 4
    else if shortname == "verticalmanager" then 5
    else if shortname == "interventionmanager" then 6
    else if shortname == "datamanager" then 7
    else if shortname == "contentmanager" then 8
    else if shortname == "projectcoordinator" then 9
    else if shortname == "projectspoc" then 10
    else if shortname == "editingteacher" then 11
    else if shortname == "trainer" then 12
    else if shortname == "teacher" then 13
    else if shortname == "coursecreator" then 14
    else if shortname == "employee" then 15
    else UNRANKED
  }

  lemma RankMeans(shortname: string)
    ensures shortname in RANKED <==> Rank(shortname) != UNRANKED
    ensures Rank(shortname) != UNRANKED ==> 1 <= Rank(shortname) <= 15 && RANKED[Rank(shortname) - 1] == shortname
  {
  }

  type UserRole = (RoleAssignment, Role)

  predicate RoleOf(ra: RoleAssignment, ro: Role) {
    ro.id == ra.roleid
  }

  function UserRoles(db: Database): seq<UserRole> {
    InnerJoin(RoleOf, db.roleAssignments, db.roles)
  }

  datatype RankRow = RankRow(userid: int, rank: nat)

  function Holder(r: UserRole): int {
    r.0.userid
  }

  function MinRank(group: seq<UserRole>): nat {
    if group == [] then UNRANKED
    else
      var n := |group| - 1;
      var rest, last := MinRank(group[..n]), Rank(group[n].1.shortname);
      if last < rest then last else rest
  }

  function RankOfGroup(userid: int, group: seq<UserRole>): RankRow {
    RankRow(userid, MinRank(group))
  }

  function RankRows(db: Database): seq<RankRow> {
    GroupBy(Holder, RankOfGroup, UserRoles(db))
  }

  // ----- The enrolment subquery -----

  type UserCourse = (UserEnrolment, Enrol)

  predicate EnrolOf(ue: UserEnrolment, e: Enrol) {
    e.id == ue.enrolid
  }

  function UserCourses(db: Database): seq<UserCourse> {
    InnerJoin(EnrolOf, db.userEnrolments, db.enrols)
  }

  datatype CourseCount = CourseCount(userid: int, courses: nat)

  function Enrolled(r: UserCourse): int {
    r.0.userid
  }

  function CourseOf(r: UserCourse): Option<int> {
    r.1.courseid
  }

  function CountOfGroup(userid: int, group: seq<UserCourse>): CourseCount {
    CourseCount(userid, CountDistinct(Project(CourseOf, group)))
  }

  function CourseCounts(db: Database): seq<CourseCount> {
    GroupBy(Enrolled, CountOfGroup, UserCourses(db))
  }

  // ----- The dataset -----

  predicate RankOn(u: User, r: RankRow) {
    r.userid == u.id
  }

  predicate CountOn(l: (User, Option<RankRow>), c: CourseCount) {
    c.userid == l.0.id
  }

  type Joined = ((User, Option<RankRow>), Option<CourseCount>)

  predicate Kept(u: User) {
    u.deleted == 0 && u.id > 1
  }

  predicate KeptRow(j: Joined) {
    Kept(j.0.0)
  }

  datatype UserRow = UserRow(
    userId: int, primaryRole: string, enrolledCourses: nat, suspendedFlag: int,
    learnerFlag: int, managerFlag: int, educatorFlag: int, noRoleFlag: int, enrolledFlag: int)

  const TITLES := [
    "Administrator", "Manager", "Project Manager", "Operations Manager", "Vertical Manager",
    "Intervention Manager", "Data Manager", "Content Manager", "Project Coordinator", "Project SPOC",
    "Editing Teacher", "Trainer", "Teacher", "Course Creator", "Learner"]

  function Title(rank: Option<nat>): string {
    if rank.Some? && 1 <= rank.value <= 15 then TITLES[rank.value - 1] else "No role"
  }

  function Flag(b: bool): int {
    if b then 1 else 0
  }

  function RankOf(j: Joined): Option<nat> {
    if j.0.1.Some? then Some(j.0.1.value.rank) else None
  }

  function CoursesOf(j: Joined): nat {
    if j.1.Some? then j.1.value.courses else 0
  }

  function Output(j: Joined): UserRow {
    var rank := RankOf(j);
    UserRow(
      j.0.0.id, Title(rank), CoursesOf(j), Flag(j.0.0.suspended == 1),
      Flag(rank == Some(15)),
      Flag(rank.Some? && 1 <= rank.value <= 10),
      Flag(rank.Some? && 11 <= rank.value <= 14),
      Flag(rank.None?),
      Flag(CoursesOf(j) > 0))
  }

  function Dataset(db: Database): seq<UserRow> {
    Project(Output, Select(KeptRow, LeftJoin(CountOn, LeftJoin(RankOn, db.users, RankRows(db)), CourseCounts(db))))
  }

  // ----- What the database says of a user -----

  ghost predicate HasRole(db: Database, userid: int, shortname: string) {
    exists ra, ro :: ra in db.roleAssignments && ro in db.roles
      && ra.userid == userid && ro.id == ra.roleid && ro.shortname == shortname
  }

  ghost predicate HasRankBetween(db: Database, userid: int, low: nat, high: nat) {
    exists name :: HasRole(db, userid, name) && low <= Rank(name) <= high
  }

  /** The courses a user is enrolled in. */
  function CoursesOfUser(db: Database, userid: int): set<Option<int>> {
    set ue, e | ue in db.userEnrolments && e in db.enrols
      && ue.userid == userid && e.id == ue.enrolid && e.courseid.Some? :: e.courseid
  }

  /** The MIN over a group is the best rank of any role in it. */
  lemma {:induction false} MinRankMeans(group: seq<UserRole>) returns (best: nat)
    ensures forall i :: 0 <= i < |group| ==> MinRank(group) <= Rank(group[i].1.shortname)
    ensures group != [] ==> best < |group| && Rank(group[best].1.shortname) == MinRank(group)
    ensures MinRank(group) <= UNRANKED
  {
    hide Rank;
    best := 0;
    if group != [] {
      var n := |group| - 1;
      WorstRank(group[n].1.shortname);
      best := MinRankMeans(group[..n]);
      var rest, last := MinRank(group[..n]), Rank(group[n].1.shortname);
      if n == 0 || last < rest {
        best := n;
      }
      assert forall i :: 0 <= i < n ==> group[..n][i] == group[i];
    }
  }

  lemma WorstRank(name: string)
    ensures Rank(name) <= UNRANKED
  {
  }

  lemma RankOfUser(db: Database, u: User)
    ensures OneMatch(RankOn, u, RankRows(db))
    ensures var row := Lookup(RankOn, u, RankRows(db));
      && (row.Some? <==> exists name :: HasRole(db, u.id, name))
      && (row.Some? ==> (exists name :: HasRole(db, u.id, name) && Rank(name) == row.value.rank)
                        && forall name :: HasRole(db, u.id, name) ==> row.value.rank <= Rank(name))
  {
    GroupByLookup(RankOn, u, u.id, Holder, RankOfGroup, UserRoles(db));
    JoinMembers(RoleOf, db.roleAssignments, db.roles);
    hide OneMatch, Lookup, Matching, GroupBy, GroupOf, InnerJoin, Rank;
    var group := GroupOf(Holder, u.id, UserRoles(db));
    GroupOfMeans(Holder, u.id, UserRoles(db));
    var best := MinRankMeans(group);
    forall r | r in group ensures HasRole(db, u.id, r.1.shortname) {
      assert r.0 in db.roleAssignments && r.1 in db.roles;
    }
    forall name | HasRole(db, u.id, name) ensures exists r :: r in group && r.1.shortname == name {
      var ra, ro :|
        ra in db.roleAssignments && ro in db.roles && ra.userid == u.id && ro.id == ra.roleid && ro.shortname == name;
      assert (ra, ro) in UserRoles(db);
    }
    assert forall i :: 0 <= i < |group| ==> group[i] in group;
  }

  lemma CoursesOfUserCounted(db: Database, l: (User, Option<RankRow>))
    ensures OneMatch(CountOn, l, CourseCounts(db))
    ensures var row := Lookup(CountOn, l, CourseCounts(db));
      (if row.Some? then row.value.courses else 0) == |CoursesOfUser(db, l.0.id)|
  {
    GroupByLookup(CountOn, l, l.0.id, Enrolled, CountOfGroup, UserCourses(db));
    GroupOfMeans(Enrolled, l.0.id, UserCourses(db));
    var group := GroupOf(Enrolled, l.0.id, UserCourses(db));
    CoursesInGroup(db, l.0.id, group);
    if !exists x :: x in UserCourses(db) && Enrolled(x) == l.0.id {
      assert forall i :: 0 <= i < |group| ==> group[i] in group;
      assert CoursesOfUser(db, l.0.id) == {};
    }
  }

  lemma CoursesInGroup(db: Database, userid: int, group: seq<UserCourse>)
    requires forall l :: l in group <==> l in UserCourses(db) && Enrolled(l) == userid
    ensures NonNull(Project(CourseOf, group)) == CoursesOfUser(db, userid)
  {
    JoinMembers(EnrolOf, db.userEnrolments, db.enrols);
    forall c: Option<int> ensures c in Project(CourseOf, group) && c.Some? <==> c in CoursesOfUser(db, userid) {
      ProjectMembers(CourseOf, group, c);
      if c in CoursesOfUser(db, userid) {
        var ue, e :| ue in db.userEnrolments && e in db.enrols
          && ue.userid == userid && e.id == ue.enrolid && e.courseid == c;
        assert (ue, e) in group;
      }
    }
  }

  // ----- Grain -----

  function IdOf(u: User): int {
    u.id
  }

  function RowId(r: UserRow): int {
    r.userId
  }

  function RowOf(db: Database, u: User): UserRow {
    var l := (u, Lookup(RankOn, u, RankRows(db)));
    Output((l, Lookup(CountOn, l, CourseCounts(db))))
  }

  lemma {:induction false} SelectJoined(db: Database, users: seq<User>, joined: seq<Joined>)
    requires |joined| == |users|
    requires forall i :: 0 <= i < |users| ==> joined[i].0.0 == users[i] && Output(joined[i]) == RowOf(db, users[i])
    ensures |Select(KeptRow, joined)| == |Select(Kept, users)|
    ensures forall i :: 0 <= i < |Select(Kept, users)| ==>
      Output(Select(KeptRow, joined)[i]) == RowOf(db, Select(Kept, users)[i])
  {
    if users != [] {
      var n := |users| - 1;
      SelectJoined(db, users[..n], joined[..n]);
    }
  }

  /** The dataset has one row for each user with deleted = 0 and id > 1, in the order of the users. */
  lemma DatasetRowForRow(db: Database)
    ensures |Dataset(db)| == |Select(Kept, db.users)|
    ensures forall i :: 0 <= i < |Dataset(db)| ==> Dataset(db)[i] == RowOf(db, Select(Kept, db.users)[i])
    ensures Project(RowId, Dataset(db)) == Project(IdOf, Select(Kept, db.users))
    ensures forall u :: u in Select(Kept, db.users) <==> u in db.users && u.deleted == 0 && u.id > 1
  {
    SelectMeans(Kept, db.users);
    forall u | u in db.users ensures OneMatch(RankOn, u, RankRows(db)) {
      RankOfUser(db, u);
    }
    LeftJoinRowForRow(RankOn, db.users, RankRows(db));
    var ranked := LeftJoin(RankOn, db.users, RankRows(db));
    forall l | l in ranked ensures OneMatch(CountOn, l, CourseCounts(db)) {
      CoursesOfUserCounted(db, l);
    }
    LeftJoinRowForRow(CountOn, ranked, CourseCounts(db));
    SelectJoined(db, db.users, LeftJoin(CountOn, ranked, CourseCounts(db)));
  }

  // ----- Flags -----

  ghost predicate IsLearner(db: Database, u: User) {
    HasRole(db, u.id, "employee") && !HasRankBetween(db, u.id, 1, 14)
  }

  ghost predicate HasSomeRole(db: Database, u: User) {
    exists name :: HasRole(db, u.id, name)
  }

  ghost predicate HasRankedRole(db: Database, u: User) {
    HasRankBetween(db, u.id, 1, 15)
  }

  /** The roles that have a title, the best one first. */
  const ROLE_TITLES := [
    ("administrator", "Administrator"), ("manager", "Manager"), ("projectmanager", "Project Manager"),
    ("operationalmanager", "Operations Manager"), ("verticalmanager", "Vertical Manager"),
    ("interventionmanager", "Intervention Manager"), ("datamanager", "Data Manager"),
    ("contentmanager", "Content Manager"), ("projectcoordinator", "Project Coordinator"),
    ("projectspoc", "Project SPOC"), ("editingteacher", "Editing Teacher"), ("trainer", "Trainer"),
    ("teacher", "Teacher"), ("coursecreator", "Course Creator"), ("employee", "Learner")]

  /** The k-th of these is the user's best. */
  ghost predicate BestTitle(db: Database, u: User, k: nat)
    requires k < |ROLE_TITLES|
  {
    HasRole(db, u.id, ROLE_TITLES[k].0) && forall j :: 0 <= j < k ==> !HasRole(db, u.id, ROLE_TITLES[j].0)
  }

  /** The primary role is the title of the best role that has one, and "No role" only without such a role. */
  lemma PrimaryRoleMeans(db: Database, u: User)
    ensures forall k: nat :: k < |ROLE_TITLES| && BestTitle(db, u, k) ==>
      RowOf(db, u).primaryRole == ROLE_TITLES[k].1
    ensures RowOf(db, u).primaryRole == "No role" <==>
      forall k :: 0 <= k < |ROLE_TITLES| ==> !HasRole(db, u.id, ROLE_TITLES[k].0)
  {
    hide Rank, HasRole, RankRows, CourseCounts, Lookup, Title;
    forall k: nat | k < |ROLE_TITLES| && BestTitle(db, u, k)
      ensures RowOf(db, u).primaryRole == ROLE_TITLES[k].1
    {
      BestIsLeast(db, u, k);
      TitleOfRank(k);
    }
    FlagsMean(db, u);
    forall name: string
      ensures 1 <= Rank(name) <= 15 <==> exists k :: 0 <= k < |ROLE_TITLES| && name == ROLE_TITLES[k].0
    {
      RankOfTitle(name);
    }
  }

  lemma RankOfTitle(name: string)
    ensures 1 <= Rank(name) <= 15 <==> exists k :: 0 <= k < |ROLE_TITLES| && name == ROLE_TITLES[k].0
    ensures 1 <= Rank(name) <= 15 ==> ROLE_TITLES[Rank(name) - 1].0 == name
  {
  }

  lemma TitleOfRank(k: nat)
    requires k < |ROLE_TITLES|
    ensures Title(Some(k + 1)) == ROLE_TITLES[k].1 && Rank(ROLE_TITLES[k].0) == k + 1
  {
  }

  lemma BestIsLeast(db: Database, u: User, k: nat)
    requires k < |ROLE_TITLES| && BestTitle(db, u, k)
    ensures var row := Lookup(RankOn, u, RankRows(db)); row.Some? && row.value.rank == k + 1
  {
    hide Rank, HasRole, RankRows, Lookup;
    RankOfUser(db, u);
    TitleOfRank(k);
    var row := Lookup(RankOn, u, RankRows(db));
    var name :| HasRole(db, u.id, name) && Rank(name) == row.value.rank;
    RankOfTitle(name);
    EmployeeRank(name);
  }

  /** Each flag says what its name says of the user's roles; the title is that of the best ranked one. */
  lemma FlagsMean(db: Database, u: User)
    ensures var r := RowOf(db, u);
      && (r.learnerFlag == 1 <==> IsLearner(db, u))
      && (r.managerFlag == 1 <==> HasRankBetween(db, u.id, 1, 10))
      && (r.educatorFlag == 1 <==> HasRankBetween(db, u.id, 11, 14) && !HasRankBetween(db, u.id, 1, 10))
      && (r.noRoleFlag == 1 <==> !HasSomeRole(db, u))
      && (r.primaryRole == "No role" <==> !HasRankedRole(db, u))
      && r.enrolledCourses == |CoursesOfUser(db, u.id)|
      && (r.enrolledFlag == 1 <==> CoursesOfUser(db, u.id) != {})
      && (r.suspendedFlag == 1 <==> u.suspended == 1)
  {
    hide Rank, HasRole, RankRows, CourseCounts, Lookup, Title;
    RankOfUser(db, u);
    CoursesOfUserCounted(db, (u, Lookup(RankOn, u, RankRows(db))));
    var row := Lookup(RankOn, u, RankRows(db));
    if row.Some? {
      var name :| HasRole(db, u.id, name) && Rank(name) == row.value.rank;
      EmployeeRank(name);
      EmployeeRank("employee");
      forall low: nat, high: nat | 1 <= low <= high <= 15
        ensures low <= row.value.rank <= high ==> HasRankBetween(db, u.id, low, high)
        ensures HasRankBetween(db, u.id, low, high) ==> row.value.rank <= high
      {
      }
    }
    TitleMeans(if row.Some? then row.value.rank else 0);
  }

  lemma EmployeeRank(name: string)
    ensures Rank(name) == 15 <==> name == "employee"
    ensures Rank(name) == UNRANKED || 1 <= Rank(name) <= 15
  {
  }

  lemma TitleMeans(rank: nat)
    ensures Title(Some(rank)) == "No role" <==> !(1 <= rank <= 15)
    ensures Title(None) == "No role"
  {
    assert TITLES[14] == "Learner";
    assert forall i :: 0 <= i < 15 ==> TITLES[i][0] != 'N';
  }

  /** The four flags and "only unranked roles" partition the users: the title says "No role" for two of them. */
  lemma FlagsPartition(db: Database, u: User)
    ensures var r := RowOf(db, u);
      r.learnerFlag + r.managerFlag + r.educatorFlag + r.noRoleFlag
        == if HasSomeRole(db, u) && !HasRankedRole(db, u) then 0 else 1
    ensures var r := RowOf(db, u);
      r.primaryRole == "No role" && r.noRoleFlag == 0 <==> HasSomeRole(db, u) && !HasRankedRole(db, u)
  {
    hide Rank, HasRole, RankRows, CourseCounts, Lookup, Title, HasRankedRole;
    FlagsMean(db, u);
    RankedRange(db, u);
  }

  /** A user whose only role is not ranked, for any such role. */
  function UnrankedUser(shortname: string): Database {
    Database([User(2, 0, 0)], [RoleAssignment(2, 1)], [Role(1, shortname)], [], [])
  }

  lemma UnrankedSaysNoRole(shortname: string)
    requires shortname !in RANKED
    ensures var r := RowOf(UnrankedUser(shortname), User(2, 0, 0));
      r.primaryRole == "No role" && r.noRoleFlag == 0 && r in Dataset(UnrankedUser(shortname))
  {
    var db, u := UnrankedUser(shortname), User(2, 0, 0);
    RankMeans(shortname);
    assert db.roleAssignments[0] in db.roleAssignments && db.roles[0] in db.roles;
    assert HasRole(db, 2, shortname);
    assert forall name :: HasRole(db, 2, name) ==> name == shortname;
    hide Dataset, RowOf, Rank, HasRole;
    FlagsPartition(db, u);
    DatasetRowForRow(db);
    assert db.users[..0] == [];
    assert Select(Kept, db.users)[0] == u;
    assert Dataset(db)[0] == RowOf(db, u);
  }

  lemma RankedRange(db: Database, u: User)
    ensures HasRankedRole(db, u) ==> HasSomeRole(db, u)
    ensures HasRankedRole(db, u) <==>
      HasRankBetween(db, u.id, 1, 10) || HasRankBetween(db, u.id, 11, 14) || HasRole(db, u.id, "employee")
    ensures HasRankBetween(db, u.id, 1, 14) <==> HasRankBetween(db, u.id, 1, 10) || HasRankBetween(db, u.id, 11, 14)
  {
    hide Rank, HasRole;
    EmployeeRank("employee");
    forall name ensures Rank(name) == 15 <==> name == "employee" {
      EmployeeRank(name);
    }
  }

  function LearnerFlag(r: UserRow): int {
    r.learnerFlag
  }

  function ManagerFlag(r: UserRow): int {
    r.managerFlag
  }

  function EducatorFlag(r: UserRow): int {
    r.educatorFlag
  }

  function NoRoleFlag(r: UserRow): int {
    r.noRoleFlag
  }

  ghost function Learners(db: Database): User -> bool {
    (u: User) => IsLearner(db, u)
  }

  ghost function Managers(db: Database): User -> bool {
    (u: User) => HasRankBetween(db, u.id, 1, 10)
  }

  ghost function Educators(db: Database): User -> bool {
    (u: User) => HasRankBetween(db, u.id, 11, 14) && !HasRankBetween(db, u.id, 1, 10)
  }

  ghost function WithoutRole(db: Database): User -> bool {
    (u: User) => !HasSomeRole(db, u)
  }

  /** Summing a flag over the dataset counts the kept users that the flag describes. */
  lemma FlagSums(db: Database)
    ensures var users := Select(Kept, db.users);
      && SumOf(LearnerFlag, Dataset(db)) == CountIf(Learners(db), users)
      && SumOf(ManagerFlag, Dataset(db)) == CountIf(Managers(db), users)
      && SumOf(EducatorFlag, Dataset(db)) == CountIf(Educators(db), users)
      && SumOf(NoRoleFlag, Dataset(db)) == CountIf(WithoutRole(db), users)
  {
    hide HasRole, HasRankBetween, IsLearner, HasSomeRole, RowOf, Dataset, Rank;
    var users := Select(Kept, db.users);
    DatasetRowForRow(db);
    forall i | 0 <= i < |users|
      ensures LearnerFlag(Dataset(db)[i]) == (if Learners(db)(users[i]) then 1 else 0)
      ensures ManagerFlag(Dataset(db)[i]) == (if Managers(db)(users[i]) then 1 else 0)
      ensures EducatorFlag(Dataset(db)[i]) == (if Educators(db)(users[i]) then 1 else 0)
      ensures NoRoleFlag(Dataset(db)[i]) == (if WithoutRole(db)(users[i]) then 1 else 0)
    {
      FlagsMean(db, users[i]);
      FlagsAreBits(db, users[i]);
    }
    SumIsCount(LearnerFlag, Dataset(db), Learners(db), users);
    SumIsCount(ManagerFlag, Dataset(db), Managers(db), users);
    SumIsCount(EducatorFlag, Dataset(db), Educators(db), users);
    SumIsCount(NoRoleFlag, Dataset(db), WithoutRole(db), users);
  }

  lemma FlagsAreBits(db: Database, u: User)
    ensures var r := RowOf(db, u);
      && 0 <= r.learnerFlag <= 1 && 0 <= r.managerFlag <= 1 && 0 <= r.educatorFlag <= 1 && 0 <= r.noRoleFlag <= 1
      && 0 <= r.suspendedFlag <= 1 && 0 <= r.enrolledFlag <= 1
  {
    hide RankRows, CourseCounts, Lookup, Title;
  }
}
