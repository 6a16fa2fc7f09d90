/**
 * The Substrate runtime module of runtime/src/sitcom.rs: two signed calls
 * that record a staff-given competence or an approved activity, and the
 * internal automatic competence grant. Each record is stored under a hash,
 * and indexed by student and by packed semester.
 */
module Runtime {
  import opened Bytes
  import opened Ints
  import opened Results

  type StudentId = uint64
  type CompetenceId = uint16
  type ActivityId = uint32
  /** `T::Hash` and `T::AccountId`, as their encoded bytes. */
  type Hash = bytes
  type AccountId = bytes

  datatype StaffAddCompetenceRecord = StaffAddCompetenceRecord(
    id: Hash, studentId: StudentId, competenceId: CompetenceId, issuer: AccountId, semester: uint16)
  datatype AttendedActivityRecord = AttendedActivityRecord(
    id: Hash, studentId: StudentId, activityId: ActivityId, approver: AccountId, semester: uint16)
  datatype AutoAddCompetenceRecord = AutoAddCompetenceRecord(
    id: Hash, studentId: StudentId, competenceId: CompetenceId, semester: uint16)

  /** The module's events. */
  datatype RuntimeEvent =
    | AddCompetence(studentId: StudentId, competenceId: CompetenceId)
    | AddCompetenceFromStaff(studentId: StudentId, competenceId: CompetenceId, account: AccountId)
    | ActivityApprove(studentId: StudentId, activityId: ActivityId, account: AccountId)

  /** Who dispatched a call: a signed account, or an unsigned/root origin. */
  datatype Origin = Signed(account: AccountId) | Unsigned

  /** The ways a call is refused: `ensure_signed` and the two `ensure!` checks, in that order. */
  datatype DispatchError = BadOrigin | BadSemester | BadYear

  /** `semester * 10000 + year`, e.g. semester 1 of 2019 is 12019. */
  function PackSemester(semester: uint16, year: uint16): (packed: uint16)
    requires semester == 1 || semester == 2
    requires 2000 <= year <= 3000
    ensures 12000 <= packed <= 23000
    ensures packed / 10000 == semester && packed % 10000 == year
  {
    semester * 10000 + year
  }

  /** Distinct (semester, year) pairs pack to distinct values: the packed index loses nothing. */
  lemma PackSemesterInjective(s1: uint16, y1: uint16, s2: uint16, y2: uint16)
    requires (s1 == 1 || s1 == 2) && 2000 <= y1 <= 3000
    requires (s2 == 1 || s2 == 2) && 2000 <= y2 <= 3000
    requires PackSemester(s1, y1) == PackSemester(s2, y2)
    ensures s1 == s2 && y1 == y2
  {
    var p := PackSemester(s1, y1);
    assert s1 == p / 10000 && y1 == p % 10000;
  }

  /**
   * The checks the two signed calls make before touching storage: the caller
   * must be signed, the semester 1 or 2 and the year within 2000..3000.
   * On success: the caller and the packed semester.
   */
  function CheckCall(origin: Origin, semester: uint16, year: uint16): (r: Result<(AccountId, uint16), DispatchError>)
    ensures r.Ok? <==> origin.Signed? && (semester == 1 || semester == 2) && 2000 <= year <= 3000
    ensures r == Err(BadOrigin) <==> origin.Unsigned?
    ensures r == Err(BadSemester) <==> origin.Signed? && semester != 1 && semester != 2
    ensures r.Ok? ==> r.value == (origin.account, PackSemester(semester, year))
  {
    if origin.Unsigned? then Err(BadOrigin)
    else if semester != 1 && semester != 2 then Err(BadSemester)
    else if !(2000 <= year <= 3000) then Err(BadYear)
    else Ok((origin.account, PackSemester(semester, year)))
  }

  /**
   * `get(k).unwrap_or(Vec::new())`, push `v`, insert back: the list under
   * `k` gains `v` at its end and no other list changes.
   */
  function Appended<K(!new), V>(m: map<K, seq<V>>, k: K, v: V): (r: map<K, seq<V>>)
    ensures k in r && r[k] == (if k in m then m[k] else []) + [v]
    ensures forall k' | k' != k :: (k' in r <==> k' in m) && (k' in m ==> r[k'] == m[k'])
  {
    m[k := (if k in m then m[k] else []) + [v]]
  }

  /** The module's storage, as a value. */
  datatype RuntimeState = RuntimeState(
    staffAddCompetenceMap: map<Hash, StaffAddCompetenceRecord>,
    attendedActivityMap: map<Hash, AttendedActivityRecord>,
    autoAddCompetenceMap: map<Hash, AutoAddCompetenceRecord>,
    collectedCompetencies: map<StudentId, seq<CompetenceId>>,
    attendedActivities: map<StudentId, seq<ActivityId>>,
    staffAddCompetenciesSemester: map<uint16, seq<Hash>>,
    attendedActivitiesSemester: map<uint16, seq<Hash>>,
    autoAddCompetenciesSemester: map<uint16, seq<Hash>>,
    events: seq<RuntimeEvent>)

  /**
   * `staff_add_competence`. `id` is the hash the runtime derives from the
   * block's random seed, the caller, the student, the competence and the
   * packed semester. A refused call changes nothing.
   */
  function StaffAdd(s: RuntimeState, origin: Origin, studentId: StudentId, competenceId: CompetenceId,
                    semester: uint16, year: uint16, id: Hash): (res: (RuntimeState, Result<(), DispatchError>))
    ensures var (s', r) := res;
            && (r.Ok? <==> CheckCall(origin, semester, year).Ok?)
            && (r.Err? ==> r.error == CheckCall(origin, semester, year).error && s' == s)
            && (r.Ok? ==>
                  var packed := PackSemester(semester, year);
                  && s'.staffAddCompetenceMap
                       == s.staffAddCompetenceMap[id := StaffAddCompetenceRecord(id, studentId, competenceId, origin.account, packed)]
                  && s'.collectedCompetencies == Appended(s.collectedCompetencies, studentId, competenceId)
                  && s'.staffAddCompetenciesSemester == Appended(s.staffAddCompetenciesSemester, packed, id)
                  && s'.events == s.events + [AddCompetenceFromStaff(studentId, competenceId, origin.account)]
                  && s'.attendedActivityMap == s.attendedActivityMap
                  && s'.autoAddCompetenceMap == s.autoAddCompetenceMap
                  && s'.attendedActivities == s.attendedActivities
                  && s'.attendedActivitiesSemester == s.attendedActivitiesSemester
                  && s'.autoAddCompetenciesSemester == s.autoAddCompetenciesSemester)
  {
    match CheckCall(origin, semester, year)
    case Err(e) => (s, Err(e))
    case Ok((issuer, packed)) =>
      (s.(staffAddCompetenceMap := s.staffAddCompetenceMap[id := StaffAddCompetenceRecord(id, studentId, competenceId, issuer, packed)],
          collectedCompetencies := Appended(s.collectedCompetencies, studentId, competenceId),
          staffAddCompetenciesSemester := Appended(s.staffAddCompetenciesSemester, packed, id),
          events := s.events + [AddCompetenceFromStaff(studentId, competenceId, issuer)]),
       Ok(()))
  }

  /** `approve_activity`: as `staff_add_competence`, for an activity. */
  function Approve(s: RuntimeState, origin: Origin, studentId: StudentId, activityId: ActivityId,
                   semester: uint16, year: uint16, id: Hash): (res: (RuntimeState, Result<(), DispatchError>))
    ensures var (s', r) := res;
            && (r.Ok? <==> CheckCall(origin, semester, year).Ok?)
            && (r.Err? ==> r.error == CheckCall(origin, semester, year).error && s' == s)
            && (r.Ok? ==>
                  var packed := PackSemester(semester, year);
                  && s'.attendedActivityMap
                       == s.attendedActivityMap[id := AttendedActivityRecord(id, studentId, activityId, origin.account, packed)]
                  && s'.attendedActivities == Appended(s.attendedActivities, studentId, activityId)
                  && s'.attendedActivitiesSemester == Appended(s.attendedActivitiesSemester, packed, id)
                  && s'.events == s.events + [ActivityApprove(studentId, activityId, origin.account)]
                  && s'.staffAddCompetenceMap == s.staffAddCompetenceMap
                  && s'.autoAddCompetenceMap == s.autoAddCompetenceMap
                  && s'.collectedCompetencies == s.collectedCompetencies
                  && s'.staffAddCompetenciesSemester == s.staffAddCompetenciesSemester
                  && s'.autoAddCompetenciesSemester == s.autoAddCompetenciesSemester)
  {
    match CheckCall(origin, semester, year)
    case Err(e) => (s, Err(e))
    case Ok((approver, packed)) =>
      (s.(attendedActivityMap := s.attendedActivityMap[id := AttendedActivityRecord(id, studentId, activityId, approver, packed)],
          attendedActivities := Appended(s.attendedActivities, studentId, activityId),
          attendedActivitiesSemester := Appended(s.attendedActivitiesSemester, packed, id),
          events := s.events + [ActivityApprove(studentId, activityId, approver)]),
       Ok(()))
  }

  /** `auto_add_competence`: no origin and no checks; the semester is used as given. */
  function AutoAdd(s: RuntimeState, studentId: StudentId, competenceId: CompetenceId, semester: uint16, id: Hash)
    : (s': RuntimeState)
    ensures s'.autoAddCompetenceMap
              == s.autoAddCompetenceMap[id := AutoAddCompetenceRecord(id, studentId, competenceId, semester)]
    ensures s'.collectedCompetencies == Appended(s.collectedCompetencies, studentId, competenceId)
    ensures s'.autoAddCompetenciesSemester == Appended(s.autoAddCompetenciesSemester, semester, id)
    ensures s'.events == s.events + [AddCompetence(studentId, competenceId)]
    ensures && s'.staffAddCompetenceMap == s.staffAddCompetenceMap
            && s'.attendedActivityMap == s.attendedActivityMap
            && s'.attendedActivities == s.attendedActivities
            && s'.staffAddCompetenciesSemester == s.staffAddCompetenciesSemester
            && s'.attendedActivitiesSemester == s.attendedActivitiesSemester
  {
    s.(autoAddCompetenceMap := s.autoAddCompetenceMap[id := AutoAddCompetenceRecord(id, studentId, competenceId, semester)],
       collectedCompetencies := Appended(s.collectedCompetencies, studentId, competenceId),
       autoAddCompetenciesSemester := Appended(s.autoAddCompetenciesSemester, semester, id),
       events := s.events + [AddCompetence(studentId, competenceId)])
  }

  /** Every hash listed under a semester names a record of that semester. */
  ghost predicate SemesterIndexed<R>(index: map<uint16, seq<Hash>>, records: map<Hash, R>, semesterOf: R -> uint16) {
    forall p, h | p in index && h in index[p] :: h in records && semesterOf(records[h]) == p
  }

  /** Every record's item is in its student's list. */
  ghost predicate StudentIndexed<R, I>(records: map<Hash, R>, lists: map<StudentId, seq<I>>,
                                       studentOf: R -> StudentId, itemOf: R -> I) {
    forall h | h in records :: studentOf(records[h]) in lists && itemOf(records[h]) in lists[studentOf(records[h])]
  }

  function StaffSemester(r: StaffAddCompetenceRecord): uint16 { r.semester }
  function StaffStudent(r: StaffAddCompetenceRecord): StudentId { r.studentId }
  function StaffItem(r: StaffAddCompetenceRecord): CompetenceId { r.competenceId }
  function ActivitySemester(r: AttendedActivityRecord): uint16 { r.semester }
  function ActivityStudent(r: AttendedActivityRecord): StudentId { r.studentId }
  function ActivityItem(r: AttendedActivityRecord): ActivityId { r.activityId }
  function AutoSemester(r: AutoAddCompetenceRecord): uint16 { r.semester }
  function AutoStudent(r: AutoAddCompetenceRecord): StudentId { r.studentId }
  function AutoItem(r: AutoAddCompetenceRecord): CompetenceId { r.competenceId }

  /**
   * The indexes agree with the records: every hash listed under a semester
   * names a record of that semester, and every record's competence or
   * activity is in its student's list.
   */
  ghost predicate Indexed(s: RuntimeState) {
    && SemesterIndexed(s.staffAddCompetenciesSemester, s.staffAddCompetenceMap, StaffSemester)
    && SemesterIndexed(s.attendedActivitiesSemester, s.attendedActivityMap, ActivitySemester)
    && SemesterIndexed(s.autoAddCompetenciesSemester, s.autoAddCompetenceMap, AutoSemester)
    && StudentIndexed(s.staffAddCompetenceMap, s.collectedCompetencies, StaffStudent, StaffItem)
    && StudentIndexed(s.autoAddCompetenceMap, s.collectedCompetencies, AutoStudent, AutoItem)
    && StudentIndexed(s.attendedActivityMap, s.attendedActivities, ActivityStudent, ActivityItem)
  }

  /** The hash of a new record is fresh, or names a record of the same semester (the hash covers the semester). */
  ghost predicate FreshFor<R>(records: map<Hash, R>, id: Hash, semesterOf: R -> uint16, packed: uint16) {
    id !in records || semesterOf(records[id]) == packed
  }

  lemma InsertSemesterIndexed<R>(index: map<uint16, seq<Hash>>, records: map<Hash, R>, semesterOf: R -> uint16,
                                 id: Hash, rec: R)
    requires SemesterIndexed(index, records, semesterOf)
    requires FreshFor(records, id, semesterOf, semesterOf(rec))
    ensures SemesterIndexed(Appended(index, semesterOf(rec), id), records[id := rec], semesterOf)
  {
    var index', records' := Appended(index, semesterOf(rec), id), records[id := rec];
    forall p, h | p in index' && h in index'[p] ensures h in records' && semesterOf(records'[h]) == p {
      if p == semesterOf(rec) && h !in index'[p][..|index'[p]| - 1] {
        assert h == id;
      } else if p == semesterOf(rec) {
        assert h in index[p];
      } else {
        assert h in index[p];
      }
    }
  }

  lemma InsertStudentIndexed<R, I>(records: map<Hash, R>, lists: map<StudentId, seq<I>>,
                                   studentOf: R -> StudentId, itemOf: R -> I, id: Hash, rec: R)
    requires StudentIndexed(records, lists, studentOf, itemOf)
    ensures StudentIndexed(records[id := rec], Appended(lists, studentOf(rec), itemOf(rec)), studentOf, itemOf)
  {
    var records', lists' := records[id := rec], Appended(lists, studentOf(rec), itemOf(rec));
    forall h | h in records'
      ensures var r := records'[h]; studentOf(r) in lists' && itemOf(r) in lists'[studentOf(r)]
    {
      var r := records'[h];
      if h != id && studentOf(r) == studentOf(rec) {
        assert itemOf(r) in lists[studentOf(r)];
      }
    }
  }

  lemma GrowStudentIndexed<R, I>(records: map<Hash, R>, lists: map<StudentId, seq<I>>,
                                 studentOf: R -> StudentId, itemOf: R -> I, student: StudentId, item: I)
    requires StudentIndexed(records, lists, studentOf, itemOf)
    ensures StudentIndexed(records, Appended(lists, student, item), studentOf, itemOf)
  {
    var lists' := Appended(lists, student, item);
    forall h | h in records
      ensures studentOf(records[h]) in lists' && itemOf(records[h]) in lists'[studentOf(records[h])]
    {
      if studentOf(records[h]) == student {
        assert itemOf(records[h]) in lists[student];
      }
    }
  }

  /**
   * A successful `staff_add_competence` keeps the indexes consistent, adds
   * the competence at the end of the student's list and the hash at the end
   * of the semester's list, and emits one event; a refused one changes
   * nothing.
   */
  lemma StaffAddIndexed(s: RuntimeState, origin: Origin, studentId: StudentId, competenceId: CompetenceId,
                        semester: uint16, year: uint16, id: Hash)
    requires Indexed(s)
    requires (semester == 1 || semester == 2) && 2000 <= year <= 3000 ==>
               FreshFor(s.staffAddCompetenceMap, id, StaffSemester, PackSemester(semester, year))
    ensures var (s', r) := StaffAdd(s, origin, studentId, competenceId, semester, year, id);
            && (r.Ok? <==> origin.Signed? && (semester == 1 || semester == 2) && 2000 <= year <= 3000)
            && (r.Err? ==> s' == s)
            && (r.Ok? ==>
                  var packed := PackSemester(semester, year);
                  && Indexed(s')
                  && s'.staffAddCompetenceMap[id] == StaffAddCompetenceRecord(id, studentId, competenceId, origin.account, packed)
                  && s'.collectedCompetencies[studentId]
                       == (if studentId in s.collectedCompetencies then s.collectedCompetencies[studentId] else []) + [competenceId]
                  && s'.staffAddCompetenciesSemester[packed]
                       == (if packed in s.staffAddCompetenciesSemester then s.staffAddCompetenciesSemester[packed] else []) + [id]
                  && s'.events == s.events + [AddCompetenceFromStaff(studentId, competenceId, origin.account)])
  {
    if CheckCall(origin, semester, year).Ok? {
      var packed := PackSemester(semester, year);
      var rec := StaffAddCompetenceRecord(id, studentId, competenceId, origin.account, packed);
      InsertSemesterIndexed(s.staffAddCompetenciesSemester, s.staffAddCompetenceMap, StaffSemester, id, rec);
      InsertStudentIndexed(s.staffAddCompetenceMap, s.collectedCompetencies, StaffStudent, StaffItem, id, rec);
      GrowStudentIndexed(s.autoAddCompetenceMap, s.collectedCompetencies, AutoStudent, AutoItem, studentId, competenceId);
    }
  }

  /** The same for `approve_activity`. */
  lemma ApproveIndexed(s: RuntimeState, origin: Origin, studentId: StudentId, activityId: ActivityId,
                       semester: uint16, year: uint16, id: Hash)
    requires Indexed(s)
    requires (semester == 1 || semester == 2) && 2000 <= year <= 3000 ==>
               FreshFor(s.attendedActivityMap, id, ActivitySemester, PackSemester(semester, year))
    ensures var (s', r) := Approve(s, origin, studentId, activityId, semester, year, id);
            && (r.Ok? <==> origin.Signed? && (semester == 1 || semester == 2) && 2000 <= year <= 3000)
            && (r.Err? ==> s' == s)
            && (r.Ok? ==>
                  var packed := PackSemester(semester, year);
                  && Indexed(s')
                  && s'.attendedActivityMap[id] == AttendedActivityRecord(id, studentId, activityId, origin.account, packed)
                  && s'.attendedActivities[studentId]
                       == (if studentId in s.attendedActivities then s.attendedActivities[studentId] else []) + [activityId]
                  && s'.attendedActivitiesSemester[packed]
                       == (if packed in s.attendedActivitiesSemester then s.attendedActivitiesSemester[packed] else []) + [id]
                  && s'.events == s.events + [ActivityApprove(studentId, activityId, origin.account)])
  {
    if CheckCall(origin, semester, year).Ok? {
      var packed := PackSemester(semester, year);
      var rec := AttendedActivityRecord(id, studentId, activityId, origin.account, packed);
      InsertSemesterIndexed(s.attendedActivitiesSemester, s.attendedActivityMap, ActivitySemester, id, rec);
      InsertStudentIndexed(s.attendedActivityMap, s.attendedActivities, ActivityStudent, ActivityItem, id, rec);
    }
  }

  /** The same for `auto_add_competence`, which never fails. */
  lemma AutoAddIndexed(s: RuntimeState, studentId: StudentId, competenceId: CompetenceId, semester: uint16, id: Hash)
    requires Indexed(s)
    requires FreshFor(s.autoAddCompetenceMap, id, AutoSemester, semester)
    ensures var s' := AutoAdd(s, studentId, competenceId, semester, id);
            && Indexed(s')
            && s'.autoAddCompetenceMap[id] == AutoAddCompetenceRecord(id, studentId, competenceId, semester)
            && s'.collectedCompetencies[studentId]
                 == (if studentId in s.collectedCompetencies then s.collectedCompetencies[studentId] else []) + [competenceId]
            && s'.autoAddCompetenciesSemester[semester]
                 == (if semester in s.autoAddCompetenciesSemester then s.autoAddCompetenciesSemester[semester] else []) + [id]
            && s'.events == s.events + [AddCompetence(studentId, competenceId)]
  {
    var rec := AutoAddCompetenceRecord(id, studentId, competenceId, semester);
    InsertSemesterIndexed(s.autoAddCompetenciesSemester, s.autoAddCompetenceMap, AutoSemester, id, rec);
    InsertStudentIndexed(s.autoAddCompetenceMap, s.collectedCompetencies, AutoStudent, AutoItem, id, rec);
    GrowStudentIndexed(s.staffAddCompetenceMap, s.collectedCompetencies, StaffStudent, StaffItem, studentId, competenceId);
  }

  /** The module's storage items, updated in place by its calls. */
  class SitcomModule {
    var staffAddCompetenceMap: map<Hash, StaffAddCompetenceRecord>
    var attendedActivityMap: map<Hash, AttendedActivityRecord>
    var autoAddCompetenceMap: map<Hash, AutoAddCompetenceRecord>
    var collectedCompetencies: map<StudentId, seq<CompetenceId>>
    var attendedActivities: map<StudentId, seq<ActivityId>>
    var staffAddCompetenciesSemester: map<uint16, seq<Hash>>
    var attendedActivitiesSemester: map<uint16, seq<Hash>>
    var autoAddCompetenciesSemester: map<uint16, seq<Hash>>
    var events: seq<RuntimeEvent>

    function State(): RuntimeState
      reads this
    {
      RuntimeState(staffAddCompetenceMap, attendedActivityMap, autoAddCompetenceMap,
                   collectedCompetencies, attendedActivities,
                   staffAddCompetenciesSemester, attendedActivitiesSemester, autoAddCompetenciesSemester, events)
    }

    /** Genesis: every storage item empty. */
    constructor ()
      ensures State() == RuntimeState(map[], map[], map[], map[], map[], map[], map[], map[], [])
      ensures Indexed(State())
    {
      staffAddCompetenceMap, attendedActivityMap, autoAddCompetenceMap := map[], map[], map[];
      collectedCompetencies, attendedActivities := map[], map[];
      staffAddCompetenciesSemester, attendedActivitiesSemester, autoAddCompetenciesSemester := map[], map[], map[];
      events := [];
    }

    method StaffAddCompetence(origin: Origin, studentId: StudentId, competenceId: CompetenceId,
                              semester: uint16, year: uint16, id: Hash)
      returns (r: Result<(), DispatchError>)
      modifies this
      ensures (State(), r) == StaffAdd(old(State()), origin, studentId, competenceId, semester, year, id)
    {
      if origin.Unsigned? { return Err(BadOrigin); }
      var issuer := origin.account;
      if semester != 1 && semester != 2 { return Err(BadSemester); }
      if !(2000 <= year <= 3000) { return Err(BadYear); }
      var packed := semester * 10000 + year;
      var record := StaffAddCompetenceRecord(id, studentId, competenceId, issuer, packed);
      var competencies := if studentId in collectedCompetencies then collectedCompetencies[studentId] else [];
      competencies := competencies + [competenceId];
      var hashes := if packed in staffAddCompetenciesSemester then staffAddCompetenciesSemester[packed] else [];
      hashes := hashes + [id];
      staffAddCompetenceMap := staffAddCompetenceMap[id := record];
      collectedCompetencies := collectedCompetencies[studentId := competencies];
      staffAddCompetenciesSemester := staffAddCompetenciesSemester[packed := hashes];
      events := events + [AddCompetenceFromStaff(studentId, competenceId, issuer)];
      assert CheckCall(origin, semester, year) == Ok((issuer, packed));
      r := Ok(());
    }

    method ApproveActivity(origin: Origin, studentId: StudentId, activityId: ActivityId,
                           semester: uint16, year: uint16, id: Hash)
      returns (r: Result<(), DispatchError>)
      modifies this
      ensures (State(), r) == Approve(old(State()), origin, studentId, activityId, semester, year, id)
    {
      if origin.Unsigned? { return Err(BadOrigin); }
      var approver := origin.account;
      if semester != 1 && semester != 2 { return Err(BadSemester); }
      if !(2000 <= year <= 3000) { return Err(BadYear); }
      var packed := semester * 10000 + year;
      var record := AttendedActivityRecord(id, studentId, activityId, approver, packed);
      var activities := if studentId in attendedActivities then attendedActivities[studentId] else [];
      activities := activities + [activityId];
      var hashes := if packed in attendedActivitiesSemester then attendedActivitiesSemester[packed] else [];
      hashes := hashes + [id];
      attendedActivityMap := attendedActivityMap[id := record];
      attendedActivities := attendedActivities[studentId := activities];
      attendedActivitiesSemester := attendedActivitiesSemester[packed := hashes];
      events := events + [ActivityApprove(studentId, activityId, approver)];
      assert CheckCall(origin, semester, year) == Ok((approver, packed));
      r := Ok(());
    }

    method AutoAddCompetence(studentId: StudentId, competenceId: CompetenceId, semester: uint16, id: Hash)
      returns (r: Result<(), DispatchError>)
      modifies this
      ensures r == Ok(()) && State() == AutoAdd(old(State()), studentId, competenceId, semester, id)
    {
      var record := AutoAddCompetenceRecord(id, studentId, competenceId, semester);
      var competencies := if studentId in collectedCompetencies then collectedCompetencies[studentId] else [];
      competencies := competencies + [competenceId];
      var hashes := if semester in autoAddCompetenciesSemester then autoAddCompetenciesSemester[semester] else [];
      hashes := hashes + [id];
      autoAddCompetenceMap := autoAddCompetenceMap[id := record];
      collectedCompetencies := collectedCompetencies[studentId := competencies];
      autoAddCompetenciesSemester := autoAddCompetenciesSemester[semester := hashes];
      events := events + [AddCompetence(studentId, competenceId)];
      r := Ok(());
    }
  }
}
