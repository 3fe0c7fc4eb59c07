/**
 * `addWorkSchedule` (month and year bounds, one schedule per month and year)
 * and `getWorkSchedules` (every schedule with its shifts, every shift with
 * its assignments).
 */
module WorkScheduleController {
  import opened Common
  import opened Store

  datatype ScheduleRequest = ScheduleRequest(month: int, year: int)

  const FIRST_WORK_YEAR: int := 2020

  /** `WorkSchedule.findOne({ month, year })` finds a schedule. */
  predicate ScheduleExists(schedules: seq<WorkSchedule>, month: int, year: int)
  {
    exists k :: 0 <= k < |schedules| && schedules[k].month == month && schedules[k].year == year
  }

  /** The guards of `addWorkSchedule`, in the order it runs them. */
  function AddWorkScheduleChecks(schemaOk: bool, req: ScheduleRequest, schedules: seq<WorkSchedule>): seq<Check>
  {
    [ Check(schemaOk, ValidationFailed),
      Check(1 <= req.month <= 12, InvalidWorkMonth),
      Check(req.year >= FIRST_WORK_YEAR, InvalidWorkYear),
      Check(!ScheduleExists(schedules, req.month, req.year), DuplicatedWorkSchedule) ]
  }

  /** No two schedules share a month and year. */
  ghost predicate MonthYearUnique(schedules: seq<WorkSchedule>)
  {
    forall k, l :: 0 <= k < l < |schedules| ==>
      schedules[k].month != schedules[l].month || schedules[k].year != schedules[l].year
  }

  lemma {:induction false} AppendKeepsMonthYearUnique(schedules: seq<WorkSchedule>, s: WorkSchedule)
    requires MonthYearUnique(schedules) && !ScheduleExists(schedules, s.month, s.year)
    ensures MonthYearUnique(schedules + [s])
  {
    var all := schedules + [s];
    forall k, l | 0 <= k < l < |all|
      ensures all[k].month != all[l].month || all[k].year != all[l].year
    {
      if l == |schedules| {
        assert all[k] == schedules[k];
      }
    }
  }

  /** A schedule id no shift names has an empty query result. */
  lemma NoShiftsOfFreshId(shifts: seq<WorkShift>, id: Id)
    requires forall k :: 0 <= k < |shifts| ==> shifts[k].workSchedule != id
    ensures ShiftsOf(shifts, id) == []
  {
  }

  method AddWorkSchedule(db: Db, validates: ScheduleRequest -> bool, req: ScheduleRequest) returns (r: Response<Id>)
    requires db.Valid()
    modifies db
    ensures db.Valid()
    ensures var failure := FirstFailure(AddWorkScheduleChecks(validates(req), req, old(db.schedules)));
            && (failure.Some? ==> r == Err(failure.value) && unchanged(db))
            && (failure.None? ==> r.Ok?)
    ensures r.Ok? ==>
      && r.data == old(db.nextId)
      && db.schedules == old(db.schedules) + [WorkSchedule(r.data, req.month, req.year, [])]
      && db.products == old(db.products) && db.categories == old(db.categories) && db.suppliers == old(db.suppliers)
      && db.shifts == old(db.shifts) && db.assignments == old(db.assignments)
      && db.nextId == old(db.nextId) + 1
    ensures r.Status() == OK || r.Status() == BAD_REQUEST
    ensures old(MonthYearUnique(db.schedules)) ==> MonthYearUnique(db.schedules)
    ensures old(ShiftListsAgree(db.schedules, db.shifts)) ==> ShiftListsAgree(db.schedules, db.shifts)
  {
    var checks := AddWorkScheduleChecks(validates(req), req, db.schedules);
    AddWorkScheduleStatus(validates(req), req, db.schedules);
    if !validates(req) {
      FirstFailureAt(checks, 0);
      return Err(ValidationFailed);
    }
    var isValidMonth := req.month >= 1 && req.month <= 12;
    if !isValidMonth {
      FirstFailureAt(checks, 1);
      return Err(InvalidWorkMonth);
    }
    var isValidYear := req.year >= FIRST_WORK_YEAR;
    if !isValidYear {
      FirstFailureAt(checks, 2);
      return Err(InvalidWorkYear);
    }
    if ScheduleExists(db.schedules, req.month, req.year) {
      FirstFailureAt(checks, 3);
      return Err(DuplicatedWorkSchedule);
    }
    assert forall i :: 0 <= i < |checks| ==> checks[i].passes;

    var id := db.nextId;
    var schedule := WorkSchedule(id, req.month, req.year, []);
    if MonthYearUnique(db.schedules) {
      AppendKeepsMonthYearUnique(db.schedules, schedule);
    }
    NoShiftsOfFreshId(db.shifts, id);
    db.schedules := db.schedules + [schedule];
    db.nextId := db.nextId + 1;
    r := Ok(id);
  }

  /** `addWorkSchedule` succeeds exactly when the month is in 1..12, the year is at least 2020 and the pair is new. */
  lemma {:induction false} AddWorkScheduleSucceedsIff(schemaOk: bool, req: ScheduleRequest, schedules: seq<WorkSchedule>)
    ensures FirstFailure(AddWorkScheduleChecks(schemaOk, req, schedules)).None?
        <==> schemaOk && 1 <= req.month <= 12 && req.year >= FIRST_WORK_YEAR && !ScheduleExists(schedules, req.month, req.year)
  {
    var checks := AddWorkScheduleChecks(schemaOk, req, schedules);
    if FirstFailure(checks).None? {
      assert checks[0].passes && checks[1].passes && checks[2].passes && checks[3].passes;
    }
  }

  /** A bad month is reported whatever the year: month 13 of 2019 answers INVALID_WORK_MONTH. */
  lemma {:induction false} MonthCheckedBeforeYear(req: ScheduleRequest, schedules: seq<WorkSchedule>)
    requires !(1 <= req.month <= 12)
    ensures FirstFailure(AddWorkScheduleChecks(true, req, schedules)) == Some(InvalidWorkMonth)
  {
    FirstFailureAt(AddWorkScheduleChecks(true, req, schedules), 1);
  }

  /** A good month with a year before 2020 answers INVALID_WORK_YEAR, duplicate or not. */
  lemma {:induction false} YearCheckedBeforeDuplicate(req: ScheduleRequest, schedules: seq<WorkSchedule>)
    requires 1 <= req.month <= 12 && req.year < FIRST_WORK_YEAR
    ensures FirstFailure(AddWorkScheduleChecks(true, req, schedules)) == Some(InvalidWorkYear)
  {
    FirstFailureAt(AddWorkScheduleChecks(true, req, schedules), 2);
  }

  /** Every refusal of `addWorkSchedule` is a 400. */
  lemma {:induction false} AddWorkScheduleStatus(schemaOk: bool, req: ScheduleRequest, schedules: seq<WorkSchedule>)
    ensures var failure := FirstFailure(AddWorkScheduleChecks(schemaOk, req, schedules));
      failure.Some? ==> StatusOf(failure.value) == BAD_REQUEST
  {
    var checks := AddWorkScheduleChecks(schemaOk, req, schedules);
    var failure := FirstFailure(checks);
    if failure.Some? {
      var i :| 0 <= i < |checks| && !checks[i].passes && checks[i].code == failure.value;
      assert checks[i].code in {ValidationFailed, InvalidWorkMonth, InvalidWorkYear, DuplicatedWorkSchedule};
    }
  }

  // ----- getWorkSchedules -----

  /** An assignment as returned: its `workShift` back-reference removed. */
  datatype AssignmentView = AssignmentView(id: Id, assigner: Id)

  /** A shift as returned: its stored fields, `workAssignments` replaced by the assignments found for it. */
  datatype ShiftView = ShiftView(id: Id, workSchedule: Id, startTime: int, endTime: int, workAssignments: seq<AssignmentView>)

  /** A schedule as returned: `workShifts` replaced by the shifts found for it. */
  datatype ScheduleView = ScheduleView(id: Id, month: int, year: int, workShifts: seq<ShiftView>)

  function WithoutShiftRef(a: WorkAssignment): AssignmentView
  {
    AssignmentView(a.id, a.assigner)
  }

  function ShiftTree(sh: WorkShift, assignments: seq<WorkAssignment>): ShiftView
  {
    var found := AssignmentsOf(assignments, sh.id);
    ShiftView(sh.id, sh.workSchedule, sh.startTime, sh.endTime,
              seq(|found|, k requires 0 <= k < |found| => WithoutShiftRef(found[k])))
  }

  function ScheduleTree(s: WorkSchedule, shifts: seq<WorkShift>, assignments: seq<WorkAssignment>): ScheduleView
  {
    var found := ShiftsOf(shifts, s.id);
    ScheduleView(s.id, s.month, s.year, seq(|found|, k requires 0 <= k < |found| => ShiftTree(found[k], assignments)))
  }

  /** What `getWorkSchedules` answers: one tree per stored schedule, in store order. */
  function ScheduleForest(schedules: seq<WorkSchedule>, shifts: seq<WorkShift>, assignments: seq<WorkAssignment>): seq<ScheduleView>
  {
    seq(|schedules|, k requires 0 <= k < |schedules| => ScheduleTree(schedules[k], shifts, assignments))
  }

  /**
   * The `for…of` loop of `getWorkSchedules`: drop the `workShift` field of
   * every assignment found, keeping their order.
   */
  method StripWorkShift(found: seq<WorkAssignment>) returns (views: seq<AssignmentView>)
    ensures |views| == |found|
    ensures forall k :: 0 <= k < |found| ==> views[k].id == found[k].id && views[k].assigner == found[k].assigner
  {
    views := [];
    for k := 0 to |found|
      invariant |views| == k
      invariant forall j :: 0 <= j < k ==> views[j] == WithoutShiftRef(found[j])
    {
      views := views + [WithoutShiftRef(found[k])];
    }
  }

  /**
   * `getWorkSchedules`: for each stored schedule, the shifts that name it;
   * for each such shift, the assignments that name it, stripped.
   */
  method GetWorkSchedules(db: Db) returns (views: seq<ScheduleView>)
    ensures views == ScheduleForest(db.schedules, db.shifts, db.assignments)
  {
    views := [];
    for i := 0 to |db.schedules|
      invariant views == ScheduleForest(db.schedules, db.shifts, db.assignments)[..i]
    {
      var schedule := db.schedules[i];
      var workShifts := ShiftsOf(db.shifts, schedule.id);
      var shiftViews := [];
      for j := 0 to |workShifts|
        invariant |shiftViews| == j
        invariant forall k :: 0 <= k < j ==> shiftViews[k] == ShiftTree(workShifts[k], db.assignments)
      {
        var shift := workShifts[j];
        var workAssignments := AssignmentsOf(db.assignments, shift.id);
        var stripped := StripWorkShift(workAssignments);
        assert stripped == seq(|workAssignments|, k requires 0 <= k < |workAssignments| => WithoutShiftRef(workAssignments[k]));
        shiftViews := shiftViews + [ShiftView(shift.id, shift.workSchedule, shift.startTime, shift.endTime, stripped)];
      }
      assert ScheduleView(schedule.id, schedule.month, schedule.year, shiftViews) == ScheduleTree(schedule, db.shifts, db.assignments);
      views := views + [ScheduleView(schedule.id, schedule.month, schedule.year, shiftViews)];
    }
    assert ScheduleForest(db.schedules, db.shifts, db.assignments)[..|db.schedules|]
           == ScheduleForest(db.schedules, db.shifts, db.assignments);
  }

  /** The answer has one entry per stored schedule, in the same order, with its id, month and year. */
  lemma ForestKeepsScheduleOrder(schedules: seq<WorkSchedule>, shifts: seq<WorkShift>, assignments: seq<WorkAssignment>)
    ensures var forest := ScheduleForest(schedules, shifts, assignments);
      && |forest| == |schedules|
      && forall k :: 0 <= k < |schedules| ==>
           forest[k].id == schedules[k].id && forest[k].month == schedules[k].month && forest[k].year == schedules[k].year
  {
  }

  /**
   * A returned schedule's shifts are exactly the stored shifts that name it,
   * in store order and copied field for field; a returned shift's
   * assignments are exactly the stored assignments that name it, in store
   * order, each with its id and assigner.
   */
  lemma {:induction false} ForestShiftsAreExact(schedules: seq<WorkSchedule>, shifts: seq<WorkShift>,
                                                assignments: seq<WorkAssignment>, k: nat)
    requires k < |schedules|
    ensures var tree := ScheduleForest(schedules, shifts, assignments)[k];
            var found := ShiftsOf(shifts, schedules[k].id);
      && |tree.workShifts| == |found|
      && (forall j :: 0 <= j < |found| ==>
            && found[j] in shifts && found[j].workSchedule == schedules[k].id
            && tree.workShifts[j].id == found[j].id && tree.workShifts[j].workSchedule == found[j].workSchedule
            && tree.workShifts[j].startTime == found[j].startTime && tree.workShifts[j].endTime == found[j].endTime)
      && (forall v :: v in tree.workShifts ==>
            var stored := AssignmentsOf(assignments, v.id);
            && |v.workAssignments| == |stored|
            && forall i :: 0 <= i < |stored| ==>
                 v.workAssignments[i].id == stored[i].id && v.workAssignments[i].assigner == stored[i].assigner)
      && (forall v, w :: v in tree.workShifts && w in assignments && w.workShift == v.id ==>
            AssignmentView(w.id, w.assigner) in v.workAssignments)
  {
    var tree := ScheduleForest(schedules, shifts, assignments)[k];
    var found := ShiftsOf(shifts, schedules[k].id);
    assert tree.workShifts == seq(|found|, j requires 0 <= j < |found| => ShiftTree(found[j], assignments));
    forall j | 0 <= j < |found|
      ensures found[j] in shifts && found[j].workSchedule == schedules[k].id
    {
      assert found[j] in found;
    }
    forall v, w | v in tree.workShifts && w in assignments && w.workShift == v.id
      ensures AssignmentView(w.id, w.assigner) in v.workAssignments
    {
      var j :| 0 <= j < |found| && tree.workShifts[j] == v;
      var stored := AssignmentsOf(assignments, found[j].id);
      assert w in stored;
      var i :| 0 <= i < |stored| && stored[i] == w;
      assert v.workAssignments[i] == WithoutShiftRef(w);
    }
  }

  /**
   * When every schedule's stored `workShifts` list agrees with the shifts
   * that name it, the answer lists, for every schedule, the shifts of its
   * stored list, in that order.
   */
  lemma {:induction false} ForestFollowsStoredLists(schedules: seq<WorkSchedule>, shifts: seq<WorkShift>,
                                                    assignments: seq<WorkAssignment>)
    requires ShiftListsAgree(schedules, shifts)
    ensures var forest := ScheduleForest(schedules, shifts, assignments);
      forall k :: 0 <= k < |schedules| ==>
        && |forest[k].workShifts| == |schedules[k].workShifts|
        && forall j :: 0 <= j < |schedules[k].workShifts| ==> forest[k].workShifts[j].id == schedules[k].workShifts[j]
  {
    var forest := ScheduleForest(schedules, shifts, assignments);
    forall k | 0 <= k < |schedules|
      ensures |forest[k].workShifts| == |schedules[k].workShifts|
      ensures forall j :: 0 <= j < |schedules[k].workShifts| ==> forest[k].workShifts[j].id == schedules[k].workShifts[j]
    {
      ForestShiftsAreExact(schedules, shifts, assignments, k);
    }
  }
}
