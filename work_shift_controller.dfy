/**
 * `addWorkShift`: a shift is created only inside an existing schedule, within
 * that schedule's month and year, and only once per (schedule, start, end);
 * its id is then appended to the schedule's `workShifts` list.
 */
module WorkShiftController {
  import opened Common
  import opened Store
  import opened Calendar

  /**
   * The body of the request. A time is the value of `new Date(...)` on the
   * submitted field: `None` stands for an Invalid Date (NaN), and an absent
   * schedule id for one that names no document.
   */
  datatype ShiftRequest = ShiftRequest(workScheduleID: Option<Id>, startTime: Option<int>, endTime: Option<int>)

  /** `WorkSchedule.findOne({ _id: workScheduleID })`. */
  function ParentOf(req: ShiftRequest, schedules: seq<WorkSchedule>): (r: Option<WorkSchedule>)
    ensures r.Some? <==> req.workScheduleID.Some? && exists k :: 0 <= k < |schedules| && schedules[k].id == req.workScheduleID.value
    ensures r.Some? ==> r.value in schedules && r.value.id == req.workScheduleID.value
  {
    if req.workScheduleID.None? then None
    else
      match FindSchedule(schedules, req.workScheduleID.value)
      case None => None
      case Some(k) => Some(schedules[k])
  }

  /** The time value falls in the schedule's month and year, in local time. */
  predicate InScheduleMonth(t: int, s: WorkSchedule, tzOffsetMs: int)
  {
    var d := LocalDateOf(t, tzOffsetMs);
    d.month == s.month && d.year == s.year
  }

  /**
   * `isValidTimeRage`: the start's day of month is at least 1, the start
   * comes before the end, and both fall in the schedule's month and year.
   * Every comparison with an Invalid Date is false.
   */
  predicate ValidTimeRange(start: Option<int>, end: Option<int>, s: WorkSchedule, tzOffsetMs: int)
  {
    && start.Some? && LocalDateOf(start.value, tzOffsetMs).day >= 1
    && end.Some? && start.value < end.value
    && InScheduleMonth(start.value, s, tzOffsetMs)
    && InScheduleMonth(end.value, s, tzOffsetMs)
  }

  /** `WorkShift.findOne({ workSchedule, startTime, endTime })` finds a shift. */
  predicate ShiftExists(shifts: seq<WorkShift>, scheduleId: Id, start: int, end: int)
  {
    exists k :: 0 <= k < |shifts| && shifts[k].workSchedule == scheduleId && shifts[k].startTime == start && shifts[k].endTime == end
  }

  /** The guards of `addWorkShift`, in the order it runs them. */
  function AddWorkShiftChecks(schemaOk: bool, req: ShiftRequest, schedules: seq<WorkSchedule>,
                              shifts: seq<WorkShift>, tzOffsetMs: int): seq<Check>
  {
    var parent := ParentOf(req, schedules);
    [ Check(schemaOk, ValidationFailed),
      Check(parent.Some?, WorkScheduleNotFound),
      Check(parent.Some? && ValidTimeRange(req.startTime, req.endTime, parent.value, tzOffsetMs), InvalidWorkShiftTimeRange),
      Check(!(parent.Some? && req.startTime.Some? && req.endTime.Some? &&
              ShiftExists(shifts, parent.value.id, req.startTime.value, req.endTime.value)), DuplicatedWorkShift) ]
  }

  /** No two shifts of one schedule share both start and end. */
  ghost predicate ShiftTriplesUnique(shifts: seq<WorkShift>)
  {
    forall k, l :: 0 <= k < l < |shifts| ==>
      shifts[k].workSchedule != shifts[l].workSchedule || shifts[k].startTime != shifts[l].startTime ||
      shifts[k].endTime != shifts[l].endTime
  }

  lemma {:induction false} AppendKeepsTriplesUnique(shifts: seq<WorkShift>, sh: WorkShift)
    requires ShiftTriplesUnique(shifts) && !ShiftExists(shifts, sh.workSchedule, sh.startTime, sh.endTime)
    ensures ShiftTriplesUnique(shifts + [sh])
  {
    var all := shifts + [sh];
    forall k, l | 0 <= k < l < |all|
      ensures all[k].workSchedule != all[l].workSchedule || all[k].startTime != all[l].startTime ||
              all[k].endTime != all[l].endTime
    {
      if l == |shifts| {
        assert all[k] == shifts[k];
      }
    }
  }

  /**
   * Appending a shift of schedule `k` and its id to schedule `k`'s list keeps
   * every schedule's list in agreement with the shifts that name it.
   */
  lemma {:induction false} AppendKeepsListsAgree(schedules: seq<WorkSchedule>, shifts: seq<WorkShift>, k: nat, sh: WorkShift)
    requires ShiftListsAgree(schedules, shifts)
    requires k < |schedules| && sh.workSchedule == schedules[k].id
    requires forall i, j :: 0 <= i < j < |schedules| ==> schedules[i].id != schedules[j].id
    ensures ShiftListsAgree(schedules[k := schedules[k].(workShifts := schedules[k].workShifts + [sh.id])], shifts + [sh])
  {
    var after := schedules[k := schedules[k].(workShifts := schedules[k].workShifts + [sh.id])];
    forall i | 0 <= i < |after|
      ensures after[i].workShifts == ShiftIds(ShiftsOf(shifts + [sh], after[i].id))
    {
      ShiftsOfAppend(shifts, sh, after[i].id);
      if i == k {
        ShiftIdsAppend(ShiftsOf(shifts, after[i].id), sh);
      } else {
        assert after[i] == schedules[i];
        assert schedules[i].id != schedules[k].id;
      }
    }
  }

  /** Saving a shift under a fresh id and listing it in its schedule keeps the ids consistent. */
  lemma AppendShiftKeepsIds(products: map<Id, Doc>, schedules: seq<WorkSchedule>, shifts: seq<WorkShift>,
                            nextId: Id, k: nat, sh: WorkShift)
    requires IdsConsistent(products, schedules, shifts, nextId)
    requires k < |schedules| && sh.id == nextId && sh.workSchedule == schedules[k].id
    ensures IdsConsistent(products, schedules[k := schedules[k].(workShifts := schedules[k].workShifts + [sh.id])],
                          shifts + [sh], nextId + 1)
  {
  }

  /**
   * The writes of `addWorkShift` once every check has passed: save the new
   * shift, then append its id to schedule `k`'s `workShifts` list.
   */
  method SaveWorkShift(db: Db, k: nat, startTime: int, endTime: int) returns (shift: WorkShift)
    requires db.Valid() && k < |db.schedules|
    requires !ShiftExists(db.shifts, db.schedules[k].id, startTime, endTime)
    modifies db
    ensures db.Valid()
    ensures shift == WorkShift(old(db.nextId), old(db.schedules)[k].id, startTime, endTime, [])
    ensures db.shifts == old(db.shifts) + [shift]
    ensures db.schedules == old(db.schedules)[k := old(db.schedules)[k].(workShifts := old(db.schedules)[k].workShifts + [shift.id])]
    ensures db.products == old(db.products) && db.categories == old(db.categories) && db.suppliers == old(db.suppliers)
    ensures db.assignments == old(db.assignments)
    ensures db.nextId == old(db.nextId) + 1
    ensures old(ShiftTriplesUnique(db.shifts)) ==> ShiftTriplesUnique(db.shifts)
    ensures old(ShiftListsAgree(db.schedules, db.shifts)) ==> ShiftListsAgree(db.schedules, db.shifts)
  {
    var workSchedule := db.schedules[k];
    shift := WorkShift(db.nextId, workSchedule.id, startTime, endTime, []);
    if ShiftTriplesUnique(db.shifts) {
      AppendKeepsTriplesUnique(db.shifts, shift);
    }
    if ShiftListsAgree(db.schedules, db.shifts) {
      AppendKeepsListsAgree(db.schedules, db.shifts, k, shift);
    }
    var schedules := db.schedules[k := workSchedule.(workShifts := workSchedule.workShifts + [shift.id])];
    AppendShiftKeepsIds(db.products, db.schedules, db.shifts, db.nextId, k, shift);
    db.shifts := db.shifts + [shift];
    db.nextId := db.nextId + 1;
    db.schedules := schedules;
  }

  /**
   * `tzOffsetMs` is the offset of the server's local time zone from UTC, the
   * zone `getMonth`, `getFullYear` and `getDate` read the times in.
   */
  method AddWorkShift(db: Db, validates: ShiftRequest -> bool, req: ShiftRequest, tzOffsetMs: int)
    returns (r: Response<WorkShift>)
    requires db.Valid()
    modifies db
    ensures db.Valid()
    ensures var failure := FirstFailure(AddWorkShiftChecks(validates(req), req, old(db.schedules), old(db.shifts), tzOffsetMs));
            && (failure.Some? ==> r == Err(failure.value) && unchanged(db))
            && (failure.None? ==> r.Ok?)
    ensures r.Ok? ==>
      && req.workScheduleID.Some? && req.startTime.Some? && req.endTime.Some?
      && r.data == WorkShift(old(db.nextId), req.workScheduleID.value, req.startTime.value, req.endTime.value, [])
      && db.shifts == old(db.shifts) + [r.data]
      && FindSchedule(old(db.schedules), req.workScheduleID.value).Some?
      && (var k := FindSchedule(old(db.schedules), req.workScheduleID.value).value;
          db.schedules == old(db.schedules)[k := old(db.schedules)[k].(workShifts := old(db.schedules)[k].workShifts + [r.data.id])])
      && db.products == old(db.products) && db.categories == old(db.categories) && db.suppliers == old(db.suppliers)
      && db.assignments == old(db.assignments)
      && db.nextId == old(db.nextId) + 1
    ensures r.Status() == NOT_FOUND <==> validates(req) && ParentOf(req, old(db.schedules)).None?
    ensures old(ShiftTriplesUnique(db.shifts)) ==> ShiftTriplesUnique(db.shifts)
    ensures old(ShiftListsAgree(db.schedules, db.shifts)) ==> ShiftListsAgree(db.schedules, db.shifts)
  {
    AddWorkShiftStatus(validates(req), req, db.schedules, db.shifts, tzOffsetMs);
    var checks := AddWorkShiftChecks(validates(req), req, db.schedules, db.shifts, tzOffsetMs);
    if !validates(req) {
      FirstFailureAt(checks, 0);
      return Err(ValidationFailed);
    }
    var found := if req.workScheduleID.Some? then FindSchedule(db.schedules, req.workScheduleID.value) else None;
    if found.None? {
      FirstFailureAt(checks, 1);
      return Err(WorkScheduleNotFound);
    }
    var k := found.value;
    var workSchedule := db.schedules[k];
    if !ValidTimeRange(req.startTime, req.endTime, workSchedule, tzOffsetMs) {
      FirstFailureAt(checks, 2);
      return Err(InvalidWorkShiftTimeRange);
    }
    var startTime, endTime := req.startTime.value, req.endTime.value;
    if ShiftExists(db.shifts, workSchedule.id, startTime, endTime) {
      FirstFailureAt(checks, 3);
      return Err(DuplicatedWorkShift);
    }
    assert forall i :: 0 <= i < |checks| ==> checks[i].passes;

    var newWorkShift := SaveWorkShift(db, k, startTime, endTime);
    r := Ok(newWorkShift);
  }

  /**
   * The day-of-month conjunct never decides anything: for two valid dates
   * `getDate()` is at least 1, and an Invalid Date already fails `start < end`.
   */
  lemma DayConjunctIsRedundant(start: Option<int>, end: Option<int>, s: WorkSchedule, tzOffsetMs: int)
    ensures ValidTimeRange(start, end, s, tzOffsetMs) <==>
      && start.Some? && end.Some? && start.value < end.value
      && InScheduleMonth(start.value, s, tzOffsetMs) && InScheduleMonth(end.value, s, tzOffsetMs)
  {
  }

  /** An unknown schedule is reported before the times are looked at. */
  lemma {:induction false} ParentCheckedFirst(req: ShiftRequest, schedules: seq<WorkSchedule>, shifts: seq<WorkShift>, tzOffsetMs: int)
    requires ParentOf(req, schedules).None?
    ensures FirstFailure(AddWorkShiftChecks(true, req, schedules, shifts, tzOffsetMs)) == Some(WorkScheduleNotFound)
  {
    FirstFailureAt(AddWorkShiftChecks(true, req, schedules, shifts, tzOffsetMs), 1);
  }

  /**
   * `addWorkShift` succeeds exactly when the schedule exists, the start comes
   * before the end, both lie in the schedule's month and year, and no shift
   * of that schedule has the same start and end.
   */
  lemma {:induction false} AddWorkShiftSucceedsIff(req: ShiftRequest, schedules: seq<WorkSchedule>, shifts: seq<WorkShift>, tzOffsetMs: int)
    ensures FirstFailure(AddWorkShiftChecks(true, req, schedules, shifts, tzOffsetMs)).None? <==>
      var parent := ParentOf(req, schedules);
      && parent.Some? && req.startTime.Some? && req.endTime.Some?
      && req.startTime.value < req.endTime.value
      && InScheduleMonth(req.startTime.value, parent.value, tzOffsetMs)
      && InScheduleMonth(req.endTime.value, parent.value, tzOffsetMs)
      && !ShiftExists(shifts, parent.value.id, req.startTime.value, req.endTime.value)
  {
    var checks := AddWorkShiftChecks(true, req, schedules, shifts, tzOffsetMs);
    if FirstFailure(checks).None? {
      assert checks[1].passes && checks[2].passes && checks[3].passes;
    }
  }

  /**
   * A shift that starts in another month than its schedule's is refused with
   * INVALID_WORK_SHIFT_TIME_RANGE, whatever the end is.
   */
  lemma {:induction false} StartOutsideMonthRefused(req: ShiftRequest, schedules: seq<WorkSchedule>, shifts: seq<WorkShift>, tzOffsetMs: int)
    requires ParentOf(req, schedules).Some? && req.startTime.Some?
    requires LocalDateOf(req.startTime.value, tzOffsetMs).month != ParentOf(req, schedules).value.month
    ensures FirstFailure(AddWorkShiftChecks(true, req, schedules, shifts, tzOffsetMs)) == Some(InvalidWorkShiftTimeRange)
  {
    FirstFailureAt(AddWorkShiftChecks(true, req, schedules, shifts, tzOffsetMs), 2);
  }

  /**
   * A shift identical to a stored one of the same schedule is refused with
   * DUPLICATED_WORK_SHIFT, but only once its time range has passed.
   */
  lemma {:induction false} DuplicateShiftRefused(req: ShiftRequest, schedules: seq<WorkSchedule>, shifts: seq<WorkShift>, tzOffsetMs: int)
    requires ParentOf(req, schedules).Some?
    requires ValidTimeRange(req.startTime, req.endTime, ParentOf(req, schedules).value, tzOffsetMs)
    requires ShiftExists(shifts, ParentOf(req, schedules).value.id, req.startTime.value, req.endTime.value)
    ensures FirstFailure(AddWorkShiftChecks(true, req, schedules, shifts, tzOffsetMs)) == Some(DuplicatedWorkShift)
  {
    FirstFailureAt(AddWorkShiftChecks(true, req, schedules, shifts, tzOffsetMs), 3);
  }

  /**
   * `addWorkShift` answers 404 exactly when the body is valid but the
   * schedule is not found; every other refusal is a 400.
   */
  lemma {:induction false} AddWorkShiftStatus(schemaOk: bool, req: ShiftRequest, schedules: seq<WorkSchedule>,
                                              shifts: seq<WorkShift>, tzOffsetMs: int)
    ensures var failure := FirstFailure(AddWorkShiftChecks(schemaOk, req, schedules, shifts, tzOffsetMs));
      failure.Some? ==>
        && (StatusOf(failure.value) == NOT_FOUND <==> schemaOk && ParentOf(req, schedules).None?)
        && (StatusOf(failure.value) != NOT_FOUND ==> StatusOf(failure.value) == BAD_REQUEST)
  {
    var checks := AddWorkShiftChecks(schemaOk, req, schedules, shifts, tzOffsetMs);
    if !schemaOk {
      FirstFailureAt(checks, 0);
    } else if ParentOf(req, schedules).None? {
      FirstFailureAt(checks, 1);
    } else if !checks[2].passes {
      FirstFailureAt(checks, 2);
    } else if !checks[3].passes {
      FirstFailureAt(checks, 3);
    } else {
      assert forall i :: 0 <= i < |checks| ==> checks[i].passes;
    }
  }
}
