/**
 * The document store the controllers share: the product, category and
 * supplier collections, and the work schedule, work shift and work
 * assignment collections, kept in insertion order (the order `find({})`
 * returns them in). New identifiers come from a counter.
 */
module Store {
  import opened Common

  /** A category or supplier document: its other fields and its reverse list of product ids. */
  datatype Category = Category(info: Doc, products: seq<Id>)
  datatype Supplier = Supplier(info: Doc, products: seq<Id>)

  datatype WorkSchedule = WorkSchedule(id: Id, month: int, year: int, workShifts: seq<Id>)

  /** Start and end are time values (milliseconds since 1 January 1970 UTC). */
  datatype WorkShift = WorkShift(id: Id, workSchedule: Id, startTime: int, endTime: int, workAssignments: seq<Id>)

  datatype WorkAssignment = WorkAssignment(id: Id, workShift: Id, assigner: Id)

  /** The query `WorkShift.find({ workSchedule: scheduleId })`, in store order. */
  function ShiftsOf(shifts: seq<WorkShift>, scheduleId: Id): (r: seq<WorkShift>)
    ensures |r| <= |shifts|
    ensures forall sh :: sh in r <==> sh in shifts && sh.workSchedule == scheduleId
  {
    if shifts == [] then []
    else
      var last := shifts[|shifts| - 1];
      assert shifts == shifts[..|shifts| - 1] + [last];
      ShiftsOf(shifts[..|shifts| - 1], scheduleId) + (if last.workSchedule == scheduleId then [last] else [])
  }

  /** The query `WorkAssignment.find({ workShift: shiftId })`, in store order. */
  function AssignmentsOf(assignments: seq<WorkAssignment>, shiftId: Id): (r: seq<WorkAssignment>)
    ensures |r| <= |assignments|
    ensures forall a :: a in r <==> a in assignments && a.workShift == shiftId
  {
    if assignments == [] then []
    else
      var last := assignments[|assignments| - 1];
      assert assignments == assignments[..|assignments| - 1] + [last];
      AssignmentsOf(assignments[..|assignments| - 1], shiftId) + (if last.workShift == shiftId then [last] else [])
  }

  function ShiftIds(shifts: seq<WorkShift>): (ids: seq<Id>)
    ensures |ids| == |shifts|
    ensures forall k :: 0 <= k < |shifts| ==> ids[k] == shifts[k].id
  {
    seq(|shifts|, k requires 0 <= k < |shifts| => shifts[k].id)
  }

  /** The query `WorkSchedule.findOne({ _id: id })`: the position of the schedule with that id. */
  function FindSchedule(schedules: seq<WorkSchedule>, id: Id): (r: Option<nat>)
    ensures r.Some? ==> r.value < |schedules| && schedules[r.value].id == id
    ensures r.None? ==> forall k :: 0 <= k < |schedules| ==> schedules[k].id != id
  {
    if schedules == [] then None
    else if schedules[0].id == id then Some(0)
    else
      match FindSchedule(schedules[1..], id)
      case None => None
      case Some(k) => Some(k + 1)
  }

  class Db {
    var products: map<Id, Doc>
    var categories: map<Id, Category>
    var suppliers: map<Id, Supplier>
    var schedules: seq<WorkSchedule>
    var shifts: seq<WorkShift>
    var assignments: seq<WorkAssignment>
    /** The next identifier the store hands out. */
    var nextId: Id

    /** See `IdsConsistent`. */
    ghost predicate Valid()
      reads this
    {
      IdsConsistent(products, schedules, shifts, nextId)
    }

    constructor ()
      ensures Valid()
      ensures products == map[] && categories == map[] && suppliers == map[]
      ensures schedules == [] && shifts == [] && assignments == []
    {
      products, categories, suppliers := map[], map[], map[];
      schedules, shifts, assignments := [], [], [];
      nextId := 0;
    }
  }

  /**
   * Every stored id was handed out before `nextId`, schedule and shift ids
   * are distinct, and a shift only names a schedule id already handed out.
   */
  ghost predicate IdsConsistent(products: map<Id, Doc>, schedules: seq<WorkSchedule>, shifts: seq<WorkShift>, nextId: Id)
  {
    && (forall id :: id in products ==> id < nextId)
    && (forall k :: 0 <= k < |schedules| ==> schedules[k].id < nextId)
    && (forall k :: 0 <= k < |shifts| ==> shifts[k].id < nextId && shifts[k].workSchedule < nextId)
    && (forall k, l :: 0 <= k < l < |schedules| ==> schedules[k].id != schedules[l].id)
    && (forall k, l :: 0 <= k < l < |shifts| ==> shifts[k].id != shifts[l].id)
  }

  /**
   * Each schedule's denormalised `workShifts` list holds exactly the ids of
   * the shifts that name it, in store order.
   */
  ghost predicate ShiftListsAgree(schedules: seq<WorkSchedule>, shifts: seq<WorkShift>)
  {
    forall k :: 0 <= k < |schedules| ==> schedules[k].workShifts == ShiftIds(ShiftsOf(shifts, schedules[k].id))
  }

  /** Every id in a category's or supplier's `products` list names a stored product. */
  ghost predicate ProductListsLinked(products: map<Id, Doc>, categories: map<Id, Category>, suppliers: map<Id, Supplier>)
  {
    && (forall c :: c in categories ==> forall p :: p in categories[c].products ==> p in products)
    && (forall s :: s in suppliers ==> forall p :: p in suppliers[s].products ==> p in products)
  }

  /** Appending a shift extends the query result of its own schedule only. */
  lemma {:induction false} ShiftsOfAppend(shifts: seq<WorkShift>, sh: WorkShift, scheduleId: Id)
    ensures ShiftsOf(shifts + [sh], scheduleId)
            == ShiftsOf(shifts, scheduleId) + (if sh.workSchedule == scheduleId then [sh] else [])
  {
    assert (shifts + [sh])[..|shifts + [sh]| - 1] == shifts;
  }

  lemma {:induction false} ShiftIdsAppend(shifts: seq<WorkShift>, sh: WorkShift)
    ensures ShiftIds(shifts + [sh]) == ShiftIds(shifts) + [sh.id]
  {
  }
}
