/**
 * The employee gateway (CPPS/cpps_employee/cpps_employee_gateway.py): the
 * pool of employees, the auction round that asks every skilled employee for
 * a tentative slot and keeps only the best, and the booking that clears the
 * rejected slots and fixes the winner's.
 */
module CppsEmployeeGateway {
  import opened Wrappers
  import opened Selection
  import opened CppsEmployee

  /** The valuations of the offers, in order. */
  function Valuations(os: seq<Offer>): (vs: seq<Option<real>>)
    ensures |vs| == |os| && forall k :: 0 <= k < |os| ==> vs[k] == Some(os[k].valuationResult)
  {
    seq(|os|, k requires 0 <= k < |os| => Some(os[k].valuationResult))
  }

  /** The offer `get_offer` chooses: the first with the smallest valuation; None (the empty dict) for none. */
  function BestOf(os: seq<Offer>): (b: Option<Offer>)
    ensures b.None? <==> os == []
    ensures b.Some? ==>
              b.value in os &&
              (forall m :: 0 <= m < |os| ==> b.value.valuationResult <= os[m].valuationResult)
  {
    match FirstMinOf(Valuations(os))
    case None => None
    case Some(k) => Some(os[k])
  }

  /** The offers of the skilled employees, in list order, each made against its calendar in cals. */
  function OffersOf(emps: seq<Employee>, cals: seq<seq<Entry>>, req: Request, norm: real -> real): seq<Offer>
    requires |cals| == |emps|
    decreases |emps|
  {
    if emps == [] then []
    else
      var n := |emps| - 1;
      OffersOf(emps[..n], cals[..n], req, norm) +
      (if req.idLaborProcess in emps[n].skills then [emps[n].OfferFor(cals[n], req, norm)] else [])
  }

  /** OffersOf over one more employee. */
  lemma OffersOfStep(emps: seq<Employee>, cals: seq<seq<Entry>>, i: nat, req: Request, norm: real -> real)
    requires |cals| == i + 1 && i < |emps|
    ensures OffersOf(emps[..i + 1], cals, req, norm) ==
              OffersOf(emps[..i], cals[..i], req, norm) +
              (if req.idLaborProcess in emps[i].skills then [emps[i].OfferFor(cals[i], req, norm)] else [])
  {
    assert emps[..i + 1][..i] == emps[..i];
  }

  /**
   * Every offer comes from a skilled employee, and there is one exactly
   * when some employee has the skill.
   */
  lemma {:induction false} OffersOfSkilled(emps: seq<Employee>, cals: seq<seq<Entry>>, req: Request, norm: real -> real)
    requires |cals| == |emps|
    ensures var os := OffersOf(emps, cals, req, norm);
            (os == [] <==> forall k :: 0 <= k < |emps| ==> req.idLaborProcess !in emps[k].skills) &&
            |os| <= |emps| &&
            forall o :: o in os ==>
              exists k :: 0 <= k < |emps| && req.idLaborProcess in emps[k].skills && o == emps[k].OfferFor(cals[k], req, norm)
    decreases |emps|
  {
    if emps != [] {
      var n := |emps| - 1;
      OffersOfSkilled(emps[..n], cals[..n], req, norm);
      var os := OffersOf(emps, cals, req, norm);
      var init := OffersOf(emps[..n], cals[..n], req, norm);
      forall o | o in os
        ensures exists k :: 0 <= k < |emps| && req.idLaborProcess in emps[k].skills && o == emps[k].OfferFor(cals[k], req, norm)
      {
        if o in init {
          var k :| 0 <= k < n && req.idLaborProcess in emps[..n][k].skills && o == emps[..n][k].OfferFor(cals[..n][k], req, norm);
          assert emps[..n][k] == emps[k] && cals[..n][k] == cals[k];
        } else {
          assert o == emps[n].OfferFor(cals[n], req, norm);
        }
      }
      if os == [] {
        forall k | 0 <= k < |emps|
          ensures req.idLaborProcess !in emps[k].skills
        {
          if k < n {
            assert emps[..n][k] == emps[k];
          }
        }
      }
    }
  }

  /**
   * A skilled employee's calendar after `get_offer`: its tentative slot stays
   * when it won, or when the winner cannot be told apart from it because it
   * has the empty id; otherwise the slot is rejected again.
   */
  function AfterOffer(e: Employee, cal: seq<Entry>, req: Request, best: Option<Offer>): seq<Entry> {
    if req.idLaborProcess !in e.skills then cal
    else
      var reserved := Appended(cal, e.Asked(req));
      if best.Some? && best.value.employeeId != e.employeeId && e.employeeId != "" then
        RemoveFirst(reserved, req.idTask, req.idLaborProcess, req.target)
      else reserved
  }

  /** How `get_offer`'s two loops combine for one employee: the reservation, then the rejection of a loser. */
  lemma AfterOfferOf(e: Employee, cal: seq<Entry>, reserved: seq<Entry>, final: seq<Entry>, req: Request,
                     best: Option<Offer>, offers: seq<Offer>)
    requires e.employeeId in IdsOf(offers) <==> req.idLaborProcess in e.skills
    requires best.None? <==> offers == []
    requires reserved == if req.idLaborProcess in e.skills then Appended(cal, e.Asked(req)) else cal
    requires offers == [] ==> final == reserved
    requires offers != [] ==>
               final == if e.employeeId in IdsOf(offers) && e.employeeId != best.value.employeeId && e.employeeId != ""
                        then RemoveFirst(reserved, req.idTask, req.idLaborProcess, req.target)
                        else reserved
    ensures final == AfterOffer(e, cal, req, best)
  {
  }

  /** The calendar of an employee after the rejects of `book_employee`, applied in order. */
  function AfterRejects(e: Employee, cal: seq<Entry>, idTask: int, rejects: seq<(string, string)>): seq<Entry>
    decreases |rejects|
  {
    if rejects == [] then cal
    else
      var n := |rejects| - 1;
      var c := AfterRejects(e, cal, idTask, rejects[..n]);
      if rejects[n].0 in e.skills then RemoveFirst(c, idTask, rejects[n].0, rejects[n].1) else c
  }

  /**
   * The rejects of `book_employee` remove at most one entry per reject, and
   * only entries of the task being booked.
   */
  lemma {:induction false} AfterRejectsOnlyTask(e: Employee, cal: seq<Entry>, idTask: int, rejects: seq<(string, string)>)
    ensures var r := AfterRejects(e, cal, idTask, rejects);
            multiset(r) <= multiset(cal) && |cal| - |r| <= |rejects| &&
            forall x: Entry :: x.idTask != idTask ==> multiset(r)[x] == multiset(cal)[x]
    decreases |rejects|
  {
    if rejects != [] {
      var n := |rejects| - 1;
      var c := AfterRejects(e, cal, idTask, rejects[..n]);
      AfterRejectsOnlyTask(e, cal, idTask, rejects[..n]);
      RemoveFirstRemovesOne(c, idTask, rejects[n].0, rejects[n].1);
    }
  }

  /** No two employees share an id. */
  predicate UniqueIds(emps: seq<Employee>) {
    forall i, j :: 0 <= i < |emps| && 0 <= j < |emps| && i != j ==> emps[i].employeeId != emps[j].employeeId
  }

  /** The ids the offers carry. */
  function IdsOf(os: seq<Offer>): set<string> {
    set o | o in os :: o.employeeId
  }

  lemma IdsOfStep(os: seq<Offer>, j: nat)
    requires j < |os|
    ensures IdsOf(os[..j + 1]) == IdsOf(os[..j]) + {os[j].employeeId}
  {
    assert os[..j + 1] == os[..j] + [os[j]];
  }

  /** Every skilled employee's offer is among the offers. */
  lemma {:induction false} OffersOfComplete(emps: seq<Employee>, cals: seq<seq<Entry>>, req: Request, norm: real -> real)
    requires |cals| == |emps|
    ensures forall k :: 0 <= k < |emps| && req.idLaborProcess in emps[k].skills ==>
              emps[k].OfferFor(cals[k], req, norm) in OffersOf(emps, cals, req, norm)
    decreases |emps|
  {
    if emps != [] {
      var n := |emps| - 1;
      OffersOfComplete(emps[..n], cals[..n], req, norm);
      forall k | 0 <= k < n
        ensures emps[..n][k] == emps[k] && cals[..n][k] == cals[k]
      {
      }
    }
  }

  /** With unique employee ids, no two offers carry the same id. */
  lemma {:induction false} OffersOfDistinct(emps: seq<Employee>, cals: seq<seq<Entry>>, req: Request, norm: real -> real)
    requires |cals| == |emps| && UniqueIds(emps)
    ensures var os := OffersOf(emps, cals, req, norm);
            forall m, n :: 0 <= m < n < |os| ==> os[m].employeeId != os[n].employeeId
    decreases |emps|
  {
    if emps != [] {
      var n := |emps| - 1;
      var init := OffersOf(emps[..n], cals[..n], req, norm);
      OffersOfDistinct(emps[..n], cals[..n], req, norm);
      OffersOfSkilled(emps[..n], cals[..n], req, norm);
      forall o | o in init
        ensures o.employeeId != emps[n].employeeId
      {
        var k :| 0 <= k < n && o == emps[..n][k].OfferFor(cals[..n][k], req, norm);
        assert emps[..n][k] == emps[k];
      }
    }
  }

  /**
   * With unique ids, the offers carry distinct ids, each the id of an
   * employee, and an employee's id is among them exactly when the employee
   * has the skill.
   */
  lemma OffersOfIds(emps: seq<Employee>, cals: seq<seq<Entry>>, req: Request, norm: real -> real)
    requires |cals| == |emps| && UniqueIds(emps)
    ensures var os := OffersOf(emps, cals, req, norm);
            (forall k :: 0 <= k < |emps| ==> (emps[k].employeeId in IdsOf(os) <==> req.idLaborProcess in emps[k].skills)) &&
            (forall o :: o in os ==> IndexOf(emps, o.employeeId).Some?) &&
            (forall m, n :: 0 <= m < n < |os| ==> os[m].employeeId != os[n].employeeId)
  {
    var os := OffersOf(emps, cals, req, norm);
    OffersOfSkilled(emps, cals, req, norm);
    OffersOfComplete(emps, cals, req, norm);
    OffersOfDistinct(emps, cals, req, norm);
    forall k | 0 <= k < |emps|
      ensures emps[k].employeeId in IdsOf(os) <==> req.idLaborProcess in emps[k].skills
    {
      if emps[k].employeeId in IdsOf(os) {
        var o :| o in os && o.employeeId == emps[k].employeeId;
        var k' :| 0 <= k' < |emps| && req.idLaborProcess in emps[k'].skills && o == emps[k'].OfferFor(cals[k'], req, norm);
        assert emps[k'].employeeId == emps[k].employeeId;
      }
      if req.idLaborProcess in emps[k].skills {
        assert emps[k].OfferFor(cals[k], req, norm) in os;
      }
    }
    forall o | o in os
      ensures IndexOf(emps, o.employeeId).Some?
    {
      var k' :| 0 <= k' < |emps| && req.idLaborProcess in emps[k'].skills && o == emps[k'].OfferFor(cals[k'], req, norm);
      assert emps[k'].employeeId == o.employeeId;
    }
  }

  /** The index of the first employee with that id. */
  function IndexOf(emps: seq<Employee>, employeeId: string): (k: Option<nat>)
    ensures k.Some? ==>
              k.value < |emps| && emps[k.value].employeeId == employeeId &&
              forall m :: 0 <= m < k.value ==> emps[m].employeeId != employeeId
    ensures k.None? ==> forall m :: 0 <= m < |emps| ==> emps[m].employeeId != employeeId
    decreases |emps|
  {
    if emps == [] then None
    else if emps[0].employeeId == employeeId then Some(0)
    else
      match IndexOf(emps[1..], employeeId)
      case None => None
      case Some(k) => Some(k + 1)
  }

  /** The position of the first employee holding the calendar; |emps| when none does. */
  function CalendarIndex(emps: seq<Employee>, c: Calendar): (k: nat)
    ensures k <= |emps|
    ensures k < |emps| ==> emps[k].calendar == c
    ensures forall j :: 0 <= j < k ==> emps[j].calendar != c
  {
    if emps == [] then 0
    else if emps[0].calendar == c then 0
    else CalendarIndex(emps[1..], c) + 1
  }

  /** No two employees share a calendar. */
  predicate DistinctCalendars(emps: seq<Employee>) {
    forall i, j :: 0 <= i < |emps| && 0 <= j < |emps| && i != j ==> emps[i].calendar != emps[j].calendar
  }

  /** With no calendar shared, every employee is the first holder of its own. */
  lemma OwnCalendars(emps: seq<Employee>)
    requires DistinctCalendars(emps)
    ensures forall k :: 0 <= k < |emps| ==> CalendarIndex(emps, emps[k].calendar) == k
  {
    forall k | 0 <= k < |emps|
      ensures CalendarIndex(emps, emps[k].calendar) == k
    {
      var r := CalendarIndex(emps, emps[k].calendar);
      assert r <= k;
    }
  }

  class EmployeeGateway {
    /** The gateway's list of employees. */
    var employees: seq<Employee>

    /** Employee ids are unique and no two employees share a calendar. */
    ghost predicate Valid()
      reads this
    {
      UniqueIds(employees) && DistinctCalendars(employees)
    }

    /** The calendars of the employees. */
    ghost function Calendars(): set<Calendar>
      reads this
    {
      set k | 0 <= k < |employees| :: employees[k].calendar
    }

    constructor ()
      ensures employees == [] && Valid()
    {
      employees := [];
    }

    /** `get_employee`: the employee with that id, or a new employee with the empty id. */
    method GetEmployee(employeeId: string) returns (e: Employee)
      ensures match IndexOf(employees, employeeId)
              case Some(k) => e == employees[k]
              case None => fresh(e) && fresh(e.calendar) && e.employeeId == "" && e.skills == [] &&
                           e.calendar.entries == []
    {
      var i := 0;
      while i < |employees|
        invariant 0 <= i <= |employees|
        invariant forall m :: 0 <= m < i ==> employees[m].employeeId != employeeId
      {
        if employees[i].employeeId == employeeId {
          return employees[i];
        }
        i := i + 1;
      }
      e := new Employee("", "", [], false, 0.0, 0.0, 0.5);
    }

    /** `add_employee`: refuses an id that is already taken, else appends a new employee. */
    method AddEmployee(employeeId: string, viconId: string, skills: seq<string>, laborCosts: real,
                       active: bool, runningTime: real, epsilon: real) returns (added: bool)
      requires Valid()
      modifies this
      ensures Valid()
      ensures added <==> forall k :: 0 <= k < |old(employees)| ==> old(employees)[k].employeeId != employeeId
      ensures !added ==> employees == old(employees)
      ensures added ==>
                |employees| == |old(employees)| + 1 && employees[..|old(employees)|] == old(employees) &&
                var e := employees[|old(employees)|];
                fresh(e) && e.employeeId == employeeId && e.viconId == viconId && e.skills == skills &&
                e.laborCosts == laborCosts && e.active == active && e.runningTime == runningTime &&
                e.epsilon == epsilon && e.calendar.entries == []
    {
      var i := 0;
      while i < |employees|
        invariant 0 <= i <= |employees|
        invariant forall m :: 0 <= m < i ==> employees[m].employeeId != employeeId
      {
        if employees[i].employeeId == employeeId {
          return false;
        }
        i := i + 1;
      }
      var e := new Employee(employeeId, viconId, skills, active, laborCosts, runningTime, epsilon);
      employees := employees + [e];
      added := true;
    }

    /**
     * `delete_employee` as written: the loop returns on its first element
     * either way, so only the head of the list is ever compared. None when
     * the list is empty (the loop does not run and the method returns
     * nothing).
     */
    method DeleteEmployee(employeeId: string) returns (r: Option<bool>)
      requires Valid()
      modifies this
      ensures Valid()
      ensures old(employees) == [] ==> r == None && employees == old(employees)
      ensures old(employees) != [] && old(employees)[0].employeeId == employeeId ==>
                r == Some(true) && employees == old(employees)[1..]
      ensures old(employees) != [] && old(employees)[0].employeeId != employeeId ==>
                r == Some(false) && employees == old(employees)
    {
      if |employees| == 0 {
        return None;
      }
      if employees[0].employeeId == employeeId {
        employees := employees[1..];
        return Some(true);
      }
      return Some(false);
    }

    /**
     * `get_offer`: every employee with the skill reserves a tentative slot;
     * the offer with the smallest valuation (the first on a tie) wins, and
     * every other candidate rejects its slot again. `before` is what the
     * calendars held before.
     */
    method GetOffer(req: Request, norm: real -> real) returns (best: Option<Offer>, ghost before: seq<seq<Entry>>)
      requires Valid()
      modifies Calendars()
      ensures employees == old(employees) && Valid()
      ensures |before| == |employees| && forall k :: 0 <= k < |employees| ==> before[k] == old(employees[k].calendar.entries)
      ensures best == BestOf(OffersOf(employees, before, req, norm))
      ensures forall k :: 0 <= k < |employees| ==>
                employees[k].calendar.entries == AfterOffer(employees[k], before[k], req, best)
    {
      var offers;
      offers, before := ReserveAll(employees, req, norm);
      OffersOfIds(employees, before, req, norm);
      best := ChooseBest(offers);
      label reserved:
      if offers != [] {
        RejectLosers(offers, best.value.employeeId, req);
      }
      forall k | 0 <= k < |employees|
        ensures employees[k].calendar.entries == AfterOffer(employees[k], before[k], req, best)
      {
        AfterOfferOf(employees[k], before[k], old@reserved(employees[k].calendar.entries),
                     employees[k].calendar.entries, req, best, offers);
      }
    }

    /**
     * The last loop of `get_offer`: each candidate whose id is not the
     * winner's, found again by its id, deletes its slot unless that id is empty.
     */
    method RejectLosers(offers: seq<Offer>, winner: string, req: Request)
      requires Valid()
      requires forall o :: o in offers ==> IndexOf(employees, o.employeeId).Some?
      requires forall m, n :: 0 <= m < n < |offers| ==> offers[m].employeeId != offers[n].employeeId
      modifies Calendars()
      ensures employees == old(employees)
      ensures forall k :: 0 <= k < |employees| ==>
                employees[k].calendar.entries ==
                  if employees[k].employeeId in IdsOf(offers) && employees[k].employeeId != winner &&
                     employees[k].employeeId != ""
                  then RemoveFirst(old(employees[k].calendar.entries), req.idTask, req.idLaborProcess, req.target)
                  else old(employees[k].calendar.entries)
    {
      var emps := employees;
      var j := 0;
      while j < |offers|
        invariant 0 <= j <= |offers| && employees == emps
        invariant forall k :: 0 <= k < |emps| ==>
                    emps[k].calendar.entries ==
                      if emps[k].employeeId in IdsOf(offers[..j]) && emps[k].employeeId != winner && emps[k].employeeId != ""
                      then RemoveFirst(old(emps[k].calendar.entries), req.idTask, req.idLaborProcess, req.target)
                      else old(emps[k].calendar.entries)
      {
        IdsOfStep(offers, j);
        assert offers[j].employeeId !in IdsOf(offers[..j]);
        RejectOne(offers[j], winner, req);
        j := j + 1;
      }
      assert offers[..j] == offers;
    }

    /**
     * One turn of the last loop of `get_offer`: the candidate, unless it is
     * the winner, is found again by its id and deletes its slot unless that
     * id is empty.
     */
    method RejectOne(offer: Offer, winner: string, req: Request)
      requires Valid() && IndexOf(employees, offer.employeeId).Some?
      modifies Calendars()
      ensures employees == old(employees)
      ensures forall k :: 0 <= k < |employees| ==>
                employees[k].calendar.entries ==
                  if employees[k].employeeId == offer.employeeId && offer.employeeId != winner && offer.employeeId != ""
                  then RemoveFirst(old(employees[k].calendar.entries), req.idTask, req.idLaborProcess, req.target)
                  else old(employees[k].calendar.entries)
    {
      if offer.employeeId != winner {
        var emp := GetEmployee(offer.employeeId);
        if emp.employeeId != "" {
          var _ := emp.Reject(req.idTask, req.idLaborProcess, req.target);
        }
      }
    }

    /**
     * `book_employee`: for every employee and every (labor process, target)
     * reject whose labor process it has, deletes its slot of the task; then
     * books the named employee's slot and returns its start, 0.0 when the
     * employee or its slot is unknown.
     */
    method BookEmployee(idTask: int, idLaborProcess: string, rejects: seq<(string, string)>, workstationId: string,
                        employeeId: string, startTime: real, timeSlotLength: real) returns (r: real)
      requires Valid()
      modifies Calendars()
      ensures employees == old(employees) && Valid()
      ensures forall k :: 0 <= k < |employees| && IndexOf(employees, employeeId) != Some(k) ==>
                employees[k].calendar.entries == AfterRejects(employees[k], old(employees[k].calendar.entries), idTask, rejects)
      ensures match IndexOf(employees, employeeId)
              case None => r == 0.0
              case Some(k) =>
                var e := employees[k];
                var c := AfterRejects(e, old(e.calendar.entries), idTask, rejects);
                e.calendar.entries == Updated(c, idTask, idLaborProcess, workstationId, startTime, timeSlotLength, e.runningTime) &&
                r == if FirstMatch(c, idTask, idLaborProcess, workstationId).Some? then startTime else 0.0
    {
      var emps := employees;
      var i := 0;
      while i < |emps|
        invariant 0 <= i <= |emps| && employees == emps
        invariant forall k :: 0 <= k < i ==>
                    emps[k].calendar.entries == AfterRejects(emps[k], old(emps[k].calendar.entries), idTask, rejects)
        invariant forall k :: i <= k < |emps| ==> emps[k].calendar.entries == old(emps[k].calendar.entries)
      {
        RejectAll(emps[i], idTask, rejects);
        i := i + 1;
      }
      var emp := GetEmployee(employeeId);
      r := emp.Book(idTask, idLaborProcess, workstationId, startTime, timeSlotLength);
    }
  }

  /** The inner loop of `book_employee`: the rejects one employee applies. */
  method RejectAll(emp: Employee, idTask: int, rejects: seq<(string, string)>)
    modifies emp.calendar
    ensures emp.calendar.entries == AfterRejects(emp, old(emp.calendar.entries), idTask, rejects)
  {
    var n := 0;
    while n < |rejects|
      invariant 0 <= n <= |rejects|
      invariant emp.calendar.entries == AfterRejects(emp, old(emp.calendar.entries), idTask, rejects[..n])
    {
      assert rejects[..n + 1][..n] == rejects[..n];
      var skilled := emp.HasSkill(rejects[n].0);
      if skilled {
        var _ := emp.Reject(idTask, rejects[n].0, rejects[n].1);
      }
      n := n + 1;
    }
    assert rejects[..n] == rejects;
  }

  /** What the employees' calendars hold now, in employee order. */
  ghost method Snapshot(emps: seq<Employee>) returns (r: seq<seq<Entry>>)
    ensures |r| == |emps| && forall k :: 0 <= k < |emps| ==> r[k] == emps[k].calendar.entries
  {
    r := [];
    var i := 0;
    while i < |emps|
      invariant i <= |emps| && |r| == i && forall k :: 0 <= k < i ==> r[k] == emps[k].calendar.entries
    {
      r := r + [emps[i].calendar.entries];
      i := i + 1;
    }
  }

  /**
   * The first loop of `get_offer`: a reservation on every employee with
   * the skill; `before` is what the calendars held before.
   */
  method ReserveAll(emps: seq<Employee>, req: Request, norm: real -> real) returns (offers: seq<Offer>, ghost before: seq<seq<Entry>>)
    requires DistinctCalendars(emps)
    modifies set k | 0 <= k < |emps| :: emps[k].calendar
    ensures |before| == |emps| && forall k :: 0 <= k < |emps| ==> before[k] == old(emps[k].calendar.entries)
    ensures offers == OffersOf(emps, before, req, norm)
    ensures forall k :: 0 <= k < |emps| ==>
              emps[k].calendar.entries ==
                if req.idLaborProcess in emps[k].skills then Appended(before[k], emps[k].Asked(req))
                else before[k]
  {
    OwnCalendars(emps);
    offers := [];
    before := Snapshot(emps);
    var i := 0;
    while i < |emps|
      invariant 0 <= i <= |emps|
      invariant offers == OffersOf(emps[..i], before[..i], req, norm)
      invariant forall k :: i <= k < |emps| ==> emps[k].calendar.entries == before[k]
      invariant forall k :: 0 <= k < i ==>
                  emps[k].calendar.entries ==
                    if req.idLaborProcess in emps[k].skills then Appended(before[k], emps[k].Asked(req)) else before[k]
    {
      offers := ReserveNext(emps, i, req, norm, before, offers);
      i := i + 1;
    }
    assert emps[..i] == emps && before[..i] == before;
  }

  /** One turn of the reservation loop: the offers so far, extended by the employee's. */
  method ReserveNext(emps: seq<Employee>, i: nat, req: Request, norm: real -> real, ghost before: seq<seq<Entry>>,
                     offers: seq<Offer>) returns (extended: seq<Offer>)
    requires i < |emps| == |before| && emps[i].calendar.entries == before[i]
    requires offers == OffersOf(emps[..i], before[..i], req, norm)
    requires forall k :: 0 <= k < |emps| ==> CalendarIndex(emps, emps[k].calendar) == k
    modifies emps[i].calendar
    ensures extended == OffersOf(emps[..i + 1], before[..i + 1], req, norm)
    ensures emps[i].calendar.entries ==
              if req.idLaborProcess in emps[i].skills then Appended(before[i], emps[i].Asked(req)) else before[i]
    ensures forall k :: 0 <= k < |emps| && k != i ==> emps[k].calendar.entries == old(emps[k].calendar.entries)
  {
    OffersOfStep(emps, before[..i + 1], i, req, norm);
    assert before[..i + 1][..i] == before[..i];
    var offer := ReserveOne(emps[i], req, norm);
    extended := offers;
    if offer.Some? {
      extended := offers + [offer.value];
    }
    forall k | 0 <= k < |emps| && k != i
      ensures emps[k].calendar.entries == old(emps[k].calendar.entries)
    {
      assert CalendarIndex(emps, emps[k].calendar) == k;
    }
  }

  /** One step of the first loop of `get_offer`: a reservation when the employee has the skill. */
  method ReserveOne(emp: Employee, req: Request, norm: real -> real) returns (offer: Option<Offer>)
    modifies emp.calendar
    ensures offer == if req.idLaborProcess in emp.skills then Some(emp.OfferFor(old(emp.calendar.entries), req, norm)) else None
    ensures emp.calendar.entries ==
              if req.idLaborProcess in emp.skills then Appended(old(emp.calendar.entries), emp.Asked(req))
              else old(emp.calendar.entries)
  {
    var skilled := emp.HasSkill(req.idLaborProcess);
    offer := None;
    if skilled {
      var o := emp.Reservation(req, norm);
      offer := Some(o);
    }
  }

  /** The best-so-far loop of `get_offer` over the collected offers. */
  method ChooseBest(offers: seq<Offer>) returns (best: Option<Offer>)
    ensures best == BestOf(offers)
  {
    best := None;
    ghost var vs := Valuations(offers);
    ghost var bi: Option<nat> := None;
    var j := 0;
    while j < |offers|
      invariant 0 <= j <= |offers|
      invariant bi == FirstMinOf(vs[..j])
      invariant best == match bi case None => None case Some(b) => Some(offers[b])
    {
      FirstMinOfStep(vs, j);
      if best.None? {
        best := Some(offers[j]);
        bi := Some(j);
      } else if best.value.valuationResult > offers[j].valuationResult {
        best := Some(offers[j]);
        bi := Some(j);
      }
      j := j + 1;
    }
    assert vs[..j] == vs;
  }
}
