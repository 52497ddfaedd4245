/**
 * The workstation gateway (CPPS/cpps_workstation/cpps_workstation_gateway.py):
 * the pool of workstations, the arithmetic of a reservation, the valuation
 * that harmonises a workstation offer with the picking and employee offers,
 * and the reject/book step of a booking.
 *
 * The replies of the employee and picking gateways arrive over HTTP; here
 * they are inputs holding only the fields the valuation reads. Robot and
 * workstation positions come from a tracking system; the table of positions
 * is an input, and so is the Euclidean distance. `norm` stands for
 * v |-> exp(-1/v): the source's exp(-10/t) is norm(t/10).
 */
module CppsWorkstationGateway {
  import opened Wrappers
  import opened CppsWorkstation
  import CppsEmployee

  /** The robot of the order: its average velocity and its costs per metre. */
  datatype Robot = Robot(robotId: string, averageVel: real, operationCosts: real)

  /** The dictionary `reserve_workstation` returns when both positions are known. */
  datatype WorkstationOffer = WorkstationOffer(
    reserved: Reserved, costsIalTransport: real, completionTime: real,
    target: string, workstationId: string, desiredStartTime: real)

  /** A position from the tracking system, in the plane. */
  datatype Point = Point(x: real, y: real)

  /**
   * A gateway's reply as the valuation sees it: none at all (`None`), the
   * empty dictionary the employee gateway sends when nobody can take the
   * task, or an offer.
   */
  datatype Reply<+T> = NoReply | EmptyReply | Offered(value: T)

  /** The fields of the picking gateway's offer the valuation reads. */
  datatype PickingReply = PickingReply(startTime: real, robotCosts: real)

  /** The fields of the employee gateway's offer the valuation reads. */
  datatype EmployeeReply = EmployeeReply(availabilityTime: real, costs: real)

  /** The figures `calculate_valuation_result` adds to the offer. */
  datatype Figures = Figures(
    startTime: real, completionTimeJ: real, throughputTimeJ: real, throughputTimeJNormalized: real,
    totalCosts: real, totalCostsNormalized: real)

  /** The offer as `calculate_valuation_result` returns it. */
  datatype Valuation = Valuation(
    offer: WorkstationOffer, picking: Reply<PickingReply>, employee: Reply<EmployeeReply>,
    figures: Option<Figures>, valuationResult: real)

  function Abs(x: real): (a: real)
    ensures a >= 0.0 && (a == x || a == -x)
  {
    if x < 0.0 then -x else x
  }

  /**
   * The time the robot leaves for the workstation: five seconds after the
   * previous operation when it is closer than half a metre, else the time
   * for the way there and back at its average velocity. The distance is a
   * numpy float, so with a zero velocity the quotient is infinite rather
   * than an exception, and the log line that turns the departure into a
   * date raises OverflowError.
   */
  function DesiredStart(completionTime: real, distance: real, averageVel: real): (r: Result<real, string>)
    ensures r.Err? <==> distance >= 0.5 && averageVel == 0.0
    ensures r.Err? ==> r.error == "OverflowError"
    ensures r.Ok? && distance < 0.5 ==> r.value == completionTime + 5.0
    ensures r.Ok? && distance >= 0.5 && averageVel > 0.0 ==> r.value > completionTime
    ensures r.Ok? && distance >= 0.5 ==> (r.value - completionTime) * averageVel == 2.0 * distance
  {
    if distance < 0.5 then Ok(completionTime + 5.0)
    else if averageVel == 0.0 then Err("OverflowError")
    else Ok(completionTime + (distance / averageVel) * 2.0)
  }

  /**
   * The synchronised start: the later of the picking start and the
   * employee's availability; on a tie, the picking start.
   */
  function SyncStart(p: PickingReply, e: EmployeeReply): (s: real)
    ensures s >= p.startTime && s >= e.availabilityTime
    ensures s == p.startTime || s == e.availabilityTime
    ensures p.startTime >= e.availabilityTime ==> s == p.startTime
  {
    if p.startTime >= e.availabilityTime then p.startTime else e.availabilityTime
  }

  /** The availability of the resource that is ready first (the other one of the two). */
  function EarlierStart(p: PickingReply, e: EmployeeReply): (s: real)
    ensures s <= p.startTime && s <= e.availabilityTime
    ensures s == p.startTime || s == e.availabilityTime
    ensures s + SyncStart(p, e) == p.startTime + e.availabilityTime
  {
    if p.startTime >= e.availabilityTime then e.availabilityTime else p.startTime
  }

  /**
   * Whether the offers harmonise: the synchronised start lies within the
   * workstation's buffer of its desired availability, and (as written) the
   * wait of the earlier resource is no larger than that resource's own
   * availability timestamp, which the source keeps under the name of a buffer.
   */
  predicate Harmonised(w: WorkstationOffer, p: PickingReply, e: EmployeeReply) {
    var start := SyncStart(p, e);
    var earlier := EarlierStart(p, e);
    !(w.reserved.bufferTime < Abs(w.reserved.entry.startTime - start)) &&
    !(earlier < Abs(start - earlier))
  }

  /**
   * The figures of a valuation with both offers present. A throughput time
   * or total costs of zero divide by zero in the normalisation.
   */
  function FiguresOf(w: WorkstationOffer, p: PickingReply, e: EmployeeReply, norm: real -> real): (r: Result<Figures, string>)
    ensures r.Err? <==> SyncStart(p, e) + w.reserved.skillTime == w.completionTime ||
                        w.reserved.costsWorkstation + w.costsIalTransport + e.costs + p.robotCosts == 0.0
    ensures r.Err? ==> r.error == "ZeroDivisionError"
    ensures r.Ok? ==>
              var f := r.value;
              f.startTime == SyncStart(p, e) &&
              f.completionTimeJ - f.startTime == w.reserved.skillTime &&
              f.throughputTimeJ == f.completionTimeJ - w.completionTime &&
              f.throughputTimeJ != 0.0 &&
              f.throughputTimeJNormalized == norm(f.throughputTimeJ / 10.0) &&
              f.totalCosts == w.reserved.costsWorkstation + w.costsIalTransport + e.costs + p.robotCosts &&
              f.totalCosts != 0.0 &&
              f.totalCostsNormalized == norm(f.totalCosts)
  {
    var start := SyncStart(p, e);
    var completionTimeJ := start + w.reserved.skillTime;
    var throughputTimeJ := completionTimeJ - w.completionTime;
    var totalCosts := w.reserved.costsWorkstation + w.costsIalTransport + e.costs + p.robotCosts;
    if throughputTimeJ == 0.0 || totalCosts == 0.0 then Err("ZeroDivisionError")
    else Ok(Figures(start, completionTimeJ, throughputTimeJ, norm(throughputTimeJ / 10.0), totalCosts, norm(totalCosts)))
  }

  /**
   * `calculate_valuation_result`: without one of the two replies the offer
   * comes back as a copy valued 999. With both, an empty reply has none of
   * the fields read and raises KeyError; otherwise the figures are computed
   * and the valuation is alpha_time times the normalised throughput time plus
   * alpha_costs times the normalised total costs, or 999 when the offers do
   * not harmonise; the figures are kept either way.
   */
  function CalculateValuationResult(alphaTime: real, alphaCosts: real, w: WorkstationOffer,
                                    picking: Reply<PickingReply>, employee: Reply<EmployeeReply>,
                                    norm: real -> real): (r: Result<Valuation, string>)
    ensures picking.NoReply? || employee.NoReply? ==>
              r == Ok(Valuation(w, picking, employee, None, CppsEmployee.Unusable))
    ensures !picking.NoReply? && !employee.NoReply? && (picking.EmptyReply? || employee.EmptyReply?) ==>
              r == Err("KeyError")
    ensures r.Ok? ==> r.value.offer == w && r.value.picking == picking && r.value.employee == employee
    ensures r.Ok? ==> (r.value.figures.Some? <==> picking.Offered? && employee.Offered?)
    ensures picking.Offered? && employee.Offered? ==>
              var f := FiguresOf(w, picking.value, employee.value, norm);
              (f.Err? ==> r == Err(f.error)) &&
              (f.Ok? ==>
                 r.Ok? && r.value.figures == Some(f.value) &&
                 r.value.valuationResult ==
                   if Harmonised(w, picking.value, employee.value)
                   then alphaTime * f.value.throughputTimeJNormalized + alphaCosts * f.value.totalCostsNormalized
                   else CppsEmployee.Unusable)
  {
    if picking.NoReply? || employee.NoReply? then
      Ok(Valuation(w, picking, employee, None, CppsEmployee.Unusable))
    else if picking.EmptyReply? || employee.EmptyReply? then
      Err("KeyError")
    else
      match FiguresOf(w, picking.value, employee.value, norm)
      case Err(error) => Err(error)
      case Ok(f) =>
        var valuation := alphaTime * f.throughputTimeJNormalized + alphaCosts * f.totalCostsNormalized;
        Ok(Valuation(w, picking, employee, Some(f),
                     if Harmonised(w, picking.value, employee.value) then valuation else CppsEmployee.Unusable))
  }

  /**
   * A valuation other than 999 means both offers were there and the
   * synchronised start lies within the workstation's buffer around its
   * desired availability date.
   */
  lemma ValuedOnlyWithinBuffer(alphaTime: real, alphaCosts: real, w: WorkstationOffer,
                               picking: Reply<PickingReply>, employee: Reply<EmployeeReply>, norm: real -> real)
    ensures var r := CalculateValuationResult(alphaTime, alphaCosts, w, picking, employee, norm);
            r.Ok? && r.value.valuationResult != CppsEmployee.Unusable ==>
              picking.Offered? && employee.Offered? &&
              var s := SyncStart(picking.value, employee.value);
              w.reserved.entry.startTime - w.reserved.bufferTime <= s <= w.reserved.entry.startTime + w.reserved.bufferTime
  {
    var r := CalculateValuationResult(alphaTime, alphaCosts, w, picking, employee, norm);
    if r.Ok? && r.value.valuationResult != CppsEmployee.Unusable {
      assert Harmonised(w, picking.value, employee.value);
    }
  }

  /**
   * The second harmonisation test as written compares the earlier resource's
   * wait with its availability timestamp: it fails exactly when the
   * synchronised start is more than twice that timestamp, so for clock
   * timestamps it never fails and harmonisation rests on the first test alone.
   */
  lemma SecondCheckAsWritten(w: WorkstationOffer, p: PickingReply, e: EmployeeReply)
    ensures var s := SyncStart(p, e);
            var earlier := EarlierStart(p, e);
            (earlier < Abs(s - earlier)) <==> s > 2.0 * earlier
    ensures EarlierStart(p, e) >= 0.0 && SyncStart(p, e) <= 2.0 * EarlierStart(p, e) ==>
              (Harmonised(w, p, e) <==> Abs(w.reserved.entry.startTime - SyncStart(p, e)) <= w.reserved.bufferTime)
  {
    var s := SyncStart(p, e);
    var earlier := EarlierStart(p, e);
    assert Abs(s - earlier) == s - earlier;
  }

  /** The key of a tracked object in the table of positions. */
  function ViconKey(id: string): string {
    "/vicon/" + id + "/" + id
  }

  /** Where the robot is looked up: at the last workstation of the order if there was one, else by its own id. */
  function RobotKey(robot: Robot, lastWorkstationViconId: string): string {
    if lastWorkstationViconId == "" then ViconKey(robot.robotId) else ViconKey(lastWorkstationViconId)
  }

  /**
   * `reserve_workstation`: with both positions known, the robot's departure
   * and transport costs are computed, the workstation reserves a tentative
   * slot from the departure on, and the offer carries the workstation's ids.
   * Without the workstation's position it returns the empty dictionary and
   * reserves nothing. Without the robot's position the robot's coordinates
   * stay the empty list, and subtracting that from the workstation's
   * coordinates raises ValueError. `dist` is the Euclidean distance.
   */
  method ReserveWorkstation(ws: Workstation, idCycle: string, idTask: int, idLaborProcess: string,
                            completionTime: real, robot: Robot, lastWorkstationViconId: string,
                            positions: map<string, Point>, dist: (Point, Point) -> real, delta: real)
    returns (o: Result<Option<WorkstationOffer>, string>)
    modifies ws.calendar
    ensures ViconKey(ws.viconId) !in positions ==> o == Ok(None)
    ensures ViconKey(ws.viconId) in positions && RobotKey(robot, lastWorkstationViconId) !in positions ==>
              o == Err("ValueError")
    ensures !(o.Ok? && o.value.Some?) ==> ws.calendar.entries == old(ws.calendar.entries)
    ensures ViconKey(ws.viconId) in positions && RobotKey(robot, lastWorkstationViconId) in positions ==>
              var d := dist(positions[RobotKey(robot, lastWorkstationViconId)], positions[ViconKey(ws.viconId)]);
              var start := DesiredStart(completionTime, d, robot.averageVel);
              (start.Err? ==> o == Err(start.error)) &&
              (start.Ok? ==>
                 o.Ok? && o.value.Some? && o.value.value.desiredStartTime == start.value &&
                 o.value.value.costsIalTransport == d * robot.operationCosts &&
                 o.value.value.completionTime == completionTime && o.value.value.target == ws.viconId &&
                 o.value.value.workstationId == ws.workstationId)
    ensures o.Ok? && o.value.Some? ==>
              o.value.value.reserved ==
                ws.ReservedOn(old(ws.calendar.entries), idCycle, idTask, idLaborProcess, o.value.value.desiredStartTime,
                              idLaborProcess, delta) &&
              ws.calendar.entries ==
                Appended(old(ws.calendar.entries),
                         ws.Asked(idCycle, idTask, idLaborProcess, o.value.value.desiredStartTime, idLaborProcess, delta),
                         RotatingTime)
  {
    var robotKey := RobotKey(robot, lastWorkstationViconId);
    var workstationKey := ViconKey(ws.viconId);
    if workstationKey !in positions {
      return Ok(None);
    }
    if robotKey !in positions {
      return Err("ValueError");
    }
    var d := dist(positions[robotKey], positions[workstationKey]);
    var desiredStartTime;
    if d < 0.5 {
      desiredStartTime := completionTime + 5.0;
    } else if robot.averageVel == 0.0 {
      return Err("OverflowError");
    } else {
      desiredStartTime := completionTime + (d / robot.averageVel) * 2.0;
    }
    assert DesiredStart(completionTime, d, robot.averageVel) == Ok(desiredStartTime);
    var costsIalTransport := d * robot.operationCosts;
    var r := ws.Reservation(idCycle, idTask, idLaborProcess, desiredStartTime, idLaborProcess, delta);
    o := Ok(Some(WorkstationOffer(r, costsIalTransport, completionTime, ws.viconId, ws.workstationId, desiredStartTime)));
  }

  /** The calendar of the workstation with id `id` after the rejects of a booking. */
  function AfterRejects(id: string, cal: seq<Entry>, idTask: int, rejects: seq<(string, string)>): seq<Entry>
    decreases |rejects|
  {
    if rejects == [] then cal
    else
      var n := |rejects| - 1;
      var c := AfterRejects(id, cal, idTask, rejects[..n]);
      if rejects[n].1 == id then Without(c, idTask, rejects[n].0) else c
  }

  /**
   * The rejects keep every entry that no reject addressed to this
   * workstation matches, and remove every one that such a reject matches.
   */
  lemma {:induction false} AfterRejectsKeepsOthers(id: string, cal: seq<Entry>, idTask: int, rejects: seq<(string, string)>)
    ensures forall e :: e in AfterRejects(id, cal, idTask, rejects) <==>
              e in cal && forall n :: 0 <= n < |rejects| && rejects[n].1 == id ==> !Matches(e, idTask, rejects[n].0)
    decreases |rejects|
  {
    if rejects != [] {
      var n := |rejects| - 1;
      var c := AfterRejects(id, cal, idTask, rejects[..n]);
      AfterRejectsKeepsOthers(id, cal, idTask, rejects[..n]);
      if rejects[n].1 == id {
        WithoutKeepsOthers(c, idTask, rejects[n].0);
      }
      forall e
        ensures e in AfterRejects(id, cal, idTask, rejects) <==>
                  e in cal && forall m :: 0 <= m < |rejects| && rejects[m].1 == id ==> !Matches(e, idTask, rejects[m].0)
      {
        assert forall m :: 0 <= m < n ==> rejects[..n][m] == rejects[m];
      }
    }
  }

  /** The first workstation with that id. */
  function IndexOf(wss: seq<Workstation>, id: string): (k: Option<nat>)
    ensures k.Some? ==> k.value < |wss| && wss[k.value].workstationId == id &&
                        forall m :: 0 <= m < k.value ==> wss[m].workstationId != id
    ensures k.None? ==> forall m :: 0 <= m < |wss| ==> wss[m].workstationId != id
    decreases |wss|
  {
    if wss == [] then None
    else if wss[0].workstationId == id then Some(0)
    else
      match IndexOf(wss[1..], id)
      case None => None
      case Some(k) => Some(k + 1)
  }

  predicate UniqueIds(wss: seq<Workstation>) {
    forall i, j :: 0 <= i < j < |wss| ==> wss[i].workstationId != wss[j].workstationId
  }

  class WorkstationGateway {
    var workstations: seq<Workstation>

    /** Workstation ids are unique and no two workstations share a calendar. */
    ghost predicate Valid()
      reads this
    {
      UniqueIds(workstations) &&
      forall i, j :: 0 <= i < |workstations| && 0 <= j < |workstations| && i != j ==>
        workstations[i].calendar != workstations[j].calendar
    }

    /** The calendars of the workstations. */
    ghost function Calendars(): set<Calendar>
      reads this
    {
      set k | 0 <= k < |workstations| :: workstations[k].calendar
    }

    constructor ()
      ensures workstations == [] && Valid()
    {
      workstations := [];
    }

    /** `get_workstation`: the workstation with that id, or a new, empty `Workstation()`. */
    method GetWorkstation(workstationId: string) returns (w: Workstation)
      ensures match IndexOf(workstations, workstationId)
              case Some(k) => w == workstations[k]
              case None => fresh(w) && fresh(w.calendar) && w.workstationId == "" && w.viconId == "" &&
                           w.skills == [] && w.calendar.entries == []
    {
      var i := 0;
      while i < |workstations|
        invariant 0 <= i <= |workstations|
        invariant forall m :: 0 <= m < i ==> workstations[m].workstationId != workstationId
      {
        if workstations[i].workstationId == workstationId {
          return workstations[i];
        }
        i := i + 1;
      }
      w := new Workstation("", "", [], 0.0, false);
    }

    /** `add_workstation`: refuses an id that is already taken, else appends a new workstation. */
    method AddWorkstation(workstationId: string, viconId: string, skills: seq<Skill>, costs: real, active: bool)
      returns (added: bool)
      requires Valid()
      modifies this
      ensures Valid()
      ensures added <==> forall k :: 0 <= k < |old(workstations)| ==> old(workstations)[k].workstationId != workstationId
      ensures !added ==> workstations == old(workstations)
      ensures added ==>
                |workstations| == |old(workstations)| + 1 && workstations[..|old(workstations)|] == old(workstations) &&
                var w := workstations[|old(workstations)|];
                fresh(w) && w.workstationId == workstationId && w.viconId == viconId && w.skills == skills &&
                w.costs == costs && w.active == active && w.calendar.entries == []
    {
      var i := 0;
      while i < |workstations|
        invariant 0 <= i <= |workstations|
        invariant forall m :: 0 <= m < i ==> workstations[m].workstationId != workstationId
      {
        if workstations[i].workstationId == workstationId {
          return false;
        }
        i := i + 1;
      }
      var w := new Workstation(workstationId, viconId, skills, costs, active);
      workstations := workstations + [w];
      added := true;
    }

    /**
     * `delete_workstation` as written: the loop returns on its first element
     * either way, so only the head of the list is ever compared. None when
     * the list is empty.
     */
    method DeleteWorkstation(workstationId: string) returns (r: Option<bool>)
      requires Valid()
      modifies this
      ensures Valid()
      ensures old(workstations) == [] ==> r == None && workstations == old(workstations)
      ensures old(workstations) != [] && old(workstations)[0].workstationId == workstationId ==>
                r == Some(true) && workstations == old(workstations)[1..]
      ensures old(workstations) != [] && old(workstations)[0].workstationId != workstationId ==>
                r == Some(false) && workstations == old(workstations)
    {
      if |workstations| == 0 {
        return None;
      }
      if workstations[0].workstationId == workstationId {
        workstations := workstations[1..];
        return Some(true);
      }
      return Some(false);
    }

    /**
     * The reject/book part of `book_workstation`: every workstation deletes
     * its slots of the task for each (labor process, workstation id) reject
     * naming it; then the named workstation, if it has the skill, books its
     * slot at the start time with the bare skill time as length. The result
     * is the booked start; None stands for the `False` the result keeps when
     * the workstation is unknown or lacks the skill, and 0.0 for a missing slot.
     */
    method BookWorkstation(idTask: int, idLaborProcess: string, rejects: seq<(string, string)>,
                           workstationId: string, startTime: real) returns (r: Option<real>)
      requires Valid()
      modifies Calendars()
      ensures workstations == old(workstations) && Valid()
      ensures forall k :: 0 <= k < |workstations| && IndexOf(workstations, workstationId) != Some(k) ==>
                workstations[k].calendar.entries ==
                  AfterRejects(workstations[k].workstationId, old(workstations[k].calendar.entries), idTask, rejects)
      ensures match IndexOf(workstations, workstationId)
              case None => r == None
              case Some(k) =>
                var w := workstations[k];
                var c := AfterRejects(w.workstationId, old(w.calendar.entries), idTask, rejects);
                if FirstSkill(w.skills, idLaborProcess).Some? then
                  w.calendar.entries == Rebooked(c, idTask, idLaborProcess, startTime, SkillTime(w.skills, idLaborProcess)) &&
                  r == Some(if FirstMatch(c, idTask, idLaborProcess).Some? then startTime else 0.0)
                else
                  w.calendar.entries == c && r == None
    {
      var wss := workstations;
      var i := 0;
      while i < |wss|
        invariant 0 <= i <= |wss| && workstations == wss
        invariant forall k :: 0 <= k < i ==>
                    wss[k].calendar.entries == AfterRejects(wss[k].workstationId, old(wss[k].calendar.entries), idTask, rejects)
        invariant forall k :: i <= k < |wss| ==> wss[k].calendar.entries == old(wss[k].calendar.entries)
      {
        RejectAll(wss[i], idTask, rejects);
        i := i + 1;
      }
      r := None;
      var w := GetWorkstation(workstationId);
      var skilled := w.HasSkill(idLaborProcess);
      if skilled && w.workstationId == workstationId {
        var booked := w.Book(idTask, idLaborProcess, startTime);
        r := if booked.Some? then Some(booked.value.startTime) else Some(0.0);
      }
    }
  }

  /** The inner loop of `book_workstation`: the rejects one workstation applies. */
  method RejectAll(w: Workstation, idTask: int, rejects: seq<(string, string)>)
    modifies w.calendar
    ensures w.calendar.entries == AfterRejects(w.workstationId, old(w.calendar.entries), idTask, rejects)
  {
    var n := 0;
    while n < |rejects|
      invariant 0 <= n <= |rejects|
      invariant w.calendar.entries == AfterRejects(w.workstationId, old(w.calendar.entries), idTask, rejects[..n])
    {
      assert rejects[..n + 1][..n] == rejects[..n];
      if w.workstationId == rejects[n].1 {
        var _ := w.Reject(idTask, rejects[n].0);
      }
      n := n + 1;
    }
    assert rejects[..n] == rejects;
  }
}
