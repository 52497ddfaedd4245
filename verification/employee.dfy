/**
 * The employee agent's calendar and the employee itself
 * (CPPS/cpps_employee/cpps_employee.py).
 *
 * As for the workstation, the linked list of the source is the sequence of
 * entries a walk from `head` to `tail` visits. The employee calendar places
 * entries by their `employee_start_time` (when the employee has to set off)
 * with no gap between slots, and every move of an entry moves its
 * `start_time` (when the employee is available at the target) by the same
 * amount.
 */
module CppsEmployee {
  import opened Wrappers
  import opened SlotScan
  import Json

  /** One reserved time slot of the employee. */
  datatype Entry = Entry(idCycle: string, idTask: int, idLaborProcess: string, target: string,
                         startTime: real, employeeStartTime: real, timeSlotLength: real, skillTime: real)

  /** `Entry.to_dict`: the start is published as the availability time. */
  function ToDict(e: Entry): Json.Object {
    map[
      "id_cycle" := Json.Str(e.idCycle),
      "id_task" := Json.Int(e.idTask),
      "id_labor_process" := Json.Str(e.idLaborProcess),
      "target" := Json.Str(e.target),
      "availability_time" := Json.Real(e.startTime),
      "employee_start_time" := Json.Real(e.employeeStartTime),
      "time_slot_length" := Json.Real(e.timeSlotLength),
      "skill_time" := Json.Real(e.skillTime)
    ]
  }

  /** Reads an entry back from the dictionary `ToDict` builds. */
  function FromDict(d: Json.Object): Option<Entry> {
    if "id_cycle" in d && d["id_cycle"].Str? && "id_task" in d && d["id_task"].Int? &&
       "id_labor_process" in d && d["id_labor_process"].Str? && "target" in d && d["target"].Str? &&
       "availability_time" in d && d["availability_time"].Real? &&
       "employee_start_time" in d && d["employee_start_time"].Real? &&
       "time_slot_length" in d && d["time_slot_length"].Real? &&
       "skill_time" in d && d["skill_time"].Real?
    then Some(Entry(d["id_cycle"].s, d["id_task"].i, d["id_labor_process"].s, d["target"].s,
                    d["availability_time"].r, d["employee_start_time"].r,
                    d["time_slot_length"].r, d["skill_time"].r))
    else None
  }

  /** The dictionary of an entry holds every field of it. */
  lemma ToDictRoundTrip(e: Entry)
    ensures FromDict(ToDict(e)) == Some(e)
    ensures "availability_time" in ToDict(e) && "start_time" !in ToDict(e)
  {
  }

  /** The view of an entry the placement scan works on: slots follow each other without a gap. */
  function FrameOf(e: Entry): Frame {
    Frame(e.idCycle, e.employeeStartTime, e.timeSlotLength)
  }

  function Frames(es: seq<Entry>): (fs: seq<Frame>)
    ensures |fs| == |es| && forall k :: 0 <= k < |es| ==> fs[k] == FrameOf(es[k])
  {
    seq(|es|, k requires 0 <= k < |es| => FrameOf(es[k]))
  }

  /** Where `append` puts x into the calendar es, and the employee start it gives it. */
  function Decide(es: seq<Entry>, x: Entry): Placement {
    Place(Intended, Frames(es), FrameOf(x), 0.0)
  }

  /**
   * x with its employee start set to b and its start moved by the same
   * amount, as every shift in `append` does.
   */
  function Shifted(x: Entry, b: real): (e: Entry)
    ensures e.startTime - e.employeeStartTime == x.startTime - x.employeeStartTime
    ensures e.employeeStartTime == b
    ensures e == x.(startTime := e.startTime, employeeStartTime := b)
  {
    x.(employeeStartTime := b, startTime := x.startTime + (b - x.employeeStartTime))
  }

  /** The entry `append` stores and returns. */
  function Placed(es: seq<Entry>, x: Entry): (e: Entry)
    ensures e.idCycle == x.idCycle && e.idTask == x.idTask && e.idLaborProcess == x.idLaborProcess
    ensures e.target == x.target && e.timeSlotLength == x.timeSlotLength && e.skillTime == x.skillTime
    ensures e.employeeStartTime >= x.employeeStartTime && e.startTime >= x.startTime
    ensures e.startTime - x.startTime == e.employeeStartTime - x.employeeStartTime
  {
    Shifted(x, Decide(es, x).begin)
  }

  /** The calendar after `append`. */
  function Appended(es: seq<Entry>, x: Entry): seq<Entry> {
    var k := Decide(es, x).index;
    es[..k] + [Placed(es, x)] + es[k..]
  }

  /**
   * `append` links the new entry in between the old ones without touching
   * them. Its employee start is the later of the requested one and the end
   * of the nearest entry before it that belongs to another cycle; with no
   * such entry it keeps the requested one.
   */
  lemma AppendedStart(es: seq<Entry>, x: Entry)
    ensures var k := Decide(es, x).index;
            var e := Placed(es, x);
            var r := Appended(es, x);
            |r| == |es| + 1 && r[k] == e && r[..k] == es[..k] && r[k + 1..] == es[k..] &&
            match LastOther(Frames(es), x.idCycle, k)
            case None => e == x
            case Some(j) =>
              es[j].idCycle != x.idCycle &&
              e.employeeStartTime == Later(x.employeeStartTime, es[j].employeeStartTime + es[j].timeSlotLength)
  {
    var k := Decide(es, x).index;
    var r := Appended(es, x);
    PlaceClearOfPredecessor(Frames(es), FrameOf(x), 0.0);
    assert r[..k] == es[..k];
    assert r[k + 1..] == es[k..];
  }

  /**
   * When the new entry goes in front of an existing entry, that entry is of
   * another cycle and starts after the new slot ends.
   */
  lemma AppendedBeforeSuccessor(es: seq<Entry>, x: Entry)
    ensures var k := Decide(es, x).index;
            var e := Placed(es, x);
            k < |es| ==>
              es[k].idCycle != x.idCycle && e.employeeStartTime + e.timeSlotLength < es[k].employeeStartTime
  {
    PlaceBeforeSuccessor(Intended, Frames(es), FrameOf(x), 0.0);
  }

  /** Every move of the new entry sets its employee start to the end of some earlier entry. */
  lemma AppendedShiftSource(es: seq<Entry>, x: Entry)
    ensures var k := Decide(es, x).index;
            var e := Placed(es, x);
            e == x ||
            exists j :: 0 <= j < k && e.employeeStartTime == es[j].employeeStartTime + es[j].timeSlotLength
  {
    var fs := Frames(es);
    PlaceShiftSource(Intended, fs, FrameOf(x), 0.0);
    var p := Decide(es, x);
    if p.begin != x.employeeStartTime {
      var j :| 0 <= j < p.index && p.begin == End(fs[j], 0.0);
      assert es[j].employeeStartTime + es[j].timeSlotLength == p.begin;
    }
  }

  /** An entry matches a reject or a booking by task, labor process and target. */
  predicate Matches(e: Entry, idTask: int, idLaborProcess: string, target: string) {
    e.idTask == idTask && e.idLaborProcess == idLaborProcess && e.target == target
  }

  /** The first entry that matches. */
  function FirstMatch(es: seq<Entry>, idTask: int, idLaborProcess: string, target: string): (k: Option<nat>)
    ensures k.Some? ==>
              k.value < |es| && Matches(es[k.value], idTask, idLaborProcess, target) &&
              forall m :: 0 <= m < k.value ==> !Matches(es[m], idTask, idLaborProcess, target)
    ensures k.None? ==> forall m :: 0 <= m < |es| ==> !Matches(es[m], idTask, idLaborProcess, target)
    decreases |es|
  {
    if es == [] then None
    else if Matches(es[0], idTask, idLaborProcess, target) then Some(0)
    else
      match FirstMatch(es[1..], idTask, idLaborProcess, target)
      case None => None
      case Some(k) => Some(k + 1)
  }

  /** The calendar after `delete`: the first matching entry unlinked, if there is one. */
  function RemoveFirst(es: seq<Entry>, idTask: int, idLaborProcess: string, target: string): seq<Entry> {
    match FirstMatch(es, idTask, idLaborProcess, target)
    case None => es
    case Some(k) => es[..k] + es[k + 1..]
  }

  /**
   * `delete` removes at most one entry, and only a matching one: the
   * others keep their order and contents.
   */
  lemma RemoveFirstRemovesOne(es: seq<Entry>, idTask: int, idLaborProcess: string, target: string)
    ensures var r := RemoveFirst(es, idTask, idLaborProcess, target);
            match FirstMatch(es, idTask, idLaborProcess, target)
            case None => r == es
            case Some(k) =>
              |r| == |es| - 1 && multiset(r) + multiset{es[k]} == multiset(es) &&
              (forall m :: 0 <= m < k ==> r[m] == es[m]) &&
              (forall m :: k <= m < |r| ==> r[m] == es[m + 1])
  {
    match FirstMatch(es, idTask, idLaborProcess, target)
    case None =>
    case Some(k) =>
      assert es == es[..k] + [es[k]] + es[k + 1..];
  }

  /**
   * The entry `update` writes: the new start, the employee start moved by
   * the same amount, and the new length plus the running time.
   */
  function Rebooked(e: Entry, newStartTime: real, newTimeSlotLength: real, runningTime: real): (b: Entry)
    ensures b.startTime == newStartTime && b.timeSlotLength == newTimeSlotLength + runningTime
    ensures b.startTime - b.employeeStartTime == e.startTime - e.employeeStartTime
    ensures b == e.(startTime := b.startTime, employeeStartTime := b.employeeStartTime, timeSlotLength := b.timeSlotLength)
  {
    var difference := newStartTime - e.startTime;
    e.(startTime := newStartTime, employeeStartTime := e.employeeStartTime + difference,
       timeSlotLength := newTimeSlotLength + runningTime)
  }

  /** The calendar after `update`: the first matching entry rebooked, if there is one. */
  function Updated(es: seq<Entry>, idTask: int, idLaborProcess: string, target: string, newStartTime: real,
                   newTimeSlotLength: real, runningTime: real): seq<Entry> {
    match FirstMatch(es, idTask, idLaborProcess, target)
    case None => es
    case Some(k) => es[k := Rebooked(es[k], newStartTime, newTimeSlotLength, runningTime)]
  }

  /**
   * The while loop of `append` over a calendar of two or more entries: the
   * index in front of which the new entry is linked (|L| for after the tail)
   * and the entry as stored. `run` is where the run of same-cycle entries
   * being skipped started.
   */
  method ScanForSlot(L: seq<Entry>, newEntry: Entry) returns (k: nat, placed: Entry)
    requires |L| >= 2
    ensures Decide(L, newEntry) == Placement(k, placed.employeeStartTime)
    ensures placed == Placed(L, newEntry)
  {
    ghost var fs := Frames(L);
    ghost var fx := FrameOf(newEntry);
    var s, len := newEntry.employeeStartTime, newEntry.timeSlotLength;
    var i := 0;
    var run: Option<nat> := None;
    while i < |L| - 1
      invariant 0 <= i < |L|
      invariant RunOk(fs, newEntry.idCycle, i, run)
      invariant ScanFrom(Intended, fs, fx, 0.0, i, run) == Place(Intended, fs, fx, 0.0)
      decreases |L| - i
    {
      var it := L[i];
      assert fs[i] == FrameOf(it);
      if it.idCycle == newEntry.idCycle {
        ScanSkip(Intended, fs, fx, 0.0, i, run);
        if run.None? {
          run := Some(i);
        }
        i := i + 1;
        continue;
      }
      ScanOther(Intended, fs, fx, 0.0, i, run);
      if it.employeeStartTime > s + len {
        var prev := Pred(Intended, run, i);
        if prev.None? {
          return i, newEntry;
        }
        var p := L[prev.value];
        var prevEnd := p.employeeStartTime + p.timeSlotLength;
        if prevEnd <= s {
          return i, newEntry;
        }
        if prevEnd + len < it.employeeStartTime {
          return i, Shifted(newEntry, prevEnd);
        }
      }
      run := None;
      i := i + 1;
    }
    k, placed := TailSlot(L, newEntry, run);
  }

  /** The part of `append` after the while loop, at the last entry of the calendar. */
  method TailSlot(L: seq<Entry>, newEntry: Entry, run: Option<nat>) returns (k: nat, placed: Entry)
    requires |L| >= 2 && RunOk(Frames(L), newEntry.idCycle, |L| - 1, run)
    ensures ScanFrom(Intended, Frames(L), FrameOf(newEntry), 0.0, |L| - 1, run) == Placement(k, placed.employeeStartTime)
    ensures placed == Shifted(newEntry, placed.employeeStartTime)
  {
    var s, len := newEntry.employeeStartTime, newEntry.timeSlotLength;
    var i := |L| - 1;
    var it := L[i];
    var prev := Pred(Intended, run, i);
    placed := newEntry;
    if it.idCycle == newEntry.idCycle {
      if prev.Some? {
        var p := L[prev.value];
        var prevEnd := p.employeeStartTime + p.timeSlotLength;
        if prevEnd > s {
          placed := Shifted(newEntry, prevEnd);
        }
      }
      return |L|, placed;
    }
    if it.employeeStartTime > s + len {
      if prev.None? {
        return i, placed;
      }
      var p := L[prev.value];
      var prevEnd := p.employeeStartTime + p.timeSlotLength;
      if prevEnd <= s {
        return i, placed;
      }
      if prevEnd + len < it.employeeStartTime {
        return i, Shifted(newEntry, prevEnd);
      }
    }
    var itEnd := it.employeeStartTime + it.timeSlotLength;
    if itEnd > s {
      placed := Shifted(newEntry, itEnd);
    }
    k := |L|;
  }

  /** The employee's calendar. */
  class Calendar {
    var entries: seq<Entry>

    constructor ()
      ensures entries == []
    {
      entries := [];
    }

    /**
     * `Calendar.append`: finds a place for the new entry, links it in there
     * and returns the entry as stored.
     */
    method Append(newEntry: Entry) returns (placed: Entry)
      modifies this
      ensures placed == Placed(old(entries), newEntry)
      ensures entries == Appended(old(entries), newEntry)
      ensures old(entries) == [] ==> entries == [newEntry] && placed == newEntry
    {
      var L := entries;
      placed := newEntry;
      if |L| == 0 {
        entries := [placed];
        return;
      }
      if |L| == 1 {
        var it := L[0];
        if it.idCycle == newEntry.idCycle {
          entries := L + [placed];
        } else if it.employeeStartTime > newEntry.employeeStartTime + newEntry.timeSlotLength {
          entries := [placed] + L;
        } else {
          var itEnd := it.employeeStartTime + it.timeSlotLength;
          if itEnd > newEntry.employeeStartTime {
            placed := Shifted(newEntry, itEnd);
          }
          entries := L + [placed];
        }
        return;
      }
      var k;
      k, placed := ScanForSlot(L, newEntry);
      entries := L[..k] + [placed] + L[k..];
    }

    /** `Calendar.delete`: unlinks the first entry of that task, labor process and target; 1 if there was one. */
    method Delete(idTask: int, idLaborProcess: string, target: string) returns (count: nat)
      modifies this
      ensures entries == RemoveFirst(old(entries), idTask, idLaborProcess, target)
      ensures count == |old(entries)| - |entries| && count <= 1
      ensures count == 1 <==> exists e :: e in old(entries) && Matches(e, idTask, idLaborProcess, target)
    {
      RemoveFirstRemovesOne(entries, idTask, idLaborProcess, target);
      var i := 0;
      while i < |entries|
        invariant 0 <= i <= |entries| && entries == old(entries)
        invariant forall m :: 0 <= m < i ==> !Matches(entries[m], idTask, idLaborProcess, target)
      {
        if Matches(entries[i], idTask, idLaborProcess, target) {
          entries := entries[..i] + entries[i + 1..];
          return 1;
        }
        i := i + 1;
      }
      return 0;
    }

    /**
     * `Calendar.update`: rebooks the first entry of that task, labor process
     * and target and returns its new start; 0.0 and no change when there is none.
     */
    method Update(idTask: int, idLaborProcess: string, target: string, newStartTime: real,
                  newTimeSlotLength: real, runningTime: real) returns (r: real)
      modifies this
      ensures entries == Updated(old(entries), idTask, idLaborProcess, target, newStartTime, newTimeSlotLength, runningTime)
      ensures r == if FirstMatch(old(entries), idTask, idLaborProcess, target).Some? then newStartTime else 0.0
    {
      var i := 0;
      while i < |entries|
        invariant 0 <= i <= |entries| && entries == old(entries)
        invariant forall m :: 0 <= m < i ==> !Matches(entries[m], idTask, idLaborProcess, target)
      {
        if Matches(entries[i], idTask, idLaborProcess, target) {
          var e := Rebooked(entries[i], newStartTime, newTimeSlotLength, runningTime);
          entries := entries[i := e];
          return e.startTime;
        }
        i := i + 1;
      }
      return 0.0;
    }

    /** `Calendar.to_dict_list`: the dictionaries of the entries, head first. */
    method ToDictList() returns (ds: seq<Json.Object>)
      ensures |ds| == |entries| && forall k :: 0 <= k < |entries| ==> ds[k] == ToDict(entries[k])
    {
      ds := [];
      var i := 0;
      while i < |entries|
        invariant 0 <= i <= |entries| && |ds| == i
        invariant forall k :: 0 <= k < i ==> ds[k] == ToDict(entries[k])
      {
        ds := ds + [ToDict(entries[i])];
        i := i + 1;
      }
    }
  }

  /** The arguments of `Employee.reservation`. */
  datatype Request = Request(alphaTime: real, alphaCosts: real, desiredAvailabilityTime: real, idCycle: string,
                             idTask: int, idLaborProcess: string, skillTime: real, target: string,
                             bufferTimeWorkstation: real)

  /** What `reservation` returns: the stored entry's dictionary plus four figures. */
  datatype Offer = Offer(entry: Entry, valuationResult: real, employeeId: string, bufferTime: real, costs: real)

  /** The dictionary `reservation` returns. */
  function OfferDict(o: Offer): Json.Object {
    ToDict(o.entry)["valuation_result" := Json.Real(o.valuationResult)]["employee_id" := Json.Str(o.employeeId)]
                   ["buffer_time" := Json.Real(o.bufferTime)]["costs" := Json.Real(o.costs)]
  }

  /** The sentinel valuation of an offer that cannot be harmonised. */
  const Unusable: real := 999.0

  /**
   * An employee. The attributes other than the calendar and the login state
   * are fixed here (their setters are not part of this model).
   */
  class Employee {
    const employeeId: string
    const viconId: string
    const skills: seq<string>
    const laborCosts: real
    const runningTime: real
    const epsilon: real
    const active: bool
    var blocked: bool
    var cookieId: Option<string>
    const calendar: Calendar

    /** `Employee(...)`: not blocked, no cookie, an empty calendar. */
    constructor (employeeId: string, viconId: string, skills: seq<string>, active: bool,
                 laborCosts: real, runningTime: real, epsilon: real)
      ensures this.employeeId == employeeId && this.viconId == viconId && this.skills == skills
      ensures this.active == active && this.laborCosts == laborCosts
      ensures this.runningTime == runningTime && this.epsilon == epsilon
      ensures !blocked && cookieId == None
      ensures fresh(calendar) && calendar.entries == []
    {
      this.employeeId := employeeId;
      this.viconId := viconId;
      this.skills := skills;
      this.active := active;
      this.laborCosts := laborCosts;
      this.runningTime := runningTime;
      this.epsilon := epsilon;
      blocked := false;
      cookieId := None;
      calendar := new Calendar();
    }

    /** The entry `reservation` asks the calendar for. */
    function Asked(req: Request): (e: Entry)
      ensures e.startTime - e.employeeStartTime == runningTime
    {
      var workDuration := req.skillTime + runningTime;
      Entry(req.idCycle, req.idTask, req.idLaborProcess, req.target, req.desiredAvailabilityTime,
            req.desiredAvailabilityTime - runningTime, workDuration + workDuration * epsilon, req.skillTime)
    }

    /**
     * The offer `reservation` returns against the calendar cal. `norm` is
     * v |-> exp(-1/v), applied to the start deviation and to the costs.
     */
    function OfferFor(cal: seq<Entry>, req: Request, norm: real -> real): Offer {
      var workDuration := req.skillTime + runningTime;
      var placed := Placed(cal, Asked(req));
      var deviation := placed.startTime - req.desiredAvailabilityTime;
      var startDeviation := if deviation == 0.0 then 0.01 else deviation;
      var costs := laborCosts * workDuration;
      var valuation :=
        if startDeviation > req.bufferTimeWorkstation then Unusable
        else req.alphaTime * norm(startDeviation) + req.alphaCosts * norm(costs);
      Offer(placed, valuation, employeeId, workDuration * epsilon, costs)
    }

    /** `has_skill`: the skill list contains the labor process. */
    method HasSkill(searchedSkill: string) returns (b: bool)
      ensures b <==> searchedSkill in skills
    {
      var i := 0;
      while i < |skills|
        invariant 0 <= i <= |skills|
        invariant searchedSkill !in skills[..i]
      {
        if skills[i] == searchedSkill {
          return true;
        }
        i := i + 1;
      }
      assert skills[..i] == skills;
      return false;
    }

    /** `block`: logs the employee in with a cookie. */
    method Block(cookie: string) returns (b: bool)
      modifies this
      ensures blocked && b && cookieId == Some(cookie)
    {
      blocked := true;
      cookieId := Some(cookie);
      b := blocked;
    }

    /** `unblock`: always unblocks, but forgets the cookie only when it is the one given. */
    method Unblock(cookie: string) returns (b: bool)
      modifies this
      ensures !blocked && !b
      ensures cookieId == if old(cookieId) == Some(cookie) then None else old(cookieId)
    {
      blocked := false;
      if cookieId == Some(cookie) {
        cookieId := None;
      }
      b := blocked;
    }

    /**
     * `reservation`: asks the calendar for a slot of the work duration plus
     * a buffer, starting the running time before the desired availability,
     * and values the offer by how far it had to be moved and what it costs.
     */
    method Reservation(req: Request, norm: real -> real) returns (o: Offer)
      modifies calendar
      ensures calendar.entries == Appended(old(calendar.entries), Asked(req))
      ensures o == OfferFor(old(calendar.entries), req, norm)
    {
      var desiredStartTime := req.desiredAvailabilityTime - runningTime;
      var workDuration := req.skillTime + runningTime;
      var bufferTime := workDuration * epsilon;
      var timeSlotLength := workDuration + bufferTime;
      var newEntry := Entry(req.idCycle, req.idTask, req.idLaborProcess, req.target,
                            req.desiredAvailabilityTime, desiredStartTime, timeSlotLength, req.skillTime);
      assert newEntry == Asked(req);
      var placed := calendar.Append(newEntry);
      assert placed == Placed(old(calendar.entries), Asked(req));
      var startDeviation := placed.startTime - req.desiredAvailabilityTime;
      if startDeviation == 0.0 {
        startDeviation := 0.01;
      }
      var costs := laborCosts * workDuration;
      var valuation;
      if startDeviation > req.bufferTimeWorkstation {
        valuation := Unusable;
      } else {
        valuation := req.alphaTime * norm(startDeviation) + req.alphaCosts * norm(costs);
      }
      o := Offer(placed, valuation, employeeId, bufferTime, costs);
      ghost var spec := OfferFor(old(calendar.entries), req, norm);
      assert o.entry == spec.entry && o.costs == spec.costs && o.bufferTime == spec.bufferTime;
      assert o.valuationResult == spec.valuationResult;
    }

    /** `reject`: deletes the first calendar entry of that task, labor process and target. */
    method Reject(idTask: int, idLaborProcess: string, target: string) returns (count: nat)
      modifies calendar
      ensures calendar.entries == RemoveFirst(old(calendar.entries), idTask, idLaborProcess, target)
      ensures count == |old(calendar.entries)| - |calendar.entries|
    {
      count := calendar.Delete(idTask, idLaborProcess, target);
    }

    /** `book`: fixes the tentative slot at the given start; the calendar adds the running time. */
    method Book(idTask: int, idLaborProcess: string, target: string, startTime: real, timeSlotLength: real)
      returns (r: real)
      modifies calendar
      ensures calendar.entries ==
                Updated(old(calendar.entries), idTask, idLaborProcess, target, startTime, timeSlotLength, runningTime)
      ensures r == if FirstMatch(old(calendar.entries), idTask, idLaborProcess, target).Some? then startTime else 0.0
    {
      r := calendar.Update(idTask, idLaborProcess, target, startTime, timeSlotLength, runningTime);
    }
  }

  /**
   * The valuation of a reservation: it is the sentinel exactly when the
   * employee start had to move by more than the workstation's buffer; a
   * reservation that was not moved is valued as if moved by 0.01 s. The
   * availability moves exactly as far as the employee start.
   */
  lemma OfferValuation(emp: Employee, cal: seq<Entry>, req: Request, norm: real -> real)
    ensures var o := emp.OfferFor(cal, req, norm);
            var shift := o.entry.employeeStartTime - emp.Asked(req).employeeStartTime;
            shift >= 0.0 &&
            o.entry.startTime == req.desiredAvailabilityTime + shift &&
            o.entry.startTime - o.entry.employeeStartTime == emp.runningTime &&
            var deviation := if shift == 0.0 then 0.01 else shift;
            (o.valuationResult == Unusable <==>
               deviation > req.bufferTimeWorkstation ||
               req.alphaTime * norm(deviation) + req.alphaCosts * norm(o.costs) == Unusable) &&
            (deviation <= req.bufferTimeWorkstation ==>
               o.valuationResult == req.alphaTime * norm(deviation) + req.alphaCosts * norm(o.costs))
  {
  }
}
