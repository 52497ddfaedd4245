/**
 * The workstation agent's calendar and the workstation itself
 * (CPPS/cpps_workstation/cpps_workstation.py).
 *
 * The calendar is a doubly linked list of entries in the source; here it is
 * the sequence of entries a walk from `head` to `tail` visits. Appending
 * inserts the new entry where the source links it in; deleting and updating
 * act on that sequence.
 */
module CppsWorkstation {
  import opened Wrappers
  import opened SlotScan
  import Json

  /** One reserved time slot of the workstation. */
  datatype Entry = Entry(idCycle: string, idTask: int, idLaborProcess: string, startTime: real, timeSlotLength: real)

  /** The default `rotating_time` of `Calendar.append`, which every caller uses. */
  const RotatingTime: real := 5.0

  /** A skill of the workstation: the labor process it can do and how long it takes. */
  datatype Skill = Skill(skill: string, time: real)

  /** The dictionary `Entry.to_dict` builds; the start is published as the desired availability date. */
  function ToDict(e: Entry): Json.Object {
    map[
      "id_cycle" := Json.Str(e.idCycle),
      "id_task" := Json.Int(e.idTask),
      "id_labor_process" := Json.Str(e.idLaborProcess),
      "desired_availability_date" := Json.Real(e.startTime),
      "time_slot_length" := Json.Real(e.timeSlotLength)
    ]
  }

  /** Reads an entry back from the dictionary `ToDict` builds. */
  function FromDict(d: Json.Object): Option<Entry> {
    if "id_cycle" in d && d["id_cycle"].Str? && "id_task" in d && d["id_task"].Int? &&
       "id_labor_process" in d && d["id_labor_process"].Str? &&
       "desired_availability_date" in d && d["desired_availability_date"].Real? &&
       "time_slot_length" in d && d["time_slot_length"].Real?
    then Some(Entry(d["id_cycle"].s, d["id_task"].i, d["id_labor_process"].s,
                    d["desired_availability_date"].r, d["time_slot_length"].r))
    else None
  }

  /** The dictionary of an entry holds every field of it, under the keys the agents exchange. */
  lemma ToDictRoundTrip(e: Entry)
    ensures FromDict(ToDict(e)) == Some(e)
    ensures ToDict(e).Keys == {"id_cycle", "id_task", "id_labor_process", "desired_availability_date", "time_slot_length"}
  {
  }

  /** The view of an entry the placement scan works on: the gap is the rotating time. */
  function FrameOf(e: Entry): Frame {
    Frame(e.idCycle, e.startTime, e.timeSlotLength)
  }

  function Frames(es: seq<Entry>): (fs: seq<Frame>)
    ensures |fs| == |es| && forall k :: 0 <= k < |es| ==> fs[k] == FrameOf(es[k])
  {
    seq(|es|, k requires 0 <= k < |es| => FrameOf(es[k]))
  }

  /** Where `append` puts x into the calendar es, and the start it gives it. */
  function Decide(es: seq<Entry>, x: Entry, rotatingTime: real): Placement {
    Place(Intended, Frames(es), FrameOf(x), rotatingTime)
  }

  /** The entry `append` stores and returns: x, possibly moved to a later start. */
  function Placed(es: seq<Entry>, x: Entry, rotatingTime: real): (e: Entry)
    ensures e.idCycle == x.idCycle && e.idTask == x.idTask && e.idLaborProcess == x.idLaborProcess
    ensures e.timeSlotLength == x.timeSlotLength && e.startTime >= x.startTime
  {
    x.(startTime := Decide(es, x, rotatingTime).begin)
  }

  /** The calendar after `append`. */
  function Appended(es: seq<Entry>, x: Entry, rotatingTime: real): seq<Entry> {
    var k := Decide(es, x, rotatingTime).index;
    es[..k] + [Placed(es, x, rotatingTime)] + es[k..]
  }

  /**
   * `append` links the new entry in between the old ones without touching
   * them. Its start is the later of the requested start and the end, plus
   * rotating time, of the nearest entry before it that belongs to another
   * cycle; with no such entry it keeps the requested start.
   */
  lemma AppendedStart(es: seq<Entry>, x: Entry, rotatingTime: real)
    ensures var k := Decide(es, x, rotatingTime).index;
            var e := Placed(es, x, rotatingTime);
            var r := Appended(es, x, rotatingTime);
            |r| == |es| + 1 && r[k] == e && r[..k] == es[..k] && r[k + 1..] == es[k..] &&
            match LastOther(Frames(es), x.idCycle, k)
            case None => e.startTime == x.startTime
            case Some(j) =>
              es[j].idCycle != x.idCycle &&
              e.startTime == Later(x.startTime, es[j].startTime + es[j].timeSlotLength + rotatingTime)
  {
    var k := Decide(es, x, rotatingTime).index;
    var r := Appended(es, x, rotatingTime);
    PlaceClearOfPredecessor(Frames(es), FrameOf(x), rotatingTime);
    assert r[..k] == es[..k];
    assert r[k + 1..] == es[k..];
  }

  /**
   * When the new entry goes in front of an existing entry, that entry is of
   * another cycle and starts after the new slot ends. An entry that was not
   * moved goes in front only of an entry starting after its end plus
   * rotating time.
   */
  lemma AppendedBeforeSuccessor(es: seq<Entry>, x: Entry, rotatingTime: real)
    requires rotatingTime >= 0.0
    ensures var k := Decide(es, x, rotatingTime).index;
            var e := Placed(es, x, rotatingTime);
            k < |es| ==>
              es[k].idCycle != x.idCycle && e.startTime + e.timeSlotLength < es[k].startTime &&
              (e.startTime == x.startTime ==>
                 es[k].startTime > x.startTime + x.timeSlotLength + rotatingTime)
  {
    PlaceBeforeSuccessor(Intended, Frames(es), FrameOf(x), rotatingTime);
  }

  /** Every move of the new entry sets its start to some earlier entry's end plus rotating time. */
  lemma AppendedShiftSource(es: seq<Entry>, x: Entry, rotatingTime: real)
    ensures var k := Decide(es, x, rotatingTime).index;
            var e := Placed(es, x, rotatingTime);
            e.startTime == x.startTime ||
            exists j :: 0 <= j < k && e.startTime == es[j].startTime + es[j].timeSlotLength + rotatingTime
  {
    var fs := Frames(es);
    PlaceShiftSource(Intended, fs, FrameOf(x), rotatingTime);
    var p := Decide(es, x, rotatingTime);
    if p.begin != x.startTime {
      var j :| 0 <= j < p.index && p.begin == End(fs[j], rotatingTime);
      assert es[j].startTime + es[j].timeSlotLength + rotatingTime == p.begin;
    }
  }

  /** An entry matches a reject or a booking by task and labor process. */
  predicate Matches(e: Entry, idTask: int, idLaborProcess: string) {
    e.idTask == idTask && e.idLaborProcess == idLaborProcess
  }

  /** The calendar without the entries that match. */
  function Without(es: seq<Entry>, idTask: int, idLaborProcess: string): seq<Entry>
    decreases |es|
  {
    if es == [] then []
    else
      var last := es[|es| - 1];
      Without(es[..|es| - 1], idTask, idLaborProcess) + (if Matches(last, idTask, idLaborProcess) then [] else [last])
  }

  /** How many entries match. */
  function CountMatches(es: seq<Entry>, idTask: int, idLaborProcess: string): nat
    decreases |es|
  {
    if es == [] then 0
    else CountMatches(es[..|es| - 1], idTask, idLaborProcess) + (if Matches(es[|es| - 1], idTask, idLaborProcess) then 1 else 0)
  }

  /**
   * `delete` keeps exactly the entries that do not match, unchanged, and the
   * number it reports is the number of entries it removed.
   */
  lemma {:induction false} WithoutKeepsOthers(es: seq<Entry>, idTask: int, idLaborProcess: string)
    ensures forall e :: e in Without(es, idTask, idLaborProcess) <==> e in es && !Matches(e, idTask, idLaborProcess)
    ensures |Without(es, idTask, idLaborProcess)| + CountMatches(es, idTask, idLaborProcess) == |es|
    decreases |es|
  {
    if es != [] {
      var init := es[..|es| - 1];
      WithoutKeepsOthers(init, idTask, idLaborProcess);
      assert es == init + [es[|es| - 1]];
    }
  }

  /** The first entry that matches. */
  function FirstMatch(es: seq<Entry>, idTask: int, idLaborProcess: string): (k: Option<nat>)
    ensures k.Some? ==>
              k.value < |es| && Matches(es[k.value], idTask, idLaborProcess) &&
              forall m :: 0 <= m < k.value ==> !Matches(es[m], idTask, idLaborProcess)
    ensures k.None? ==> forall m :: 0 <= m < |es| ==> !Matches(es[m], idTask, idLaborProcess)
  {
    FirstMatchFrom(es, idTask, idLaborProcess, 0)
  }

  function FirstMatchFrom(es: seq<Entry>, idTask: int, idLaborProcess: string, from: nat): (k: Option<nat>)
    requires from <= |es|
    ensures k.Some? ==>
              from <= k.value < |es| && Matches(es[k.value], idTask, idLaborProcess) &&
              forall m :: from <= m < k.value ==> !Matches(es[m], idTask, idLaborProcess)
    ensures k.None? ==> forall m :: from <= m < |es| ==> !Matches(es[m], idTask, idLaborProcess)
    decreases |es| - from
  {
    if from == |es| then None
    else if Matches(es[from], idTask, idLaborProcess) then Some(from)
    else FirstMatchFrom(es, idTask, idLaborProcess, from + 1)
  }

  /** The first skill entry with the given name. */
  function FirstSkill(skills: seq<Skill>, name: string): (k: Option<nat>)
    ensures k.Some? ==>
              k.value < |skills| && skills[k.value].skill == name &&
              forall m :: 0 <= m < k.value ==> skills[m].skill != name
    ensures k.None? ==> forall m :: 0 <= m < |skills| ==> skills[m].skill != name
    decreases |skills|
  {
    if skills == [] then None
    else if skills[0].skill == name then Some(0)
    else
      match FirstSkill(skills[1..], name)
      case None => None
      case Some(k) => Some(k + 1)
  }

  /** `get_skill_time`: the time of the first skill with that name, 0.0 when there is none. */
  function SkillTime(skills: seq<Skill>, name: string): real {
    match FirstSkill(skills, name)
    case None => 0.0
    case Some(k) => skills[k].time
  }

  /**
   * The calendar after `update`: the first entry of that task and labor
   * process gets the new start and slot length, nothing else changes.
   */
  function Rebooked(es: seq<Entry>, idTask: int, idLaborProcess: string, newStartTime: real, newTimeSlotLength: real)
    : (r: seq<Entry>)
    ensures |r| == |es|
    ensures FirstMatch(es, idTask, idLaborProcess).None? ==> r == es
    ensures FirstMatch(es, idTask, idLaborProcess).Some? ==>
              var k := FirstMatch(es, idTask, idLaborProcess).value;
              r[k] == es[k].(startTime := newStartTime, timeSlotLength := newTimeSlotLength) &&
              forall m :: 0 <= m < |es| && m != k ==> r[m] == es[m]
  {
    match FirstMatch(es, idTask, idLaborProcess)
    case None => es
    case Some(k) => es[k := es[k].(startTime := newStartTime, timeSlotLength := newTimeSlotLength)]
  }

  /** What `Workstation.reservation` returns: the stored entry's dictionary plus three figures. */
  datatype Reserved = Reserved(entry: Entry, bufferTime: real, costsWorkstation: real, skillTime: real)

  /**
   * The while loop of `append` over a calendar of two or more entries: the
   * index in front of which the new entry is linked (|L| for after the tail)
   * and the entry as stored. `run` is the index at which the run of
   * same-cycle entries being skipped started; the source's `temp_iterator`
   * is set exactly during such a run.
   */
  method ScanForSlot(L: seq<Entry>, newEntry: Entry, rotatingTime: real) returns (k: nat, placed: Entry)
    requires |L| >= 2
    ensures Decide(L, newEntry, rotatingTime) == Placement(k, placed.startTime)
    ensures placed == Placed(L, newEntry, rotatingTime)
  {
    ghost var fs := Frames(L);
    ghost var fx := FrameOf(newEntry);
    var s, len := newEntry.startTime, newEntry.timeSlotLength;
    var newEnd := s + len + rotatingTime;
    placed := newEntry;
    var i := 0;
    var run: Option<nat> := None;
    while i < |L| - 1
      invariant 0 <= i < |L| && placed == newEntry
      invariant RunOk(fs, newEntry.idCycle, i, run)
      invariant ScanFrom(Intended, fs, fx, rotatingTime, i, run) == Place(Intended, fs, fx, rotatingTime)
      decreases |L| - i
    {
      var it := L[i];
      assert fs[i] == FrameOf(it);
      if it.idCycle == newEntry.idCycle {
        ScanSkip(Intended, fs, fx, rotatingTime, i, run);
        if run.None? {
          run := Some(i);
        }
        i := i + 1;
        continue;
      }
      ScanOther(Intended, fs, fx, rotatingTime, i, run);
      if it.startTime > newEnd {
        var prev := Pred(Intended, run, i);
        if prev.None? {
          return i, placed;
        }
        var p := L[prev.value];
        var prevEnd := p.startTime + p.timeSlotLength + rotatingTime;
        if prevEnd <= s {
          return i, placed;
        }
        if prevEnd + len < it.startTime {
          return i, newEntry.(startTime := prevEnd);
        }
      }
      run := None;
      i := i + 1;
    }
    k, placed := TailSlot(L, newEntry, rotatingTime, run);
  }

  /** The part of `append` after the while loop, at the last entry of the calendar. */
  method TailSlot(L: seq<Entry>, newEntry: Entry, rotatingTime: real, run: Option<nat>) returns (k: nat, placed: Entry)
    requires |L| >= 2 && RunOk(Frames(L), newEntry.idCycle, |L| - 1, run)
    ensures ScanFrom(Intended, Frames(L), FrameOf(newEntry), rotatingTime, |L| - 1, run) == Placement(k, placed.startTime)
    ensures placed == newEntry.(startTime := placed.startTime)
  {
    var s, len := newEntry.startTime, newEntry.timeSlotLength;
    var i := |L| - 1;
    var it := L[i];
    var prev := Pred(Intended, run, i);
    placed := newEntry;
    if it.idCycle == newEntry.idCycle {
      if prev.Some? {
        var p := L[prev.value];
        var prevEnd := p.startTime + p.timeSlotLength + rotatingTime;
        if prevEnd > s {
          placed := newEntry.(startTime := prevEnd);
        }
      }
      return |L|, placed;
    }
    if it.startTime > s + len + rotatingTime {
      if prev.None? {
        return i, placed;
      }
      var p := L[prev.value];
      var prevEnd := p.startTime + p.timeSlotLength + rotatingTime;
      if prevEnd <= s {
        return i, placed;
      }
      if prevEnd + len + rotatingTime < it.startTime {
        return i, newEntry.(startTime := prevEnd);
      }
    }
    var itEnd := it.startTime + it.timeSlotLength + rotatingTime;
    if itEnd >= s {
      placed := newEntry.(startTime := itEnd);
    }
    k := |L|;
  }

  /** The workstation's calendar. */
  class Calendar {
    var entries: seq<Entry>

    constructor ()
      ensures entries == []
    {
      entries := [];
    }

    /**
     * `Calendar.append`: finds a place for the new entry, links it in there
     * and returns the entry as stored.
     */
    method Append(newEntry: Entry, rotatingTime: real) returns (placed: Entry)
      modifies this
      ensures placed == Placed(old(entries), newEntry, rotatingTime)
      ensures entries == Appended(old(entries), newEntry, rotatingTime)
      ensures old(entries) == [] ==> entries == [newEntry] && placed == newEntry
    {
      var L := entries;
      placed := newEntry;
      if |L| == 0 {
        entries := [placed];
        return;
      }
      if |L| == 1 {
        var it := L[0];
        if it.idCycle == newEntry.idCycle {
          entries := L + [placed];
        } else if it.startTime > newEntry.startTime + newEntry.timeSlotLength + rotatingTime {
          entries := [placed] + L;
        } else {
          var itEnd := it.startTime + it.timeSlotLength + rotatingTime;
          if itEnd > newEntry.startTime {
            placed := newEntry.(startTime := itEnd);
          }
          entries := L + [placed];
        }
        return;
      }
      var k;
      k, placed := ScanForSlot(L, newEntry, rotatingTime);
      entries := L[..k] + [placed] + L[k..];
    }

    /** `Calendar.delete`: unlinks every entry of that task and labor process and counts them. */
    method Delete(idTask: int, idLaborProcess: string) returns (count: nat)
      modifies this
      ensures entries == Without(old(entries), idTask, idLaborProcess)
      ensures count == CountMatches(old(entries), idTask, idLaborProcess)
      ensures count == |old(entries)| - |entries|
    {
      var L := entries;
      var kept: seq<Entry> := [];
      count := 0;
      var i := 0;
      while i < |L|
        invariant 0 <= i <= |L|
        invariant kept == Without(L[..i], idTask, idLaborProcess)
        invariant count == CountMatches(L[..i], idTask, idLaborProcess)
      {
        assert L[..i + 1][..i] == L[..i];
        if Matches(L[i], idTask, idLaborProcess) {
          count := count + 1;
        } else {
          kept := kept + [L[i]];
        }
        i := i + 1;
      }
      assert L[..i] == L;
      WithoutKeepsOthers(L, idTask, idLaborProcess);
      entries := kept;
    }

    /**
     * `Calendar.update`: gives the first entry of that task and labor process
     * a new start and slot length and returns it; None when there is none.
     */
    method Update(idTask: int, idLaborProcess: string, newStartTime: real, newTimeSlotLength: real)
      returns (r: Option<Entry>)
      modifies this
      ensures entries == Rebooked(old(entries), idTask, idLaborProcess, newStartTime, newTimeSlotLength)
      ensures match FirstMatch(old(entries), idTask, idLaborProcess)
              case None => r == None
              case Some(k) => r == Some(entries[k])
    {
      var i := 0;
      while i < |entries|
        invariant 0 <= i <= |entries| && entries == old(entries)
        invariant forall m :: 0 <= m < i ==> !Matches(entries[m], idTask, idLaborProcess)
      {
        if Matches(entries[i], idTask, idLaborProcess) {
          var e := entries[i].(startTime := newStartTime, timeSlotLength := newTimeSlotLength);
          entries := entries[i := e];
          return Some(e);
        }
        i := i + 1;
      }
      return None;
    }

    /** `Calendar.get_entry`: the first entry of that task and labor process, if any. */
    method GetEntry(idTask: int, idLaborProcess: string) returns (r: Option<Entry>)
      ensures r.None? <==> forall e :: e in entries ==> !Matches(e, idTask, idLaborProcess)
      ensures r.Some? ==>
                exists k :: 0 <= k < |entries| && entries[k] == r.value && Matches(r.value, idTask, idLaborProcess) &&
                            (forall m :: 0 <= m < k ==> !Matches(entries[m], idTask, idLaborProcess))
    {
      var i := 0;
      while i < |entries|
        invariant 0 <= i <= |entries|
        invariant forall m :: 0 <= m < i ==> !Matches(entries[m], idTask, idLaborProcess)
      {
        if Matches(entries[i], idTask, idLaborProcess) {
          return Some(entries[i]);
        }
        i := i + 1;
      }
      return None;
    }

    /** `Calendar.to_dict_list`: the dictionaries of the entries, head first. */
    method ToDictList() returns (ds: seq<Json.Object>)
      ensures |ds| == |entries| && forall k :: 0 <= k < |entries| ==> ds[k] == ToDict(entries[k])
    {
      ds := [];
      var i := 0;
      while i < |entries|
        invariant 0 <= i <= |entries| && |ds| == i
        invariant forall k :: 0 <= k < i ==> ds[k] == ToDict(entries[k])
      {
        ds := ds + [ToDict(entries[i])];
        i := i + 1;
      }
    }
  }

  /** A workstation: its skills, its costs per second and its calendar. */
  class Workstation {
    const workstationId: string
    const viconId: string
    var skills: seq<Skill>
    var costs: real
    var active: bool
    var blocked: bool
    const calendar: Calendar

    /** `Workstation(...)`; with the defaults ("", "", [], 0.0, False) it is the empty workstation. */
    constructor (workstationId: string, viconId: string, skills: seq<Skill>, costs: real, active: bool)
      ensures this.workstationId == workstationId && this.viconId == viconId
      ensures this.skills == skills && this.costs == costs && this.active == active && blocked
      ensures fresh(calendar) && calendar.entries == []
    {
      this.workstationId := workstationId;
      this.viconId := viconId;
      this.skills := skills;
      this.costs := costs;
      this.active := active;
      blocked := true;
      calendar := new Calendar();
    }

    /** `has_skill`: some skill entry has that name. */
    method HasSkill(searchedSkill: string) returns (b: bool)
      ensures b <==> exists k :: 0 <= k < |skills| && skills[k].skill == searchedSkill
      ensures b <==> FirstSkill(skills, searchedSkill).Some?
    {
      var i := 0;
      while i < |skills|
        invariant 0 <= i <= |skills|
        invariant forall m :: 0 <= m < i ==> skills[m].skill != searchedSkill
      {
        if skills[i].skill == searchedSkill {
          return true;
        }
        i := i + 1;
      }
      return false;
    }

    /** `get_skill_time`: the time of the first skill with that name, 0.0 if it has none. */
    method GetSkillTime(searchedSkill: string) returns (t: real)
      ensures t == SkillTime(skills, searchedSkill)
      ensures (forall k :: 0 <= k < |skills| ==> skills[k].skill != searchedSkill) ==> t == 0.0
    {
      var i := 0;
      while i < |skills|
        invariant 0 <= i <= |skills|
        invariant forall m :: 0 <= m < i ==> skills[m].skill != searchedSkill
      {
        if skills[i].skill == searchedSkill {
          return skills[i].time;
        }
        i := i + 1;
      }
      return 0.0;
    }

    /** The tentative entry `reservation` asks the calendar for. */
    function Asked(idCycle: string, idTask: int, idLaborProcess: string, desiredStartTime: real,
                   desiredSkill: string, delta: real): Entry
      reads this
    {
      var st := SkillTime(skills, desiredSkill);
      Entry(idCycle, idTask, idLaborProcess, desiredStartTime, st + st * delta)
    }

    /**
     * What `reservation` returns against the calendar entries cal: the slot
     * of the task covers the skill time and the buffer, starts no earlier
     * than desired, and is the entry the calendar holds afterwards.
     */
    function ReservedOn(cal: seq<Entry>, idCycle: string, idTask: int, idLaborProcess: string,
                        desiredStartTime: real, desiredSkill: string, delta: real): (r: Reserved)
      reads this
      ensures r.skillTime == SkillTime(skills, desiredSkill)
      ensures r.bufferTime == delta * r.skillTime && r.entry.timeSlotLength == r.skillTime + r.bufferTime
      ensures r.costsWorkstation == costs * r.skillTime
      ensures r.entry.idCycle == idCycle && r.entry.idTask == idTask && r.entry.idLaborProcess == idLaborProcess
      ensures r.entry.startTime >= desiredStartTime
      ensures r.entry in Appended(cal, Asked(idCycle, idTask, idLaborProcess, desiredStartTime, desiredSkill, delta),
                                  RotatingTime)
    {
      var st := SkillTime(skills, desiredSkill);
      var x := Asked(idCycle, idTask, idLaborProcess, desiredStartTime, desiredSkill, delta);
      AppendedStart(cal, x, RotatingTime);
      Reserved(Placed(cal, x, RotatingTime), st * delta, costs * st, st)
    }

    /**
     * `reservation`: a tentative slot of skill time plus a buffer of delta
     * times the skill time, appended to the calendar with the default
     * rotating time; the costs are the workstation's costs per second of skill.
     */
    method Reservation(idCycle: string, idTask: int, idLaborProcess: string, desiredStartTime: real,
                       desiredSkill: string, delta: real) returns (r: Reserved)
      modifies calendar
      ensures r == ReservedOn(old(calendar.entries), idCycle, idTask, idLaborProcess, desiredStartTime, desiredSkill, delta)
      ensures calendar.entries ==
                Appended(old(calendar.entries), Asked(idCycle, idTask, idLaborProcess, desiredStartTime, desiredSkill, delta),
                         RotatingTime)
    {
      var skillTime := GetSkillTime(desiredSkill);
      var bufferTime := skillTime * delta;
      var timeSlotLength := skillTime + bufferTime;
      var costsWorkstation := costs * skillTime;
      var entry := Entry(idCycle, idTask, idLaborProcess, desiredStartTime, timeSlotLength);
      ghost var before := calendar.entries;
      assert entry == Asked(idCycle, idTask, idLaborProcess, desiredStartTime, desiredSkill, delta);
      var placed := calendar.Append(entry, RotatingTime);
      assert placed == Placed(before, entry, RotatingTime);
      r := Reserved(placed, bufferTime, costsWorkstation, skillTime);
    }

    /** `reject`: deletes every calendar entry of that task and labor process. */
    method Reject(idTask: int, idLaborProcess: string) returns (count: nat)
      modifies calendar
      ensures calendar.entries == Without(old(calendar.entries), idTask, idLaborProcess)
      ensures count == CountMatches(old(calendar.entries), idTask, idLaborProcess)
    {
      count := calendar.Delete(idTask, idLaborProcess);
    }

    /** `book`: fixes the tentative slot at the given start, with the bare skill time as its length. */
    method Book(idTask: int, idLaborProcess: string, startTime: real) returns (r: Option<Entry>)
      modifies calendar
      ensures calendar.entries ==
                Rebooked(old(calendar.entries), idTask, idLaborProcess, startTime, SkillTime(skills, idLaborProcess))
      ensures match FirstMatch(old(calendar.entries), idTask, idLaborProcess)
              case None => r == None
              case Some(k) => r == Some(calendar.entries[k]) && r.value.startTime == startTime
    {
      var len := GetSkillTime(idLaborProcess);
      r := calendar.Update(idTask, idLaborProcess, startTime, len);
    }
  }
}
