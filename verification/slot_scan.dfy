/**
 * Where `Calendar.append` links a new time slot in, and when that slot begins.
 *
 * Both resource calendars (workstation and employee) run the same scan over
 * their doubly linked list of entries. Only three things of an entry matter
 * to the scan: its production cycle, the time it begins and its length. A
 * `Frame` is that view. The workstation scans `start_time` with a gap of
 * `rotating_time` after every slot; the employee scans `employee_start_time`
 * with no gap.
 *
 * The linked list is modelled as a sequence. "Link the new node in front of
 * the iterator at position i" becomes "insert at index i"; "link it after the
 * tail" becomes "insert at index |fs|".
 */
module SlotScan {
  import opened Wrappers

  /** The part of a calendar entry the placement scan looks at. */
  datatype Frame = Frame(cycle: string, begin: real, length: real)

  /** Where the new entry goes and the begin time it ends up with. */
  datatype Placement = Placement(index: nat, begin: real)

  /**
   * Which entry a shift is computed from once a run of entries of the new
   * entry's own cycle has been skipped.
   *  - Intended: the nearest entry of another cycle before the iterator.
   *  - WorkstationAsWritten: cpps_workstation.py tests `temp_iterator == self.head`;
   *    that is also true when the run starts right after the head, so the
   *    head is then ignored although it belongs to another cycle.
   *  - EmployeeAsWritten: cpps_employee.py stores a copy of the node in
   *    `temp_iterator`, so the test against the head is never true; a run
   *    that starts at the head makes the head itself (an entry of the new
   *    entry's own cycle) the predecessor.
   */
  datatype PredRule = Intended | WorkstationAsWritten | EmployeeAsWritten

  /** The time a slot ends, including the gap that must follow it. */
  function End(f: Frame, gap: real): real {
    f.begin + f.length + gap
  }

  /** The later of two times. */
  function Later(a: real, b: real): (m: real)
    ensures m >= a && m >= b && (m == a || m == b)
  {
    if a >= b then a else b
  }

  /**
   * What the scan knows when it reaches index i: `run` is the index where the
   * current run of same-cycle entries started (the source's `temp_iterator`
   * is set exactly while such a run is being skipped).
   */
  predicate RunOk(fs: seq<Frame>, c: string, i: nat, run: Option<nat>) {
    i <= |fs| &&
    match run
    case None => i == 0 || fs[i - 1].cycle != c
    case Some(j) =>
      j < i && (j == 0 || fs[j - 1].cycle != c) &&
      forall m :: j <= m < i ==> fs[m].cycle == c
  }

  /** The nearest entry before index k whose cycle differs from c. */
  function LastOther(fs: seq<Frame>, c: string, k: nat): (r: Option<nat>)
    requires k <= |fs|
    ensures r.Some? ==>
              r.value < k && fs[r.value].cycle != c &&
              forall m :: r.value < m < k ==> fs[m].cycle == c
    ensures r.None? ==> forall m :: 0 <= m < k ==> fs[m].cycle == c
    decreases k
  {
    if k == 0 then None
    else if fs[k - 1].cycle != c then Some(k - 1)
    else LastOther(fs, c, k - 1)
  }

  /** The predecessor the source computes at index i (`prev_iterator`). */
  function Pred(rule: PredRule, run: Option<nat>, i: nat): (p: Option<nat>)
    ensures p.Some? ==> p.value < i || (run.Some? && p.value <= run.value)
  {
    match run
    case None => if i == 0 then None else Some(i - 1)
    case Some(j) =>
      match rule
      case Intended => if j == 0 then None else Some(j - 1)
      case WorkstationAsWritten => if j <= 1 then None else Some(j - 1)
      case EmployeeAsWritten => if j == 0 then Some(0) else Some(j - 1)
  }

  /**
   * The scan over a calendar of at least two entries, from index i on. The
   * last entry (i == |fs| - 1) is handled after the source's while loop.
   */
  function ScanFrom(rule: PredRule, fs: seq<Frame>, x: Frame, gap: real, i: nat, run: Option<nat>): (p: Placement)
    requires 2 <= |fs| && i < |fs| && RunOk(fs, x.cycle, i, run)
    ensures i <= p.index <= |fs| && x.begin <= p.begin
    decreases |fs| - i
  {
    var f := fs[i];
    if i < |fs| - 1 then
      if f.cycle == x.cycle then
        ScanFrom(rule, fs, x, gap, i + 1, if run.None? then Some(i) else run)
      else
        match Fit(rule, fs, x, gap, i, run, 0.0)
        case Some(b) => Placement(i, b)
        case None => ScanFrom(rule, fs, x, gap, i + 1, None)
    else if f.cycle == x.cycle then
      match Pred(rule, run, i)
      case None => Placement(|fs|, x.begin)
      case Some(q) =>
        var pe := End(fs[q], gap);
        Placement(|fs|, if pe > x.begin then pe else x.begin)
    else
      match Fit(rule, fs, x, gap, i, run, gap)
      case Some(b) => Placement(i, b)
      case None =>
        var fe := End(f, gap);
        Placement(|fs|, if fe >= x.begin then fe else x.begin)
  }

  /**
   * At an entry of another cycle: the begin time with which the new entry
   * fits in front of it, if it does. A shifted entry must end `room` before
   * that entry begins (the loop asks for no room, the last entry for the gap).
   */
  function Fit(rule: PredRule, fs: seq<Frame>, x: Frame, gap: real, i: nat, run: Option<nat>, room: real): (b: Option<real>)
    requires i < |fs| && RunOk(fs, x.cycle, i, run)
    ensures b.Some? ==> fs[i].begin > End(x, gap)
    ensures b.Some? ==>
              match Pred(rule, run, i)
              case None => b.value == x.begin
              case Some(q) =>
                b.value == Later(x.begin, End(fs[q], gap)) &&
                (b.value != x.begin ==> b.value + x.length + room < fs[i].begin)
  {
    if fs[i].begin > End(x, gap) then
      match Pred(rule, run, i)
      case None => Some(x.begin)
      case Some(q) =>
        var pe := End(fs[q], gap);
        if pe <= x.begin then Some(x.begin)
        else if pe + x.length + room < fs[i].begin then Some(pe)
        else None
    else None
  }

  /** One step of the scan at an entry of the new entry's own cycle: it is skipped. */
  lemma ScanSkip(rule: PredRule, fs: seq<Frame>, x: Frame, gap: real, i: nat, run: Option<nat>)
    requires 2 <= |fs| && i < |fs| - 1 && RunOk(fs, x.cycle, i, run) && fs[i].cycle == x.cycle
    ensures RunOk(fs, x.cycle, i + 1, if run.None? then Some(i) else run)
    ensures ScanFrom(rule, fs, x, gap, i, run) == ScanFrom(rule, fs, x, gap, i + 1, if run.None? then Some(i) else run)
  {
  }

  /** One step of the scan at an entry of another cycle: the new entry fits in front of it or the scan moves on. */
  lemma ScanOther(rule: PredRule, fs: seq<Frame>, x: Frame, gap: real, i: nat, run: Option<nat>)
    requires 2 <= |fs| && i < |fs| - 1 && RunOk(fs, x.cycle, i, run) && fs[i].cycle != x.cycle
    ensures RunOk(fs, x.cycle, i + 1, None)
    ensures Fit(rule, fs, x, gap, i, run, 0.0).Some? ==>
              ScanFrom(rule, fs, x, gap, i, run) == Placement(i, Fit(rule, fs, x, gap, i, run, 0.0).value)
    ensures Fit(rule, fs, x, gap, i, run, 0.0).None? ==>
              ScanFrom(rule, fs, x, gap, i, run) == ScanFrom(rule, fs, x, gap, i + 1, None)
  {
  }

  /** `Calendar.append`'s decision for a calendar with frames fs and a new entry x. */
  function Place(rule: PredRule, fs: seq<Frame>, x: Frame, gap: real): (p: Placement)
    ensures p.index <= |fs| && x.begin <= p.begin
  {
    if |fs| == 0 then Placement(0, x.begin)
    else if |fs| == 1 then
      if fs[0].cycle == x.cycle then Placement(1, x.begin)
      else if fs[0].begin > End(x, gap) then Placement(0, x.begin)
      else Placement(1, if End(fs[0], gap) > x.begin then End(fs[0], gap) else x.begin)
    else ScanFrom(rule, fs, x, gap, 0, None)
  }

  /** The begin time Place promises: no earlier than asked, and clear of the predecessor. */
  predicate ClearOfPredecessor(fs: seq<Frame>, x: Frame, gap: real, p: Placement)
    requires p.index <= |fs|
  {
    match LastOther(fs, x.cycle, p.index)
    case None => p.begin == x.begin
    case Some(j) => p.begin == Later(x.begin, End(fs[j], gap))
  }

  /** With the intended rule, the source's predecessor is the nearest entry of another cycle. */
  lemma PredIsLastOther(fs: seq<Frame>, c: string, i: nat, run: Option<nat>)
    requires i <= |fs| && RunOk(fs, c, i, run)
    ensures Pred(Intended, run, i) == LastOther(fs, c, i)
  {
    var r := LastOther(fs, c, i);
    match run
    case None =>
      if i > 0 {
        assert fs[i - 1].cycle != c;
      }
    case Some(j) =>
      if r.Some? {
        assert fs[r.value].cycle != c;
        assert r.value < j;
      }
  }

  lemma {:induction false} ScanClearOfPredecessor(fs: seq<Frame>, x: Frame, gap: real, i: nat, run: Option<nat>)
    requires 2 <= |fs| && i < |fs| && RunOk(fs, x.cycle, i, run)
    ensures ClearOfPredecessor(fs, x, gap, ScanFrom(Intended, fs, x, gap, i, run))
    decreases |fs| - i
  {
    if i < |fs| - 1 {
      var run' := if fs[i].cycle == x.cycle then (if run.None? then Some(i) else run) else None;
      if fs[i].cycle == x.cycle || Fit(Intended, fs, x, gap, i, run, 0.0).None? {
        ScanClearOfPredecessor(fs, x, gap, i + 1, run');
      } else {
        PredIsLastOther(fs, x.cycle, i, run);
      }
    } else {
      TailClearOfPredecessor(fs, x, gap, run);
    }
  }

  /** ScanClearOfPredecessor at the last entry. */
  lemma TailClearOfPredecessor(fs: seq<Frame>, x: Frame, gap: real, run: Option<nat>)
    requires 2 <= |fs| && RunOk(fs, x.cycle, |fs| - 1, run)
    ensures ClearOfPredecessor(fs, x, gap, ScanFrom(Intended, fs, x, gap, |fs| - 1, run))
  {
    var i := |fs| - 1;
    PredIsLastOther(fs, x.cycle, i, run);
    if fs[i].cycle == x.cycle {
      assert LastOther(fs, x.cycle, |fs|) == LastOther(fs, x.cycle, i);
    } else {
      assert LastOther(fs, x.cycle, |fs|) == Some(i);
    }
  }

  /**
   * With the intended predecessor rule, the new entry begins at the later of
   * its requested begin and the end (plus gap) of the nearest preceding entry
   * of another cycle, and unchanged when there is none. In particular it never
   * begins earlier, and entries of its own cycle never push it back.
   */
  lemma {:induction false} PlaceClearOfPredecessor(fs: seq<Frame>, x: Frame, gap: real)
    ensures ClearOfPredecessor(fs, x, gap, Place(Intended, fs, x, gap))
  {
    if |fs| == 1 {
      assert LastOther(fs, x.cycle, 0) == None;
    } else if |fs| >= 2 {
      ScanClearOfPredecessor(fs, x, gap, 0, None);
    }
  }

  /**
   * Every shift, under any of the predecessor rules, sets the begin time to
   * the end (plus gap) of some earlier entry.
   */
  lemma {:induction false} ScanShiftSource(rule: PredRule, fs: seq<Frame>, x: Frame, gap: real, i: nat, run: Option<nat>)
    requires 2 <= |fs| && i < |fs| && RunOk(fs, x.cycle, i, run)
    ensures var p := ScanFrom(rule, fs, x, gap, i, run);
            p.begin == x.begin || exists j :: 0 <= j < p.index && p.begin == End(fs[j], gap)
    decreases |fs| - i
  {
    if i < |fs| - 1 {
      var run' := if fs[i].cycle == x.cycle then (if run.None? then Some(i) else run) else None;
      if fs[i].cycle == x.cycle || Fit(rule, fs, x, gap, i, run, 0.0).None? {
        ScanShiftSource(rule, fs, x, gap, i + 1, run');
      }
    } else {
      TailShiftSource(rule, fs, x, gap, run);
    }
  }

  /** ScanShiftSource at the last entry. */
  lemma TailShiftSource(rule: PredRule, fs: seq<Frame>, x: Frame, gap: real, run: Option<nat>)
    requires 2 <= |fs| && RunOk(fs, x.cycle, |fs| - 1, run)
    ensures var p := ScanFrom(rule, fs, x, gap, |fs| - 1, run);
            p.begin == x.begin || exists j :: 0 <= j < p.index && p.begin == End(fs[j], gap)
  {
    var i := |fs| - 1;
    var p := ScanFrom(rule, fs, x, gap, i, run);
    if fs[i].cycle == x.cycle {
      match Pred(rule, run, i)
      case None =>
      case Some(q) =>
        if p.begin != x.begin {
          assert p.begin == End(fs[q], gap);
        }
    } else {
      if Fit(rule, fs, x, gap, i, run, gap).None? && p.begin != x.begin {
        assert p.begin == End(fs[i], gap);
      }
    }
  }

  lemma {:induction false} ScanBeforeSuccessor(rule: PredRule, fs: seq<Frame>, x: Frame, gap: real, i: nat, run: Option<nat>)
    requires 2 <= |fs| && i < |fs| && RunOk(fs, x.cycle, i, run) && gap >= 0.0
    ensures var p := ScanFrom(rule, fs, x, gap, i, run);
            p.index < |fs| ==>
              fs[p.index].cycle != x.cycle && p.begin + x.length < fs[p.index].begin &&
              (p.begin == x.begin ==> fs[p.index].begin > End(x, gap))
    decreases |fs| - i
  {
    if i < |fs| - 1 {
      var run' := if fs[i].cycle == x.cycle then (if run.None? then Some(i) else run) else None;
      if fs[i].cycle == x.cycle || Fit(rule, fs, x, gap, i, run, 0.0).None? {
        ScanBeforeSuccessor(rule, fs, x, gap, i + 1, run');
      }
    } else {
      TailBeforeSuccessor(rule, fs, x, gap, run);
    }
  }

  /** ScanBeforeSuccessor at the last entry. */
  lemma TailBeforeSuccessor(rule: PredRule, fs: seq<Frame>, x: Frame, gap: real, run: Option<nat>)
    requires 2 <= |fs| && RunOk(fs, x.cycle, |fs| - 1, run) && gap >= 0.0
    ensures var p := ScanFrom(rule, fs, x, gap, |fs| - 1, run);
            p.index < |fs| ==>
              fs[p.index].cycle != x.cycle && p.begin + x.length < fs[p.index].begin &&
              (p.begin == x.begin ==> fs[p.index].begin > End(x, gap))
  {
  }

  /**
   * When the new entry is linked in front of an existing entry, that entry
   * belongs to another cycle and begins after the new slot ends; if the new
   * entry was not moved, it begins even after the new slot's end plus gap.
   */
  lemma {:induction false} PlaceBeforeSuccessor(rule: PredRule, fs: seq<Frame>, x: Frame, gap: real)
    requires gap >= 0.0
    ensures var p := Place(rule, fs, x, gap);
            p.index < |fs| ==>
              fs[p.index].cycle != x.cycle && p.begin + x.length < fs[p.index].begin &&
              (p.begin == x.begin ==> fs[p.index].begin > End(x, gap))
  {
    if |fs| >= 2 {
      ScanBeforeSuccessor(rule, fs, x, gap, 0, None);
    }
  }

  /** Every shift sets the begin time to the end plus gap of an entry before the insertion point. */
  lemma {:induction false} PlaceShiftSource(rule: PredRule, fs: seq<Frame>, x: Frame, gap: real)
    ensures var p := Place(rule, fs, x, gap);
            p.begin == x.begin || exists j :: 0 <= j < p.index && p.begin == End(fs[j], gap)
  {
    if |fs| >= 2 {
      ScanShiftSource(rule, fs, x, gap, 0, None);
    } else if |fs| == 1 {
      var p := Place(rule, fs, x, gap);
      if p.begin != x.begin {
        assert p.begin == End(fs[0], gap);
      }
    }
  }

  /** The three outcomes for a calendar holding a single entry. */
  lemma PlaceSingle(rule: PredRule, f: Frame, x: Frame, gap: real)
    ensures var p := Place(rule, [f], x, gap);
            (f.cycle == x.cycle ==> p == Placement(1, x.begin)) &&
            (f.cycle != x.cycle && f.begin > End(x, gap) ==> p == Placement(0, x.begin)) &&
            (f.cycle != x.cycle && f.begin <= End(x, gap) ==>
               p == Placement(1, Later(x.begin, End(f, gap))))
  {
  }

  /** Frames used to exhibit the workstation's head test: an entry of cycle "a", one of "c", one of "b". */
  function HeadRunFrames(): seq<Frame> {
    [Frame("a", 0.0, 10.0), Frame("c", 0.0, 1.0), Frame("b", 100.0, 10.0)]
  }

  /**
   * As written, the workstation takes the run of cycle "c" that starts right
   * after the head for a run at the head: the new slot of cycle "c" keeps its
   * begin 5.0 although the head (cycle "a") occupies the calendar up to 15.0
   * including the rotating time. The intended rule moves it to 15.0.
   */
  lemma WorkstationHeadRunOverlap()
    ensures var fs := HeadRunFrames();
            var x := Frame("c", 5.0, 10.0);
            Place(WorkstationAsWritten, fs, x, 5.0) == Placement(2, 5.0) &&
            LastOther(fs, "c", 2) == Some(0) && End(fs[0], 5.0) == 15.0 &&
            Place(Intended, fs, x, 5.0) == Placement(2, 15.0)
  {
    var fs := HeadRunFrames();
    var x := Frame("c", 5.0, 10.0);
    assert RunOk(fs, "c", 1, None);
    assert RunOk(fs, "c", 2, Some(1));
    assert ScanFrom(WorkstationAsWritten, fs, x, 5.0, 1, None) == ScanFrom(WorkstationAsWritten, fs, x, 5.0, 2, Some(1));
    assert ScanFrom(Intended, fs, x, 5.0, 1, None) == ScanFrom(Intended, fs, x, 5.0, 2, Some(1));
    assert LastOther(fs, "c", 1) == Some(0);
  }

  /** Frames used to exhibit the employee's copied head: a run of cycle "c" at the head. */
  function OwnCycleHeadFrames(): seq<Frame> {
    [Frame("c", 0.0, 50.0), Frame("b", 100.0, 10.0), Frame("d", 200.0, 1.0)]
  }

  /**
   * As written, the employee calendar computes the shift from the head even
   * when the head belongs to the new entry's own cycle: the new slot of
   * cycle "c" asked for 10.0 is moved to 50.0, the end of that same-cycle
   * entry. The intended rule leaves it at 10.0.
   */
  lemma EmployeeOwnCycleShift()
    ensures var fs := OwnCycleHeadFrames();
            var x := Frame("c", 10.0, 5.0);
            Place(EmployeeAsWritten, fs, x, 0.0) == Placement(1, 50.0) &&
            fs[0].cycle == x.cycle && LastOther(fs, "c", 1) == None &&
            Place(Intended, fs, x, 0.0) == Placement(1, 10.0)
  {
    var fs := OwnCycleHeadFrames();
    var x := Frame("c", 10.0, 5.0);
    assert RunOk(fs, "c", 1, Some(0));
    assert ScanFrom(EmployeeAsWritten, fs, x, 0.0, 0, None) == ScanFrom(EmployeeAsWritten, fs, x, 0.0, 1, Some(0));
    assert ScanFrom(Intended, fs, x, 0.0, 0, None) == ScanFrom(Intended, fs, x, 0.0, 1, Some(0));
  }
}
