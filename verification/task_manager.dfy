/**
 * The task orchestrator (CPPS/cpps_task/cpps_task_manager.py): the task
 * manager's sliding windows of reference values, its pick of the next task
 * and its list of blocked containers, and the task agent's choice of the
 * best offer, its walk through the priority graph, the precondition test
 * of a successor, the reject list it sends with a booking and the deadline
 * it checks before sleeping.
 *
 * The database, MQTT, HTTP, the configuration file, the clock and the
 * random draws are left out or passed in as parameters; `round(v, 3)` is
 * the parameter `round3`.
 */
module CppsTaskManager {
  import opened Wrappers
  import opened Selection

  // ---------------------------------------------------------------------
  // Reference windows
  // ---------------------------------------------------------------------

  /** The sum of a window (Python's `sum`). */
  function Sum(w: seq<real>): real
    decreases |w|
  {
    if w == [] then 0.0 else Sum(w[..|w| - 1]) + w[|w| - 1]
  }

  lemma SumSnoc(a: seq<real>, v: real)
    ensures Sum(a + [v]) == Sum(a) + v
  {
    assert (a + [v])[..|a|] == a;
  }

  /** Summing from the front gives the same total. */
  lemma {:induction false} SumFront(w: seq<real>)
    requires |w| > 0
    ensures Sum(w) == w[0] + Sum(w[1..])
    decreases |w|
  {
    var n := |w| - 1;
    if n == 0 {
      assert w[..n] == [] && w[1..] == [];
    } else {
      SumFront(w[..n]);
      assert w[..n][1..] == w[1..][..n - 1];
      assert w[1..][n - 1] == w[n];
    }
  }

  /** The mean of a non-empty window. */
  function Average(w: seq<real>): real
    requires |w| > 0
  {
    Sum(w) / (|w| as real)
  }

  /**
   * `get_average_*`: the mean of the operation's window; an unknown
   * operation raises KeyError, and an empty window divides by zero.
   */
  function WindowAverage(ws: map<string, seq<real>>, op: string): (r: Result<real, string>)
    ensures r.Ok? <==> op in ws && |ws[op]| > 0
    ensures op !in ws ==> r == Err("KeyError")
    ensures op in ws && |ws[op]| == 0 ==> r == Err("ZeroDivisionError")
    ensures r.Ok? ==> r.value * (|ws[op]| as real) == Sum(ws[op])
  {
    if op !in ws then Err("KeyError")
    else if |ws[op]| == 0 then Err("ZeroDivisionError")
    else Ok(Average(ws[op]))
  }

  /** A window of `param` copies of the initial value, as `_initialize` builds it. */
  function Filled(v: real, param: nat): (w: seq<real>)
    ensures |w| == param && forall i :: 0 <= i < param ==> w[i] == v
  {
    seq(param, _ => v)
  }

  lemma {:induction false} SumFilled(v: real, param: nat)
    ensures Sum(Filled(v, param)) == (param as real) * v
  {
    if param > 0 {
      assert Filled(v, param)[..param - 1] == Filled(v, param - 1);
      SumFilled(v, param - 1);
    }
  }

  /**
   * A freshly filled window averages to its initial value, so the first
   * reviews and the first remaining-time estimate use the configured values.
   */
  lemma AverageOfFilled(v: real, param: nat)
    requires param > 0
    ensures Average(Filled(v, param)) == v
  {
    SumFilled(v, param);
    var p := param as real;
    assert Sum(Filled(v, param)) == p * v;
    assert (p * v) / p == v;
  }

  /** The reference windows `_initialize` builds from the configured initial values. */
  function InitialWindows(init: map<string, real>, param: nat): (ws: map<string, seq<real>>)
    ensures ws.Keys == init.Keys
    ensures forall op :: op in init ==> ws[op] == Filled(init[op], param)
  {
    map op | op in init :: Filled(init[op], param)
  }

  /** Every operation of a fresh window map averages to its configured value. */
  lemma InitialAverages(init: map<string, real>, param: nat, op: string)
    requires param > 0 && op in init
    ensures op in InitialWindows(init, param)
    ensures Average(InitialWindows(init, param)[op]) == init[op]
  {
    AverageOfFilled(init[op], param);
  }

  /** `update_reference_*`: drop the oldest value and append the newest. */
  function Slid(w: seq<real>, v: real): (r: seq<real>)
    requires |w| > 0
    ensures |r| == |w|
  {
    w[1..] + [v]
  }

  /**
   * Sliding moves the mean by (newest − oldest) / length: a window keeps
   * its length, and the review of later offers is measured against the
   * average of the last `param` winners.
   */
  lemma AverageAfterSlide(w: seq<real>, v: real)
    requires |w| > 0
    ensures Average(Slid(w, v)) == Average(w) + (v - w[0]) / (|w| as real)
  {
    SumFront(w);
    SumSnoc(w[1..], v);
    var n := |w| as real;
    assert Sum(Slid(w, v)) == Sum(w) - w[0] + v;
    assert (Sum(w) - w[0] + v) / n == Sum(w) / n + (v - w[0]) / n;
  }

  /** The operations all have a non-empty window. */
  predicate Known(ws: map<string, seq<real>>, ops: seq<string>) {
    forall i :: 0 <= i < |ops| ==> ops[i] in ws && |ws[ops[i]]| > 0
  }

  /** The averages of the finished operations, added up. */
  function Spent(ws: map<string, seq<real>>, ops: seq<string>): real
    requires Known(ws, ops)
    decreases |ops|
  {
    if ops == [] then 0.0
    else
      var n := |ops| - 1;
      Spent(ws, ops[..n]) + Average(ws[ops[n]])
  }

  /**
   * What is subtracted splits over the finished list, so the remaining
   * time depends only on which operations are finished, not on their order.
   */
  lemma {:induction false} SpentAppend(ws: map<string, seq<real>>, a: seq<string>, b: seq<string>)
    requires Known(ws, a) && Known(ws, b)
    ensures Known(ws, a + b)
    ensures Spent(ws, a + b) == Spent(ws, a) + Spent(ws, b)
    decreases |b|
  {
    assert Known(ws, a + b) by {
      forall i | 0 <= i < |a + b|
        ensures (a + b)[i] in ws && |ws[(a + b)[i]]| > 0
      {
        if i >= |a| {
          assert (a + b)[i] == b[i - |a|];
        }
      }
    }
    if b == [] {
      assert a + b == a;
    } else {
      var n := |b| - 1;
      assert (a + b)[..|a + b| - 1] == a + b[..n];
      assert (a + b)[|a + b| - 1] == b[n];
      SpentAppend(ws, a, b[..n]);
    }
  }

  lemma SpentSwap(ws: map<string, seq<real>>, a: seq<string>, b: seq<string>)
    requires Known(ws, a) && Known(ws, b)
    ensures Known(ws, a + b) && Known(ws, b + a)
    ensures Spent(ws, a + b) == Spent(ws, b + a)
  {
    SpentAppend(ws, a, b);
    SpentAppend(ws, b, a);
  }

  // ---------------------------------------------------------------------
  // Lists edited with Python's `list.remove`
  // ---------------------------------------------------------------------

  /** The index of the first occurrence. */
  function Index<T(==)>(s: seq<T>, x: T): (i: nat)
    requires x in s
    ensures i < |s| && s[i] == x && x !in s[..i]
  {
    if s[0] == x then 0
    else
      assert s[1..][..Index(s[1..], x)] == s[..Index(s[1..], x) + 1][1..];
      1 + Index(s[1..], x)
  }

  /** `list.remove(x)`: the list without its first occurrence of x; unchanged when x is absent. */
  function RemovedOnce<T(==)>(s: seq<T>, x: T): (r: seq<T>)
    ensures x in s ==> |r| == |s| - 1
    ensures x !in s ==> r == s
  {
    if x in s then s[..Index(s, x)] + s[Index(s, x) + 1..] else s
  }

  /** No value twice. */
  predicate Distinct<T(==)>(s: seq<T>) {
    forall i, j :: 0 <= i < j < |s| ==> s[i] != s[j]
  }

  /** Removing from a list without repeats leaves no copy behind and no repeat. */
  lemma DistinctRemoved<T>(s: seq<T>, x: T)
    requires Distinct(s)
    ensures Distinct(RemovedOnce(s, x)) && x !in RemovedOnce(s, x)
    ensures forall y :: y in RemovedOnce(s, x) <==> y in s && y != x
  {
    if x in s {
      var i := Index(s, x);
      assert RemovedOnce(s, x) == s[..i] + s[i + 1..];
      SplicedDistinct(s, i);
      SplicedMembers(s, i);
    }
  }

  /** Cutting a position out of a list without repeats leaves no repeat and no copy of what was cut. */
  lemma SplicedDistinct<T>(s: seq<T>, i: nat)
    requires Distinct(s) && i < |s|
    ensures Distinct(s[..i] + s[i + 1..]) && s[i] !in s[..i] + s[i + 1..]
  {
    var r := s[..i] + s[i + 1..];
    Spliced(s, i);
    forall a, b | 0 <= a < b < |r| ensures r[a] != r[b] {
      assert r[a] == s[if a < i then a else a + 1];
      assert r[b] == s[if b < i then b else b + 1];
    }
    forall k | 0 <= k < |r| ensures r[k] != s[i] {
      assert r[k] == s[if k < i then k else k + 1];
    }
  }

  /** Cutting position i out keeps every other element. */
  lemma SplicedMembers<T>(s: seq<T>, i: nat)
    requires Distinct(s) && i < |s|
    ensures forall y :: y in s[..i] + s[i + 1..] <==> y in s && y != s[i]
  {
    var r := s[..i] + s[i + 1..];
    Spliced(s, i);
    forall y | y in s && y != s[i] ensures y in r {
      var k :| 0 <= k < |s| && s[k] == y;
      assert r[if k < i then k else k - 1] == y;
    }
    forall y | y in r ensures y in s && y != s[i] {
      var k :| 0 <= k < |r| && r[k] == y;
      assert s[if k < i then k else k + 1] == y;
    }
  }

  /** Cutting out position i: the elements before it stay put and the ones after move down one place. */
  lemma Spliced<T>(s: seq<T>, i: nat)
    requires i < |s|
    ensures |s[..i] + s[i + 1..]| == |s| - 1
    ensures forall k :: 0 <= k < |s| - 1 ==> (s[..i] + s[i + 1..])[k] == if k < i then s[k] else s[k + 1]
  {
  }

  // ---------------------------------------------------------------------
  // The task manager
  // ---------------------------------------------------------------------

  /** The fields of a stored task `run` reads. */
  datatype TaskRecord = TaskRecord(taskId: int, state: string)

  predicate Startable(t: TaskRecord) {
    t.state == "open" || t.state == "restart"
  }

  /** The task ids `run` compares, None for the tasks it skips. */
  function StartableIds(ts: seq<TaskRecord>): (ids: seq<Option<real>>)
    ensures |ids| == |ts|
    ensures forall m :: 0 <= m < |ts| ==>
              ids[m] == if Startable(ts[m]) then Some(ts[m].taskId as real) else None
  {
    seq(|ts|, m requires 0 <= m < |ts| => if Startable(ts[m]) then Some(ts[m].taskId as real) else None)
  }

  /** The index of the first draw that is not blocked yet, from `from` on. */
  function FirstFree(draws: seq<int>, blocked: seq<int>, from: nat): (k: Option<nat>)
    ensures k.None? <==> forall j :: from <= j < |draws| ==> draws[j] in blocked
    ensures k.Some? ==>
              from <= k.value < |draws| && draws[k.value] !in blocked &&
              forall j :: from <= j < k.value ==> draws[j] in blocked
    decreases |draws| - from
  {
    if from >= |draws| then None
    else if draws[from] !in blocked then Some(from)
    else FirstFree(draws, blocked, from + 1)
  }

  /**
   * `restore_free_klt` as written: `list.remove` raises ValueError for an
   * address that is not blocked, and the handler only catches KeyError, so
   * the exception leaves the method instead of a False.
   */
  function RestoreAsWritten(blocked: seq<int>, phyaddr: int): (r: Result<seq<int>, string>)
    ensures r.Ok? <==> phyaddr in blocked
    ensures r.Ok? ==> r.value == RemovedOnce(blocked, phyaddr)
  {
    if phyaddr in blocked then Ok(RemovedOnce(blocked, phyaddr)) else Err("ValueError")
  }

  /** An address that is not blocked makes `restore_free_klt` raise rather than return False. */
  lemma RestoreUnblockedRaises()
    ensures RestoreAsWritten([21], 22) == Err("ValueError")
    ensures RestoreAsWritten([], 20).Err?
  {
  }

  class TaskManager {
    var referenceTurningTime: map<string, seq<real>>
    var referenceReview: map<string, seq<real>>
    var blockedKltList: seq<int>

    /** `_initialize` with both init flags set: every operation's window holds `param` copies. */
    constructor (turningInit: map<string, real>, turningParam: nat,
                 reviewInit: map<string, real>, reviewParam: nat)
      ensures referenceTurningTime == InitialWindows(turningInit, turningParam)
      ensures referenceReview == InitialWindows(reviewInit, reviewParam)
      ensures blockedKltList == []
    {
      referenceTurningTime := InitialWindows(turningInit, turningParam);
      referenceReview := InitialWindows(reviewInit, reviewParam);
      blockedKltList := [];
    }

    /** `get_average_turning_time`. */
    function AverageTurningTime(op: string): Result<real, string>
      reads this
    {
      WindowAverage(referenceTurningTime, op)
    }

    /** `get_average_review`. */
    function AverageReview(op: string): Result<real, string>
      reads this
    {
      WindowAverage(referenceReview, op)
    }

    /** `update_reference_turning_time`: the window of `op` slides by the rounded new value. */
    method UpdateReferenceTurningTime(op: string, newTurningTime: real, round3: real -> real) returns (error: Option<string>)
      modifies this
      ensures op !in old(referenceTurningTime) ==> error == Some("KeyError")
      ensures op in old(referenceTurningTime) && |old(referenceTurningTime)[op]| == 0 ==> error == Some("IndexError")
      ensures error.None? <==> op in old(referenceTurningTime) && |old(referenceTurningTime)[op]| > 0
      ensures error.Some? ==> referenceTurningTime == old(referenceTurningTime)
      ensures error.None? ==>
                referenceTurningTime == old(referenceTurningTime)[op := Slid(old(referenceTurningTime)[op], round3(newTurningTime))]
      ensures referenceReview == old(referenceReview) && blockedKltList == old(blockedKltList)
    {
      if op !in referenceTurningTime {
        return Some("KeyError");
      }
      var values := referenceTurningTime[op];
      if |values| == 0 {
        return Some("IndexError");
      }
      values := values[1..];
      values := values + [round3(newTurningTime)];
      referenceTurningTime := referenceTurningTime[op := values];
      error := None;
    }

    /** `update_reference_review`. */
    method UpdateReferenceReview(op: string, newReview: real, round3: real -> real) returns (error: Option<string>)
      modifies this
      ensures op !in old(referenceReview) ==> error == Some("KeyError")
      ensures op in old(referenceReview) && |old(referenceReview)[op]| == 0 ==> error == Some("IndexError")
      ensures error.None? <==> op in old(referenceReview) && |old(referenceReview)[op]| > 0
      ensures error.Some? ==> referenceReview == old(referenceReview)
      ensures error.None? ==>
                referenceReview == old(referenceReview)[op := Slid(old(referenceReview)[op], round3(newReview))]
      ensures referenceTurningTime == old(referenceTurningTime) && blockedKltList == old(blockedKltList)
    {
      if op !in referenceReview {
        return Some("KeyError");
      }
      var values := referenceReview[op];
      if |values| == 0 {
        return Some("IndexError");
      }
      values := values[1..];
      values := values + [round3(newReview)];
      referenceReview := referenceReview[op := values];
      error := None;
    }

    /**
     * `get_reference_turning_time_remaining`: the given total minus the
     * average turning time of every finished operation; the first finished
     * operation without a usable window raises its error.
     */
    method ReferenceTurningTimeRemaining(finishedOperations: seq<string>, averageTurningTime: real)
      returns (r: Result<real, string>)
      ensures r.Ok? <==> Known(referenceTurningTime, finishedOperations)
      ensures r.Ok? ==> r.value == averageTurningTime - Spent(referenceTurningTime, finishedOperations)
      ensures r.Err? ==>
                exists i :: 0 <= i < |finishedOperations| && Known(referenceTurningTime, finishedOperations[..i]) &&
                            WindowAverage(referenceTurningTime, finishedOperations[i]) == Err(r.error)
    {
      var result := averageTurningTime;
      var i := 0;
      while i < |finishedOperations|
        invariant 0 <= i <= |finishedOperations|
        invariant Known(referenceTurningTime, finishedOperations[..i])
        invariant result == averageTurningTime - Spent(referenceTurningTime, finishedOperations[..i])
      {
        assert finishedOperations[..i + 1][..i] == finishedOperations[..i];
        var average := AverageTurningTime(finishedOperations[i]);
        if average.Err? {
          return Err(average.error);
        }
        result := result - average.value;
        i := i + 1;
      }
      assert finishedOperations[..i] == finishedOperations;
      r := Ok(result);
    }

    /**
     * `reserve_free_klt`: up to twenty draws from 20..23; the first one not
     * blocked yet is blocked and returned, and 99 when all twenty are taken.
     */
    method ReserveFreeKlt(draws: seq<int>) returns (phyaddr: int)
      requires |draws| == 20 && forall j :: 0 <= j < |draws| ==> 20 <= draws[j] < 24
      modifies this
      ensures match FirstFree(draws, old(blockedKltList), 0)
              case None => phyaddr == 99 && blockedKltList == old(blockedKltList)
              case Some(k) => phyaddr == draws[k] && blockedKltList == old(blockedKltList) + [phyaddr]
      ensures phyaddr == 99 || (20 <= phyaddr < 24 && phyaddr !in old(blockedKltList))
      ensures Distinct(old(blockedKltList)) ==> Distinct(blockedKltList)
      ensures referenceTurningTime == old(referenceTurningTime) && referenceReview == old(referenceReview)
    {
      var attempts := 0;
      while attempts < 20
        invariant 0 <= attempts <= 20
        invariant blockedKltList == old(blockedKltList)
        invariant FirstFree(draws, blockedKltList, 0) == FirstFree(draws, blockedKltList, attempts)
      {
        phyaddr := draws[attempts];
        if phyaddr !in blockedKltList {
          blockedKltList := blockedKltList + [phyaddr];
          return;
        }
        attempts := attempts + 1;
      }
      return 99;
    }

    /**
     * `restore_free_klt` as evidently intended: a blocked address is
     * released and True returned; any other address gives False and
     * changes nothing.
     */
    method RestoreFreeKlt(phyaddr: int) returns (restored: bool)
      modifies this
      ensures restored <==> phyaddr in old(blockedKltList)
      ensures blockedKltList == RemovedOnce(old(blockedKltList), phyaddr)
      ensures restored ==> RestoreAsWritten(old(blockedKltList), phyaddr) == Ok(blockedKltList)
      ensures Distinct(old(blockedKltList)) ==>
                Distinct(blockedKltList) && phyaddr !in blockedKltList &&
                forall a :: a in blockedKltList <==> a in old(blockedKltList) && a != phyaddr
      ensures referenceTurningTime == old(referenceTurningTime) && referenceReview == old(referenceReview)
    {
      if Distinct(blockedKltList) {
        DistinctRemoved(blockedKltList, phyaddr);
      }
      if phyaddr in blockedKltList {
        blockedKltList := RemovedOnce(blockedKltList, phyaddr);
        restored := true;
      } else {
        restored := false;
      }
    }
  }

  /**
   * The pick of `run`: among the tasks in state open or restart, the one
   * with the smallest task id, the first of them on a tie; None when there
   * is none.
   */
  method NextTask(tasks: seq<TaskRecord>) returns (next: Option<TaskRecord>)
    ensures next.None? <==> forall m :: 0 <= m < |tasks| ==> !Startable(tasks[m])
    ensures next.Some? ==>
              next.value in tasks && Startable(next.value) &&
              forall m :: 0 <= m < |tasks| && Startable(tasks[m]) ==> next.value.taskId <= tasks[m].taskId
    ensures next == match FirstMinOf(StartableIds(tasks)) case None => None case Some(k) => Some(tasks[k])
  {
    next := None;
    ghost var ids := StartableIds(tasks);
    ghost var bi: Option<nat> := None;
    var i := 0;
    while i < |tasks|
      invariant 0 <= i <= |tasks|
      invariant bi == FirstMinOf(ids[..i])
      invariant next == match bi case None => None case Some(k) => Some(tasks[k])
    {
      FirstMinOfStep(ids, i);
      var t := tasks[i];
      if t.state == "open" || t.state == "restart" {
        if next.None? {
          next := Some(t);
          bi := Some(i);
        } else if next.value.taskId > t.taskId {
          next := Some(t);
          bi := Some(i);
        }
      }
      i := i + 1;
    }
    assert ids[..i] == ids;
  }

  // ---------------------------------------------------------------------
  // The task agent
  // ---------------------------------------------------------------------

  /** A node of the priority graph, keyed by its node id. */
  datatype Node = Node(operation: string, state: int, successor: seq<string>, preconditions: seq<string>)

  /** The fields of a workstation gateway offer the agent reads. */
  datatype AgentOffer = AgentOffer(
    valuationResult: Option<real>, idLaborProcess: string, workstationId: string, target: string,
    throughputTimeJ: real, startTime: real, skillTime: real)

  /**
   * The review result of one offer: None without a valuation; otherwise the
   * valuation over the average review of its operation, where `get_average_review`
   * raises for an unknown operation or an empty window and a zero mean
   * divides by zero.
   */
  function ReviewOf(o: AgentOffer, review: map<string, seq<real>>): (r: Result<Option<real>, string>)
    ensures o.valuationResult.None? ==> r == Ok(None)
    ensures o.valuationResult.Some? ==>
              (r.Ok? <==> o.idLaborProcess in review && |review[o.idLaborProcess]| > 0 &&
                          Average(review[o.idLaborProcess]) != 0.0)
    ensures o.valuationResult.Some? && r.Ok? ==>
              r.value == Some(o.valuationResult.value / Average(review[o.idLaborProcess]))
    ensures r.Err? ==> r.error == if o.idLaborProcess !in review then "KeyError" else "ZeroDivisionError"
  {
    match o.valuationResult
    case None => Ok(None)
    case Some(v) =>
      match WindowAverage(review, o.idLaborProcess)
      case Err(e) => Err(e)
      case Ok(a) => if a == 0.0 then Err("ZeroDivisionError") else Ok(Some(v / a))
  }

  /** Every offer with a valuation can be reviewed: its operation has a window with a non-zero mean. */
  predicate Reviewable(offers: seq<AgentOffer>, review: map<string, seq<real>>) {
    forall i :: 0 <= i < |offers| && offers[i].valuationResult.Some? ==>
      offers[i].idLaborProcess in review && |review[offers[i].idLaborProcess]| > 0 &&
      Average(review[offers[i].idLaborProcess]) != 0.0
  }

  /** The review results `_decision_finding` compares, None for an offer without a valuation. */
  function Reviews(offers: seq<AgentOffer>, review: map<string, seq<real>>): (rs: seq<Option<real>>)
    requires Reviewable(offers, review)
    ensures |rs| == |offers|
    ensures forall i :: 0 <= i < |offers| ==>
              rs[i] == match offers[i].valuationResult
                       case None => None
                       case Some(v) => Some(v / Average(review[offers[i].idLaborProcess]))
  {
    seq(|offers|, i requires 0 <= i < |offers| && Reviewable(offers, review) =>
      match offers[i].valuationResult
      case None => None
      case Some(v) => Some(v / Average(review[offers[i].idLaborProcess])))
  }

  /** Offers that can each be reviewed are reviewable, and their review results are `Reviews`. */
  lemma ReviewsOfEach(offers: seq<AgentOffer>, review: map<string, seq<real>>, rs: seq<Option<real>>)
    requires forall m :: 0 <= m < |offers| ==> ReviewOf(offers[m], review).Ok?
    requires |rs| == |offers| && forall m :: 0 <= m < |offers| ==> rs[m] == ReviewOf(offers[m], review).value
    ensures Reviewable(offers, review) && rs == Reviews(offers, review)
  {
  }

  /** One offer that cannot be reviewed makes the whole list unreviewable. */
  lemma ReviewBlocks(offers: seq<AgentOffer>, review: map<string, seq<real>>, i: nat)
    requires i < |offers| && ReviewOf(offers[i], review).Err?
    ensures !Reviewable(offers, review)
  {
  }

  /**
   * The decision `_decision_finding` takes: the offer with the smallest
   * review result, the first on a tie; None (the agent fails) when no offer
   * has a valuation or the chosen one carries the 999 of a failed
   * harmonisation.
   */
  function Decision(offers: seq<AgentOffer>, review: map<string, seq<real>>): (d: Option<nat>)
    requires Reviewable(offers, review)
    ensures offers == [] ==> d.None?
    ensures d.Some? ==>
              d.value < |offers| && offers[d.value].valuationResult.Some? &&
              offers[d.value].valuationResult.value != 999.0 &&
              (forall m :: 0 <= m < |offers| && offers[m].valuationResult.Some? ==>
                 Reviews(offers, review)[d.value].value <= Reviews(offers, review)[m].value) &&
              (forall m :: 0 <= m < d.value && offers[m].valuationResult.Some? ==>
                 Reviews(offers, review)[d.value].value < Reviews(offers, review)[m].value)
    ensures d.None? <==>
              (forall m :: 0 <= m < |offers| ==> offers[m].valuationResult.None?) ||
              offers[FirstMinOf(Reviews(offers, review)).value].valuationResult == Some(999.0)
  {
    match FirstMinOf(Reviews(offers, review))
    case None => None
    case Some(k) => if offers[k].valuationResult.value == 999.0 then None else Some(k)
  }

  /** `_is_finished` reads this: the end node's state is not 0. */
  predicate Finished(nodes: map<string, Node>, endNode: string) {
    endNode in nodes && nodes[endNode].state != 0
  }

  /** The first selected node whose operation is `op`, from `from` on. */
  function FirstOfOperation(nodes: map<string, Node>, selected: seq<string>, op: string, from: nat): (k: Option<nat>)
    requires forall i :: 0 <= i < |selected| ==> selected[i] in nodes
    ensures k.None? <==> forall j :: from <= j < |selected| ==> nodes[selected[j]].operation != op
    ensures k.Some? ==>
              from <= k.value < |selected| && nodes[selected[k.value]].operation == op &&
              forall j :: from <= j < k.value ==> nodes[selected[j]].operation != op
    decreases |selected| - from
  {
    if from >= |selected| then None
    else if nodes[selected[from]].operation == op then Some(from)
    else FirstOfOperation(nodes, selected, op, from + 1)
  }

  /** `list(set(s))`: each value once. The order Python gives it is not modelled. */
  function Deduplicated(s: seq<string>): (r: seq<string>)
    ensures Distinct(r)
    ensures forall x :: x in r <==> x in s
    decreases |s|
  {
    if s == [] then []
    else
      var rest := Deduplicated(s[..|s| - 1]);
      assert forall x :: x in s <==> x in s[..|s| - 1] || x == s[|s| - 1];
      if s[|s| - 1] in rest then rest else rest + [s[|s| - 1]]
  }

  /**
   * The reject-list loop of `stage_2` as written: iterating over the list
   * while `list.remove` deletes from it, so the element right after a
   * removed one is never looked at. `i` is the iterator's position.
   */
  function Pruned(rs: seq<(string, string)>, w: (string, string), i: nat): seq<(string, string)>
    decreases |rs| - i
  {
    if i >= |rs| then rs
    else if rs[i] == w then Pruned(RemovedOnce(rs, w), w, i + 1)
    else Pruned(rs, w, i + 1)
  }

  /** The entries that are not the winner's pair, in order. */
  function Others(rs: seq<(string, string)>, w: (string, string)): seq<(string, string)>
    decreases |rs|
  {
    if rs == [] then []
    else Others(rs[..|rs| - 1], w) + if rs[|rs| - 1] == w then [] else [rs[|rs| - 1]]
  }

  lemma {:induction false} OthersConcat(a: seq<(string, string)>, b: seq<(string, string)>, w: (string, string))
    ensures Others(a + b, w) == Others(a, w) + Others(b, w)
    decreases |b|
  {
    if b == [] {
      assert a + b == a;
    } else {
      var n := |b| - 1;
      assert (a + b)[..|a + b| - 1] == a + b[..n];
      OthersConcat(a, b[..n], w);
    }
  }

  lemma OthersRemoved(rs: seq<(string, string)>, w: (string, string))
    ensures Others(RemovedOnce(rs, w), w) == Others(rs, w)
  {
    if w in rs {
      var i := Index(rs, w);
      var pre, post := rs[..i], rs[i + 1..];
      assert rs == (pre + [w]) + post;
      assert RemovedOnce(rs, w) == pre + post;
      OthersConcat(pre + [w], post, w);
      OthersConcat(pre, [w], w);
      assert Others([w], w) == [] by {
        assert [w][..0] == [];
      }
      OthersConcat(pre, post, w);
    }
  }

  /** The pruning never loses or reorders a reject of another workstation or operation. */
  lemma {:induction false} PrunedKeepsOthers(rs: seq<(string, string)>, w: (string, string), i: nat)
    ensures Others(Pruned(rs, w, i), w) == Others(rs, w)
    decreases |rs| - i
  {
    if i < |rs| {
      if rs[i] == w {
        OthersRemoved(rs, w);
        PrunedKeepsOthers(RemovedOnce(rs, w), w, i + 1);
      } else {
        PrunedKeepsOthers(rs, w, i + 1);
      }
    }
  }

  lemma {:induction false} PrunedAbsent(rs: seq<(string, string)>, w: (string, string), i: nat)
    requires w !in rs
    ensures Pruned(rs, w, i) == rs
    decreases |rs| - i
  {
    if i < |rs| {
      PrunedAbsent(rs, w, i + 1);
    }
  }

  /** With the winner's pair in the list at most once, the pruned list no longer holds it. */
  lemma {:induction false} PrunedRemovesSingle(rs: seq<(string, string)>, w: (string, string), i: nat)
    requires i <= |rs| && w !in rs[..i]
    requires forall j, k :: i <= j < k < |rs| ==> !(rs[j] == w && rs[k] == w)
    ensures w !in Pruned(rs, w, i)
    decreases |rs| - i
  {
    if i == |rs| {
      assert rs[..i] == rs;
    } else if rs[i] == w {
      var r := RemovedOnce(rs, w);
      PrunedAbsent(r, w, i + 1);
    } else {
      assert rs[..i + 1] == rs[..i] + [rs[i]];
      PrunedRemovesSingle(rs, w, i + 1);
    }
  }

  /** As written, a second copy right behind the first survives the pruning. */
  lemma PrunedKeepsAdjacentCopy(w: (string, string))
    ensures Pruned([w, w], w, 0) == [w]
  {
    assert RemovedOnce([w, w], w) == [w] by {
      assert Index([w, w], w) == 0;
    }
  }

  /** The task agent of one task: its priority graph, its failure flag and its timing. */
  class TaskAgent {
    const manager: TaskManager
    var nodes: map<string, Node>
    var startNode: string
    const endNode: string
    var finishedNodes: seq<string>
    var priorityGraphIndex: int
    var nextCompletionTime: real
    var failed: bool

    /** Every finished node is in the graph with state 1. */
    predicate FinishedDone()
      reads this
    {
      forall n :: n in finishedNodes ==> n in nodes && nodes[n].state == 1
    }

    /** A new agent with the priority graph loaded from the configuration. */
    constructor (manager: TaskManager, nodes: map<string, Node>, startNode: string, endNode: string,
                 finishedNodes: seq<string>)
      ensures this.manager == manager && this.nodes == nodes && this.startNode == startNode
      ensures this.endNode == endNode && this.finishedNodes == finishedNodes
      ensures priorityGraphIndex == 1 && nextCompletionTime == 0.0 && !failed
    {
      this.manager := manager;
      this.nodes := nodes;
      this.startNode := startNode;
      this.endNode := endNode;
      this.finishedNodes := finishedNodes;
      priorityGraphIndex := 1;
      nextCompletionTime := 0.0;
      failed := false;
    }

    /**
     * The scan of `_decision_finding`: the first offer with the lowest
     * review result (valuation over the operation's average review). The
     * first offer that cannot be reviewed raises its error.
     */
    method LowestReview(offers: seq<AgentOffer>) returns (r: Result<Option<nat>, string>)
      ensures r.Ok? <==> Reviewable(offers, manager.referenceReview)
      ensures r.Ok? ==> r.value == FirstMinOf(Reviews(offers, manager.referenceReview))
      ensures r.Err? ==>
                exists i :: 0 <= i < |offers| && ReviewOf(offers[i], manager.referenceReview) == Err(r.error) &&
                            forall m :: 0 <= m < i ==> ReviewOf(offers[m], manager.referenceReview).Ok?
    {
      ghost var review := manager.referenceReview;
      ghost var rs: seq<Option<real>> := [];
      var bestIndex: Option<nat> := None;
      var bestReview := 0.0;
      var i := 0;
      while i < |offers|
        invariant 0 <= i <= |offers|
        invariant forall m :: 0 <= m < i ==> ReviewOf(offers[m], review).Ok?
        invariant |rs| == i && forall m :: 0 <= m < i ==> rs[m] == ReviewOf(offers[m], review).value
        invariant bestIndex == FirstMinOf(rs)
        invariant bestIndex.Some? ==> bestIndex.value < i && rs[bestIndex.value] == Some(bestReview)
      {
        var offer := offers[i];
        var next: Option<real> := None;
        if offer.valuationResult.Some? {
          var average := manager.AverageReview(offer.idLaborProcess);
          if average.Err? {
            assert ReviewOf(offer, review) == Err(average.error);
            ReviewBlocks(offers, review, i);
            return Err(average.error);
          }
          if average.value == 0.0 {
            assert ReviewOf(offer, review) == Err("ZeroDivisionError");
            ReviewBlocks(offers, review, i);
            return Err("ZeroDivisionError");
          }
          var reviewResult := offer.valuationResult.value / average.value;
          next := Some(reviewResult);
          if bestIndex.None? || bestReview > reviewResult {
            bestIndex := Some(i);
            bestReview := reviewResult;
          }
        }
        assert ReviewOf(offer, review) == Ok(next);
        FirstMinOfSnoc(rs, next);
        rs := rs + [next];
        i := i + 1;
      }
      ReviewsOfEach(offers, review, rs);
      r := Ok(bestIndex);
    }

    /**
     * `_decision_finding`: review every offer with a valuation against the
     * average review of its operation, keep the best, and either fail or
     * slide both reference windows of the winner's operation. An offer that
     * cannot be reviewed raises before anything changes; a winner without a
     * turning-time window raises after its review window has slid.
     */
    method DecisionFinding(offers: seq<AgentOffer>, round3: real -> real) returns (r: Result<Option<AgentOffer>, string>)
      modifies this, manager
      ensures nodes == old(nodes) && startNode == old(startNode) && finishedNodes == old(finishedNodes)
      ensures priorityGraphIndex == old(priorityGraphIndex) && nextCompletionTime == old(nextCompletionTime)
      ensures manager.blockedKltList == old(manager.blockedKltList)
      ensures !Reviewable(offers, old(manager.referenceReview)) ==>
                r.Err? && failed == old(failed) &&
                manager.referenceReview == old(manager.referenceReview) &&
                manager.referenceTurningTime == old(manager.referenceTurningTime) &&
                exists i :: 0 <= i < |offers| && ReviewOf(offers[i], old(manager.referenceReview)) == Err(r.error) &&
                            forall m :: 0 <= m < i ==> ReviewOf(offers[m], old(manager.referenceReview)).Ok?
      ensures Reviewable(offers, old(manager.referenceReview)) ==>
                match Decision(offers, old(manager.referenceReview))
                case None =>
                  r == Ok(None) && failed &&
                  manager.referenceReview == old(manager.referenceReview) &&
                  manager.referenceTurningTime == old(manager.referenceTurningTime)
                case Some(k) =>
                  var op := offers[k].idLaborProcess;
                  failed == old(failed) &&
                  manager.referenceReview ==
                    old(manager.referenceReview)[op := Slid(old(manager.referenceReview)[op],
                                                            round3(offers[k].valuationResult.value))] &&
                  (op !in old(manager.referenceTurningTime) ==>
                     r == Err("KeyError") && manager.referenceTurningTime == old(manager.referenceTurningTime)) &&
                  (op in old(manager.referenceTurningTime) && |old(manager.referenceTurningTime)[op]| == 0 ==>
                     r == Err("IndexError") && manager.referenceTurningTime == old(manager.referenceTurningTime)) &&
                  (op in old(manager.referenceTurningTime) && |old(manager.referenceTurningTime)[op]| > 0 ==>
                     r == Ok(Some(offers[k])) &&
                     manager.referenceTurningTime ==
                       old(manager.referenceTurningTime)[op := Slid(old(manager.referenceTurningTime)[op],
                                                                    round3(offers[k].throughputTimeJ))])
    {
      if offers == [] {
        failed := true;
        return Ok(None);
      }
      var lowest := LowestReview(offers);
      if lowest.Err? {
        return Err(lowest.error);
      }
      var bestIndex := lowest.value;
      if bestIndex.None? || offers[bestIndex.value].valuationResult.value == 999.0 {
        failed := true;
        return Ok(None);
      }
      var winner := offers[bestIndex.value];
      var reviewError := manager.UpdateReferenceReview(winner.idLaborProcess, winner.valuationResult.value, round3);
      var turningTimeError := manager.UpdateReferenceTurningTime(winner.idLaborProcess, winner.throughputTimeJ, round3);
      if turningTimeError.Some? {
        return Err(turningTimeError.value);
      }
      r := Ok(Some(winner));
    }

    /**
     * `_update_priority_graph`: the first selected node of the winner's
     * operation becomes the start node, is finished, and inherits the other
     * selected nodes as successors; the sequence index advances and the
     * next completion time becomes the winner's start plus its skill time.
     */
    method UpdatePriorityGraph(best: Option<AgentOffer>, selected: seq<string>)
      requires forall i :: 0 <= i < |selected| ==> selected[i] in nodes
      modifies this
      ensures old(FinishedDone()) ==> FinishedDone()
      ensures best.None? || selected == [] ||
              best.value.idLaborProcess !in manager.referenceTurningTime ||
              best.value.idLaborProcess !in manager.referenceReview ==>
                failed && nodes == old(nodes) && startNode == old(startNode) &&
                finishedNodes == old(finishedNodes) && priorityGraphIndex == old(priorityGraphIndex) &&
                nextCompletionTime == old(nextCompletionTime)
      ensures best.Some? && selected != [] &&
              best.value.idLaborProcess in manager.referenceTurningTime &&
              best.value.idLaborProcess in manager.referenceReview ==>
                failed == old(failed) &&
                priorityGraphIndex == old(priorityGraphIndex) + 1 &&
                nextCompletionTime == best.value.startTime + best.value.skillTime &&
                match FirstOfOperation(old(nodes), selected, best.value.idLaborProcess, 0)
                case None =>
                  nodes == old(nodes) && startNode == old(startNode) && finishedNodes == old(finishedNodes)
                case Some(k) =>
                  var b := selected[k];
                  startNode == b && finishedNodes == old(finishedNodes) + [b] &&
                  nodes.Keys == old(nodes).Keys &&
                  (forall n :: n in old(nodes) && n != b ==> nodes[n] == old(nodes)[n]) &&
                  nodes[b].operation == old(nodes)[b].operation && nodes[b].state == 1 &&
                  nodes[b].preconditions == old(nodes)[b].preconditions &&
                  Distinct(nodes[b].successor) &&
                  (forall n :: n in nodes[b].successor <==>
                     n in old(nodes)[b].successor || n in RemovedOnce(selected, b)) &&
                  (b == endNode ==> Finished(nodes, endNode))
    {
      if best.None? || selected == [] {
        failed := true;
        return;
      }
      var op := best.value.idLaborProcess;
      if op !in manager.referenceTurningTime || op !in manager.referenceReview {
        failed := true;
        return;
      }
      var i := 0;
      while i < |selected|
        invariant 0 <= i <= |selected|
        invariant nodes == old(nodes) && startNode == old(startNode) && finishedNodes == old(finishedNodes)
        invariant FirstOfOperation(nodes, selected, op, 0) == FirstOfOperation(nodes, selected, op, i)
      {
        var b := selected[i];
        if nodes[b].operation == op {
          var node := nodes[b];
          startNode := b;
          var successors := Deduplicated(node.successor + RemovedOnce(selected, b));
          nodes := nodes[b := Node(node.operation, 1, successors, node.preconditions)];
          finishedNodes := finishedNodes + [b];
          break;
        }
        i := i + 1;
      }
      priorityGraphIndex := priorityGraphIndex + 1;
      nextCompletionTime := best.value.startTime + best.value.skillTime;
    }

    /**
     * The precondition test of `stage_2`: a successor is offered unless
     * one of its preconditions has state 0.
     */
    method PreconditionsMet(node: string) returns (precondition: bool)
      requires node in nodes
      requires forall p :: p in nodes[node].preconditions ==> p in nodes
      ensures precondition <==> forall p :: p in nodes[node].preconditions ==> nodes[p].state != 0
      ensures (forall p :: p in nodes[node].preconditions ==> 0 <= nodes[p].state <= 1) ==>
                (precondition <==> forall p :: p in nodes[node].preconditions ==> nodes[p].state == 1)
    {
      precondition := true;
      var pre := nodes[node].preconditions;
      var i := 0;
      while i < |pre|
        invariant 0 <= i <= |pre|
        invariant precondition <==> forall j :: 0 <= j < i ==> nodes[pre[j]].state != 0
      {
        if nodes[pre[i]].state == 0 {
          precondition := false;
        }
        i := i + 1;
      }
    }

    /**
     * The reject-list step of `stage_2`: an empty list fails the task;
     * otherwise the winner's (operation, workstation) pair is removed by the
     * iterate-and-remove loop.
     */
    method RejectsWithoutWinner(rejects: seq<(string, string)>, best: AgentOffer)
      returns (r: seq<(string, string)>)
      modifies this
      ensures rejects == [] ==> r == [] && failed
      ensures rejects != [] ==>
                r == Pruned(rejects, (best.idLaborProcess, best.workstationId), 0) && failed == old(failed)
      ensures Others(r, (best.idLaborProcess, best.workstationId)) ==
                Others(rejects, (best.idLaborProcess, best.workstationId))
      ensures (forall j, k :: 0 <= j < k < |rejects| ==> rejects[j] != rejects[k]) ==>
                (best.idLaborProcess, best.workstationId) !in r
      ensures nodes == old(nodes) && startNode == old(startNode) && finishedNodes == old(finishedNodes)
      ensures priorityGraphIndex == old(priorityGraphIndex) && nextCompletionTime == old(nextCompletionTime)
    {
      var w := (best.idLaborProcess, best.workstationId);
      PrunedKeepsOthers(rejects, w, 0);
      if rejects == [] {
        failed := true;
        return rejects;
      }
      if forall j, k :: 0 <= j < k < |rejects| ==> rejects[j] != rejects[k] {
        PrunedRemovesSingle(rejects, w, 0);
      }
      r := rejects;
      var i := 0;
      while i < |r|
        invariant Pruned(r, w, i) == Pruned(rejects, w, 0)
        decreases |r| - i
      {
        if r[i] == w {
          r := RemovedOnce(r, w);
        }
        i := i + 1;
      }
    }

    /**
     * The deadline test of `wait_for_task_end_time`: outside the demo mode
     * the agent fails when fewer than 20 seconds are left before the next
     * completion time.
     */
    method CheckDeadline(now: real, demoMode: bool)
      modifies this
      ensures failed <==> old(failed) || (!demoMode && nextCompletionTime - now < 20.0)
      ensures nodes == old(nodes) && startNode == old(startNode) && finishedNodes == old(finishedNodes)
      ensures priorityGraphIndex == old(priorityGraphIndex) && nextCompletionTime == old(nextCompletionTime)
    {
      if !demoMode {
        var timeDif := nextCompletionTime - now;
        if timeDif < 20.0 {
          failed := true;
        }
      }
    }
  }
}
