/**
 * The picking gateway (CPPS/cpps_picking/cpps_picking_gateway.py): the list
 * of picking tasks it has offered, the booking step that rejects and books
 * them, the rule by which the unblock thread restores a container, and the
 * choice of the container with the lowest energy.
 *
 * The fleet management system and the phynode gateway are reached over
 * HTTP; their replies are inputs here. The unblock thread's clock reading is
 * an input as well.
 */
module CppsPickingGateway {
  import opened Wrappers
  import opened Selection
  import Json

  /** The task dictionary the gateway keeps and sends to the fleet management system. */
  datatype Task = Task(
    idCycle: string, idTask: int, idLaborProcess: string, kltId: string, target: string,
    desiredAvailabilityDate: real, skillTime: real, phyaddr: int, workstationId: string, bufferTime: real)

  /** The fields of the fleet management system's offer the unblock rule reads. */
  datatype FmsOffer = FmsOffer(startTime: real, estimatedPickup: real)

  /** One picking task with its offer and its state flags. */
  datatype PickingTask = PickingTask(
    task: Task, fmsOffer: Option<FmsOffer>,
    withdrawn: bool, arrived: bool, reserved: bool, booked: bool, restored: bool)

  /** A phynode's reply to the poll for a free container. */
  datatype PollItem = PollItem(ordernumber: Option<int>, energy: real, phyaddr: int)

  /** The record `add_new_picking_task` stores: no offer yet and every flag cleared. */
  function NewPickingTask(task: Task): (p: PickingTask)
    ensures p.task == task && p.fmsOffer.None?
    ensures !p.withdrawn && !p.arrived && !p.reserved && !p.booked && !p.restored
  {
    PickingTask(task, None, false, false, false, false, false)
  }

  /** The first task of that cycle that is not booked yet. */
  function FirstUnbooked(ps: seq<PickingTask>, idCycle: string): (k: Option<nat>)
    ensures k.Some? ==> k.value < |ps| && ps[k.value].task.idCycle == idCycle && !ps[k.value].booked &&
                        forall m :: 0 <= m < k.value ==> ps[m].task.idCycle != idCycle || ps[m].booked
    ensures k.None? ==> forall m :: 0 <= m < |ps| ==> ps[m].task.idCycle != idCycle || ps[m].booked
    decreases |ps|
  {
    if ps == [] then None
    else if ps[0].task.idCycle == idCycle && !ps[0].booked then Some(0)
    else
      match FirstUnbooked(ps[1..], idCycle)
      case None => None
      case Some(k) => Some(k + 1)
  }

  /** A picking task belongs to that task, labor process and workstation. */
  predicate Matches(p: PickingTask, idTask: int, idLaborProcess: string, workstationId: string) {
    p.task.idTask == idTask && p.task.idLaborProcess == idLaborProcess && p.task.workstationId == workstationId
  }

  /** The first picking task that matches. */
  function FirstMatch(ps: seq<PickingTask>, idTask: int, idLaborProcess: string, workstationId: string): (k: Option<nat>)
    ensures k.Some? ==> k.value < |ps| && Matches(ps[k.value], idTask, idLaborProcess, workstationId) &&
                        forall m :: 0 <= m < k.value ==> !Matches(ps[m], idTask, idLaborProcess, workstationId)
    ensures k.None? ==> forall m :: 0 <= m < |ps| ==> !Matches(ps[m], idTask, idLaborProcess, workstationId)
    decreases |ps|
  {
    if ps == [] then None
    else if Matches(ps[0], idTask, idLaborProcess, workstationId) then Some(0)
    else
      match FirstMatch(ps[1..], idTask, idLaborProcess, workstationId)
      case None => None
      case Some(k) => Some(k + 1)
  }

  /** The list without its first matching task (`list.remove` of the first match). */
  function RemoveFirst(ps: seq<PickingTask>, idTask: int, idLaborProcess: string, workstationId: string): seq<PickingTask> {
    match FirstMatch(ps, idTask, idLaborProcess, workstationId)
    case None => ps
    case Some(k) => ps[..k] + ps[k + 1..]
  }

  /** The list after the rejects, applied in order, each removing at most one task. */
  function AfterRejects(ps: seq<PickingTask>, idTask: int, rejects: seq<(string, string)>): seq<PickingTask>
    decreases |rejects|
  {
    if rejects == [] then ps
    else
      var n := |rejects| - 1;
      RemoveFirst(AfterRejects(ps, idTask, rejects[..n]), idTask, rejects[n].0, rejects[n].1)
  }

  /**
   * The list after the booking: exactly the first matching task is marked
   * booked, with the start time as its desired availability date; every
   * other task stays as it was.
   */
  function Booked(ps: seq<PickingTask>, idTask: int, idLaborProcess: string, workstationId: string, startTime: real)
    : (r: seq<PickingTask>)
    ensures |r| == |ps|
    ensures FirstMatch(ps, idTask, idLaborProcess, workstationId).None? ==> r == ps
    ensures FirstMatch(ps, idTask, idLaborProcess, workstationId).Some? ==>
              var k := FirstMatch(ps, idTask, idLaborProcess, workstationId).value;
              r[k].booked && r[k].task.desiredAvailabilityDate == startTime &&
              Matches(r[k], idTask, idLaborProcess, workstationId) &&
              r[k].fmsOffer == ps[k].fmsOffer && r[k].restored == ps[k].restored &&
              forall m :: 0 <= m < |ps| && m != k ==> r[m] == ps[m]
  {
    match FirstMatch(ps, idTask, idLaborProcess, workstationId)
    case None => ps
    case Some(k) =>
      ps[k := ps[k].(task := ps[k].task.(desiredAvailabilityDate := startTime), booked := true)]
  }

  /** A reject removes the first matching task and keeps the others, in order. */
  lemma RemoveFirstRemovesOne(ps: seq<PickingTask>, idTask: int, idLaborProcess: string, workstationId: string)
    ensures var r := RemoveFirst(ps, idTask, idLaborProcess, workstationId);
            match FirstMatch(ps, idTask, idLaborProcess, workstationId)
            case None => r == ps
            case Some(k) =>
              |r| == |ps| - 1 && multiset(r) + multiset{ps[k]} == multiset(ps) &&
              (forall m :: 0 <= m < k ==> r[m] == ps[m]) &&
              (forall m :: k <= m < |r| ==> r[m] == ps[m + 1])
  {
    match FirstMatch(ps, idTask, idLaborProcess, workstationId)
    case None =>
    case Some(k) =>
      assert ps == ps[..k] + [ps[k]] + ps[k + 1..];
  }

  /**
   * The rejects remove no more tasks than there are rejects, and what they
   * keep was in the list before.
   */
  lemma {:induction false} AfterRejectsRemovesAtMost(ps: seq<PickingTask>, idTask: int, rejects: seq<(string, string)>)
    ensures var r := AfterRejects(ps, idTask, rejects);
            |ps| - |rejects| <= |r| <= |ps| && multiset(r) <= multiset(ps)
    decreases |rejects|
  {
    if rejects != [] {
      var n := |rejects| - 1;
      var c := AfterRejects(ps, idTask, rejects[..n]);
      AfterRejectsRemovesAtMost(ps, idTask, rejects[..n]);
      RemoveFirstRemovesOne(c, idTask, rejects[n].0, rejects[n].1);
    }
  }

  /** The moment the unblock thread restores a task's container. */
  function UnblockTime(o: FmsOffer): real {
    o.startTime + 7.5 + (o.startTime - o.estimatedPickup)
  }

  /** Whether the unblock thread, reading the clock at `now`, restores this task. */
  predicate Restores(p: PickingTask, now: real) {
    !p.restored && p.fmsOffer.Some? && now > UnblockTime(p.fmsOffer.value)
  }

  /** The task after the unblock rule has looked at it. */
  function Unblocked(p: PickingTask, now: real): (q: PickingTask)
    ensures q == p || (Restores(p, now) && q == p.(restored := true))
    ensures Restores(p, now) ==> q.restored
    ensures forall later :: !Restores(q, later)  || !Restores(p, now)
  {
    if Restores(p, now) then p.(restored := true) else p
  }

  /** A task is restored once at most: after a restore no clock reading restores it again. */
  lemma RestoredOnce(p: PickingTask, now: real, later: real)
    requires Restores(p, now)
    ensures !Restores(Unblocked(p, now), later)
    ensures Unblocked(Unblocked(p, now), later) == Unblocked(p, now)
  {
  }

  /** The phyaddrs the pass restores, in list order. */
  function RestoredAddrs(ps: seq<PickingTask>, now: real): seq<int>
    decreases |ps|
  {
    if ps == [] then []
    else
      var n := |ps| - 1;
      RestoredAddrs(ps[..n], now) + if Restores(ps[n], now) then [ps[n].task.phyaddr] else []
  }

  /** The candidates of the poll: the items that carry the task's ordernumber. */
  predicate Candidate(item: PollItem, idTask: int) {
    item.ordernumber == Some(idTask)
  }

  /** The energies of the candidates, None for the other items of the poll. */
  function Energies(items: seq<PollItem>, idTask: int): (es: seq<Option<real>>)
    ensures |es| == |items|
    ensures forall m :: 0 <= m < |items| ==>
              es[m] == if Candidate(items[m], idTask) then Some(items[m].energy) else None
  {
    seq(|items|, m requires 0 <= m < |items| =>
      if Candidate(items[m], idTask) then Some(items[m].energy) else None)
  }

  /** The picking gateway's list of picking tasks. */
  class PickingGateway {
    var pickingTasks: seq<PickingTask>

    constructor ()
      ensures pickingTasks == []
    {
      pickingTasks := [];
    }

    /** `add_new_picking_task`: appends a fresh record for the task and returns it. */
    method AddNewPickingTask(task: Task) returns (p: PickingTask)
      modifies this
      ensures p == NewPickingTask(task)
      ensures pickingTasks == old(pickingTasks) + [p]
    {
      p := PickingTask(task, None, false, false, false, false, false);
      pickingTasks := pickingTasks + [p];
    }

    /** `find_phyaddr_for_task`: the container of the first unbooked task of that cycle, if any. */
    method FindPhyaddrForTask(idCycle: string) returns (r: Option<int>)
      ensures r == match FirstUnbooked(pickingTasks, idCycle)
                   case None => None
                   case Some(k) => Some(pickingTasks[k].task.phyaddr)
    {
      r := None;
      var i := 0;
      while i < |pickingTasks|
        invariant 0 <= i <= |pickingTasks|
        invariant forall m :: 0 <= m < i ==> pickingTasks[m].task.idCycle != idCycle || pickingTasks[m].booked
      {
        if pickingTasks[i].task.idCycle == idCycle && !pickingTasks[i].booked {
          r := Some(pickingTasks[i].task.phyaddr);
          FirstUnbookedAt(pickingTasks, idCycle, i);
          return;
        }
        i := i + 1;
      }
    }

    /**
     * `book_picking_task`: with no picking task at all, a failure and no
     * change. Otherwise each reject removes the first task of that task,
     * labor process and workstation, then the first task matching the
     * booking is booked for the start time, and the fleet management
     * system's reply is passed on (a failure when there is none).
     */
    method BookPickingTask(idTask: int, idLaborProcess: string, rejects: seq<(string, string)>,
                           workstationId: string, startTime: real, fmsReply: Option<Json.Object>)
      returns (r: Result<Json.Object, string>)
      modifies this
      ensures old(pickingTasks) == [] ==> r.Err? && pickingTasks == old(pickingTasks)
      ensures old(pickingTasks) != [] ==>
                pickingTasks == Booked(AfterRejects(old(pickingTasks), idTask, rejects), idTask, idLaborProcess,
                                       workstationId, startTime) &&
                r == match fmsReply case None => Err("Received None response") case Some(d) => Ok(d)
    {
      if pickingTasks == [] {
        return Err("Did not find any picking task");
      }
      var n := 0;
      while n < |rejects|
        invariant 0 <= n <= |rejects|
        invariant pickingTasks == AfterRejects(old(pickingTasks), idTask, rejects[..n])
      {
        assert rejects[..n + 1][..n] == rejects[..n];
        RemoveMatch(idTask, rejects[n].0, rejects[n].1);
        n := n + 1;
      }
      assert rejects[..n] == rejects;
      BookMatch(idTask, idLaborProcess, workstationId, startTime);
      if fmsReply.None? {
        return Err("Received None response");
      }
      return Ok(fmsReply.value);
    }

    /** One reject: removes the first matching task, if any. */
    method RemoveMatch(idTask: int, idLaborProcess: string, workstationId: string)
      modifies this
      ensures pickingTasks == RemoveFirst(old(pickingTasks), idTask, idLaborProcess, workstationId)
    {
      var i := 0;
      while i < |pickingTasks|
        invariant 0 <= i <= |pickingTasks| && pickingTasks == old(pickingTasks)
        invariant forall m :: 0 <= m < i ==> !Matches(pickingTasks[m], idTask, idLaborProcess, workstationId)
      {
        if Matches(pickingTasks[i], idTask, idLaborProcess, workstationId) {
          RemoveFirstAt(pickingTasks, idTask, idLaborProcess, workstationId, i);
          pickingTasks := pickingTasks[..i] + pickingTasks[i + 1..];
          return;
        }
        i := i + 1;
      }
      RemoveFirstNone(pickingTasks, idTask, idLaborProcess, workstationId);
    }

    /** The booking loop: marks the first matching task booked for the start time. */
    method BookMatch(idTask: int, idLaborProcess: string, workstationId: string, startTime: real)
      modifies this
      ensures pickingTasks == Booked(old(pickingTasks), idTask, idLaborProcess, workstationId, startTime)
    {
      var i := 0;
      while i < |pickingTasks|
        invariant 0 <= i <= |pickingTasks| && pickingTasks == old(pickingTasks)
        invariant forall m :: 0 <= m < i ==> !Matches(pickingTasks[m], idTask, idLaborProcess, workstationId)
      {
        if Matches(pickingTasks[i], idTask, idLaborProcess, workstationId) {
          FirstMatchAt(pickingTasks, idTask, idLaborProcess, workstationId, i);
          var p := pickingTasks[i];
          pickingTasks := pickingTasks[i := p.(task := p.task.(desiredAvailabilityDate := startTime), booked := true)];
          return;
        }
        i := i + 1;
      }
    }

    /**
     * One pass of `check_for_unblock` with the clock reading `now`: every
     * task with an offer that is not restored yet and whose unblock time has
     * passed is restored; the result lists the containers to restore.
     */
    method CheckForUnblock(now: real) returns (addrs: seq<int>)
      modifies this
      ensures |pickingTasks| == |old(pickingTasks)|
      ensures forall k :: 0 <= k < |pickingTasks| ==> pickingTasks[k] == Unblocked(old(pickingTasks)[k], now)
      ensures addrs == RestoredAddrs(old(pickingTasks), now)
    {
      var ps := pickingTasks;
      addrs := [];
      var i := 0;
      while i < |ps|
        invariant 0 <= i <= |ps| && |pickingTasks| == |ps|
        invariant forall k :: 0 <= k < i ==> pickingTasks[k] == Unblocked(ps[k], now)
        invariant forall k :: i <= k < |ps| ==> pickingTasks[k] == ps[k]
        invariant addrs == RestoredAddrs(ps[..i], now)
      {
        assert ps[..i + 1][..i] == ps[..i];
        var p := pickingTasks[i];
        if !p.restored && p.fmsOffer.Some? {
          var startTime := p.fmsOffer.value.startTime;
          var difference := startTime - p.fmsOffer.value.estimatedPickup;
          var unblockTime := startTime + 7.5 + difference;
          if now > unblockTime {
            addrs := addrs + [p.task.phyaddr];
            pickingTasks := pickingTasks[i := p.(restored := true)];
          }
        }
        i := i + 1;
      }
      assert ps[..i] == ps;
    }
  }

  /** An unbooked task of the cycle with none before it is the first one. */
  lemma FirstUnbookedAt(ps: seq<PickingTask>, idCycle: string, i: nat)
    requires i < |ps| && ps[i].task.idCycle == idCycle && !ps[i].booked
    requires forall m :: 0 <= m < i ==> ps[m].task.idCycle != idCycle || ps[m].booked
    ensures FirstUnbooked(ps, idCycle) == Some(i)
  {
    var k := FirstUnbooked(ps, idCycle);
    assert k.Some?;
  }

  /** A matching task with no match before it is the first match. */
  lemma RemoveFirstAt(ps: seq<PickingTask>, idTask: int, idLaborProcess: string, workstationId: string, i: nat)
    requires i < |ps| && Matches(ps[i], idTask, idLaborProcess, workstationId)
    requires forall m :: 0 <= m < i ==> !Matches(ps[m], idTask, idLaborProcess, workstationId)
    ensures RemoveFirst(ps, idTask, idLaborProcess, workstationId) == ps[..i] + ps[i + 1..]
  {
    FirstMatchAt(ps, idTask, idLaborProcess, workstationId, i);
  }

  lemma RemoveFirstNone(ps: seq<PickingTask>, idTask: int, idLaborProcess: string, workstationId: string)
    requires forall m :: 0 <= m < |ps| ==> !Matches(ps[m], idTask, idLaborProcess, workstationId)
    ensures RemoveFirst(ps, idTask, idLaborProcess, workstationId) == ps
  {
    assert FirstMatch(ps, idTask, idLaborProcess, workstationId).None?;
  }

  lemma FirstMatchAt(ps: seq<PickingTask>, idTask: int, idLaborProcess: string, workstationId: string, i: nat)
    requires i < |ps| && Matches(ps[i], idTask, idLaborProcess, workstationId)
    requires forall m :: 0 <= m < i ==> !Matches(ps[m], idTask, idLaborProcess, workstationId)
    ensures FirstMatch(ps, idTask, idLaborProcess, workstationId) == Some(i)
  {
    var k := FirstMatch(ps, idTask, idLaborProcess, workstationId);
    assert k.Some?;
  }

  /**
   * The lowest-energy walk of `get_free_phyaddr` over one poll reply: the
   * first candidate, then any candidate of strictly lower energy. None when
   * no item carries the ordernumber.
   */
  method LowestEnergy(items: seq<PollItem>, idTask: int) returns (best: Option<PollItem>)
    ensures best.None? <==> forall m :: 0 <= m < |items| ==> !Candidate(items[m], idTask)
    ensures best.Some? ==>
              best.value in items && Candidate(best.value, idTask) &&
              forall m :: 0 <= m < |items| && Candidate(items[m], idTask) ==> best.value.energy <= items[m].energy
    ensures best == match FirstMinOf(Energies(items, idTask)) case None => None case Some(k) => Some(items[k])
  {
    best := None;
    ghost var es := Energies(items, idTask);
    ghost var bi: Option<nat> := None;
    var i := 0;
    while i < |items|
      invariant 0 <= i <= |items|
      invariant bi == FirstMinOf(es[..i])
      invariant best == match bi case None => None case Some(k) => Some(items[k])
    {
      FirstMinOfStep(es, i);
      var item := items[i];
      if item.ordernumber == Some(idTask) {
        if best.None? {
          best := Some(item);
          bi := Some(i);
        } else if best.value.energy > item.energy {
          best := Some(item);
          bi := Some(i);
        }
      }
      i := i + 1;
    }
    assert es[..i] == es;
  }
}
