/**
 * The gateway's table of phynodes (gateway_interface.py, Preserver): one
 * record per storage node with its reservation, block and restore flags
 * and its last reported energy, and the list of POLL replies waiting to be
 * collected. Publishing the table over MQTT is not modelled.
 */
module PhynodeTable {
  import opened Wrappers

  datatype Phynode = Phynode(
    uid: int, phyaddr: int, rsto: bool, ordernumber: int, blocked: bool, empty: bool,
    energy: int, energyTimestamp: string)

  /** A POLL reply. */
  datatype Poll = Poll(ordernumber: int, amount: int, phyaddr: int, energy: int)

  /** A node as `init` lists it: not reserved, not blocked, no energy reported. */
  function Fresh(uid: int, phyaddr: int, empty: bool): Phynode {
    Phynode(uid, phyaddr, false, 0, false, empty, 0, "")
  }

  /** `init`: the fourteen known phynodes; those at 10 to 14 carry empty containers. */
  const InitialPhynodes: seq<Phynode> := [
    Fresh(2330, 10, true), Fresh(6202, 11, true), Fresh(9991, 12, true), Fresh(6672, 13, true),
    Fresh(10502, 14, true), Fresh(2574, 50, false), Fresh(9995, 51, false), Fresh(7946, 52, false),
    Fresh(6925, 53, false), Fresh(3095, 54, false), Fresh(7437, 55, false), Fresh(1806, 56, false),
    Fresh(3852, 57, false), Fresh(7483, 58, false)
  ]

  /** The same nodes in the same places: uid, address and container kind are never changed. */
  predicate SameNodes(a: seq<Phynode>, b: seq<Phynode>) {
    |a| == |b| &&
    forall i :: 0 <= i < |a| ==> a[i].uid == b[i].uid && a[i].phyaddr == b[i].phyaddr && a[i].empty == b[i].empty
  }

  /** The index of the first node with the address. */
  function FirstAt(ns: seq<Phynode>, phyaddr: int): (r: Option<nat>)
    ensures r.Some? ==> r.value < |ns| && ns[r.value].phyaddr == phyaddr
    ensures r.Some? ==> forall k :: 0 <= k < r.value ==> ns[k].phyaddr != phyaddr
    ensures r.None? <==> forall k :: 0 <= k < |ns| ==> ns[k].phyaddr != phyaddr
  {
    if ns == [] then None
    else if ns[0].phyaddr == phyaddr then Some(0)
    else match FirstAt(ns[1..], phyaddr) case None => None case Some(k) => Some(k + 1)
  }

  /** The index of the last node with the address. */
  function LastAt(ns: seq<Phynode>, phyaddr: int): (r: Option<nat>)
    ensures r.Some? ==> r.value < |ns| && ns[r.value].phyaddr == phyaddr
    ensures r.Some? ==> forall k :: r.value < k < |ns| ==> ns[k].phyaddr != phyaddr
    ensures r.None? <==> forall k :: 0 <= k < |ns| ==> ns[k].phyaddr != phyaddr
  {
    if ns == [] then None
    else if ns[|ns| - 1].phyaddr == phyaddr then Some(|ns| - 1)
    else LastAt(ns[..|ns| - 1], phyaddr)
  }

  /** The index of the first node reserved for the order. */
  function FirstForOrder(ns: seq<Phynode>, ordernumber: int): (r: Option<nat>)
    ensures r.Some? ==> r.value < |ns| && ns[r.value].ordernumber == ordernumber
    ensures r.Some? ==> forall k :: 0 <= k < r.value ==> ns[k].ordernumber != ordernumber
    ensures r.None? <==> forall k :: 0 <= k < |ns| ==> ns[k].ordernumber != ordernumber
  {
    if ns == [] then None
    else if ns[0].ordernumber == ordernumber then Some(0)
    else match FirstForOrder(ns[1..], ordernumber) case None => None case Some(k) => Some(k + 1)
  }

  /** `update_energy`: every node with the address takes the energy and the timestamp. */
  function EnergyUpdated(ns: seq<Phynode>, phyaddr: int, energy: int, t: string): (r: seq<Phynode>)
    ensures SameNodes(ns, r)
    ensures forall i :: 0 <= i < |ns| && ns[i].phyaddr == phyaddr ==> r[i].energy == energy && r[i].energyTimestamp == t
    ensures forall i :: 0 <= i < |ns| ==>
              r[i] == if ns[i].phyaddr == phyaddr then ns[i].(energy := energy, energyTimestamp := t) else ns[i]
  {
    seq(|ns|, i requires 0 <= i < |ns| =>
      if ns[i].phyaddr == phyaddr then ns[i].(energy := energy, energyTimestamp := t) else ns[i])
  }

  /** `block_by_ordernumber`: the first node reserved for the order is blocked. */
  function BlockedForOrder(ns: seq<Phynode>, ordernumber: int): (r: seq<Phynode>)
    ensures SameNodes(ns, r)
    ensures FirstForOrder(ns, ordernumber).None? ==> r == ns
    ensures FirstForOrder(ns, ordernumber).Some? ==>
              var k := FirstForOrder(ns, ordernumber).value;
              r == ns[k := ns[k].(blocked := true)]
  {
    match FirstForOrder(ns, ordernumber)
    case None => ns
    case Some(k) => ns[k := ns[k].(blocked := true)]
  }

  /**
   * A node after a restore (RSTO) message for the order: with a non-zero
   * order it is released from the order and flagged as restored, blocked
   * exactly when it carries an empty container; with order 0 a blocked node
   * is unblocked and flagged, and any other node stays as it was.
   */
  function Restored(n: Phynode, ordernumber: int): (m: Phynode)
    ensures m.uid == n.uid && m.phyaddr == n.phyaddr && m.empty == n.empty
    ensures m.energy == n.energy && m.energyTimestamp == n.energyTimestamp
    ensures ordernumber != 0 ==> m.ordernumber == 0 && m.rsto && (m.blocked <==> n.empty)
    ensures ordernumber == 0 && n.blocked ==> !m.blocked && m.rsto && m.ordernumber == n.ordernumber
    ensures ordernumber == 0 && !n.blocked ==> m == n
  {
    var m := if ordernumber != 0 then
               (if !n.empty then n.(blocked := false, ordernumber := 0, rsto := true)
                else n.(blocked := true, ordernumber := 0, rsto := true))
             else n;
    if ordernumber == 0 && m.blocked then m.(blocked := false, rsto := true) else m
  }

  /** `rsto_by_phyaddr` as written: the loop variable ends on the last node, whatever its address. */
  function RstoAsWritten(ns: seq<Phynode>, phyaddr: int, ordernumber: int): (r: seq<Phynode>)
    ensures SameNodes(ns, r)
    ensures ns != [] ==> r == ns[|ns| - 1 := Restored(ns[|ns| - 1], ordernumber)]
  {
    if ns == [] then ns else ns[|ns| - 1 := Restored(ns[|ns| - 1], ordernumber)]
  }

  /** `rsto_by_phyaddr` as intended: the restore applies to the node with the address. */
  function RstoApplied(ns: seq<Phynode>, phyaddr: int, ordernumber: int): (r: seq<Phynode>)
    ensures SameNodes(ns, r)
    ensures LastAt(ns, phyaddr).None? ==> r == ns
    ensures forall i :: 0 <= i < |ns| && ns[i].phyaddr != phyaddr ==> r[i] == ns[i]
    ensures LastAt(ns, phyaddr).Some? ==>
              var k := LastAt(ns, phyaddr).value;
              r == ns[k := Restored(ns[k], ordernumber)]
  {
    match LastAt(ns, phyaddr)
    case None => ns
    case Some(k) => ns[k := Restored(ns[k], ordernumber)]
  }

  /**
   * A restore message for node 10 with order 5: as written it flags node 58
   * (the last one) and leaves node 10 untouched; as intended node 10 is
   * flagged and node 58 is left alone.
   */
  lemma RstoHitsLastNode()
    ensures RstoAsWritten(InitialPhynodes, 10, 5)[0] == InitialPhynodes[0]
    ensures RstoAsWritten(InitialPhynodes, 10, 5)[13].rsto
    ensures RstoApplied(InitialPhynodes, 10, 5)[0].rsto
    ensures RstoApplied(InitialPhynodes, 10, 5)[13] == InitialPhynodes[13]
  {
    var ns := InitialPhynodes;
    assert ns[0].phyaddr == 10;
    assert forall k :: 0 < k < |ns| ==> ns[k].phyaddr != 10;
    var r := LastAt(ns, 10);
    assert r.Some?;
    assert r.value == 0;
  }

  /** `get_rsto_status`: the restore flag of the first node with the address, None when there is none. */
  function RstoStatus(ns: seq<Phynode>, phyaddr: int): (r: Option<bool>)
    ensures r.None? <==> FirstAt(ns, phyaddr).None?
    ensures r.Some? ==> r.value == ns[FirstAt(ns, phyaddr).value].rsto
  {
    match FirstAt(ns, phyaddr)
    case None => None
    case Some(k) => Some(ns[k].rsto)
  }

  /** The table after `get_rsto_status`: the flag it read is cleared. */
  function RstoCleared(ns: seq<Phynode>, phyaddr: int): (r: seq<Phynode>)
    ensures SameNodes(ns, r)
  {
    match FirstAt(ns, phyaddr)
    case None => ns
    case Some(k) => ns[k := ns[k].(rsto := false)]
  }

  /** The restore flag is read once: asking again gives false. */
  lemma {:induction false} RstoReadOnce(ns: seq<Phynode>, phyaddr: int)
    requires FirstAt(ns, phyaddr).Some?
    ensures RstoStatus(RstoCleared(ns, phyaddr), phyaddr) == Some(false)
    ensures RstoCleared(RstoCleared(ns, phyaddr), phyaddr) == RstoCleared(ns, phyaddr)
  {
    var k := FirstAt(ns, phyaddr).value;
    var cleared := RstoCleared(ns, phyaddr);
    assert cleared == ns[k := ns[k].(rsto := false)];
    assert forall i :: 0 <= i < |ns| ==> cleared[i].phyaddr == ns[i].phyaddr;
    assert FirstAt(cleared, phyaddr) == Some(k);
  }

  /** The polls of the order, in their order. */
  function Matching(ps: seq<Poll>, ordernumber: int): (r: seq<Poll>)
    ensures forall i :: 0 <= i < |r| ==> r[i].ordernumber == ordernumber
    ensures |r| <= |ps|
  {
    if ps == [] then []
    else Matching(ps[..|ps| - 1], ordernumber) + (if ps[|ps| - 1].ordernumber == ordernumber then [ps[|ps| - 1]] else [])
  }

  /** The polls of other orders, in their order. */
  function Others(ps: seq<Poll>, ordernumber: int): (r: seq<Poll>)
    ensures forall i :: 0 <= i < |r| ==> r[i].ordernumber != ordernumber
    ensures |r| <= |ps|
  {
    if ps == [] then []
    else Others(ps[..|ps| - 1], ordernumber) + (if ps[|ps| - 1].ordernumber != ordernumber then [ps[|ps| - 1]] else [])
  }

  /** Separating the polls of an order from the others loses none and makes none up. */
  lemma {:induction false} MatchingOthersPartition(ps: seq<Poll>, ordernumber: int)
    ensures multiset(Matching(ps, ordernumber)) + multiset(Others(ps, ordernumber)) == multiset(ps)
  {
    if ps != [] {
      var n := |ps| - 1;
      MatchingOthersPartition(ps[..n], ordernumber);
      assert ps == ps[..n] + [ps[n]];
    }
  }

  /**
   * `get_by_ordernumber` as written: enumerating the list while popping
   * from it, so after a match the next poll moves into the popped place and
   * is never looked at. Returns the polls taken and those left.
   */
  function PoppedAsWritten(ps: seq<Poll>, ordernumber: int, index: nat): (r: (seq<Poll>, seq<Poll>))
    ensures forall i :: 0 <= i < |r.0| ==> r.0[i].ordernumber == ordernumber
    decreases |ps| - index
  {
    if index >= |ps| then ([], ps)
    else if ps[index].ordernumber == ordernumber then
      var rest := PoppedAsWritten(ps[..index] + ps[index + 1..], ordernumber, index + 1);
      ([ps[index]] + rest.0, rest.1)
    else PoppedAsWritten(ps, ordernumber, index + 1)
  }

  /** Two replies to the same POLL in a row: as written only the first is handed out. */
  lemma AdjacentPollSkipped(p: Poll, q: Poll)
    requires p.ordernumber == q.ordernumber
    ensures PoppedAsWritten([p, q], p.ordernumber, 0) == ([p], [q])
    ensures Matching([p, q], p.ordernumber) == [p, q]
  {
    var o := p.ordernumber;
    var ps := [p, q];
    assert ps[..0] + ps[1..] == [q];
    var rest := PoppedAsWritten([q], o, 1);
    assert rest == ([], [q]);
    assert PoppedAsWritten(ps, o, 0) == ([ps[0]] + rest.0, rest.1);
    assert [ps[0]] + rest.0 == [p];
  }

  class Preserver {
    /** `phynode_list`. */
    var phynodes: seq<Phynode>
    /** `received_poll_messages`. */
    var polls: seq<Poll>

    constructor ()
      ensures phynodes == InitialPhynodes && polls == []
    {
      phynodes := InitialPhynodes;
      polls := [];
    }

    /** `update_energy`. */
    method UpdateEnergy(phyaddr: int, energy: int, timestamp: string)
      modifies this
      ensures phynodes == EnergyUpdated(old(phynodes), phyaddr, energy, timestamp)
      ensures polls == old(polls)
    {
      ghost var before := phynodes;
      var i := 0;
      while i < |phynodes|
        invariant before == old(phynodes) && polls == old(polls)
        invariant |phynodes| == |before| && 0 <= i <= |phynodes|
        invariant forall k :: 0 <= k < i ==> phynodes[k] == EnergyUpdated(before, phyaddr, energy, timestamp)[k]
        invariant forall k :: i <= k < |phynodes| ==> phynodes[k] == before[k]
      {
        if phynodes[i].phyaddr == phyaddr {
          phynodes := phynodes[i := phynodes[i].(energy := energy, energyTimestamp := timestamp)];
        }
        i := i + 1;
      }
    }

    /** `rsve_by_phyaddr`: the first node with the address is reserved for the order; false when there is none. */
    method RsveByPhyaddr(phyaddr: int, ordernumber: int) returns (found: bool)
      modifies this
      ensures found <==> FirstAt(old(phynodes), phyaddr).Some?
      ensures !found ==> phynodes == old(phynodes)
      ensures found ==>
                var k := FirstAt(old(phynodes), phyaddr).value;
                phynodes == old(phynodes)[k := old(phynodes)[k].(ordernumber := ordernumber)]
      ensures SameNodes(old(phynodes), phynodes) && polls == old(polls)
    {
      var i := 0;
      while i < |phynodes|
        invariant phynodes == old(phynodes) && polls == old(polls) && 0 <= i <= |phynodes|
        invariant forall k :: 0 <= k < i ==> phynodes[k].phyaddr != phyaddr
      {
        if phynodes[i].phyaddr == phyaddr {
          assert FirstAt(phynodes, phyaddr) == Some(i);
          phynodes := phynodes[i := phynodes[i].(ordernumber := ordernumber)];
          return true;
        }
        i := i + 1;
      }
      return false;
    }

    /** `block_by_ordernumber`. */
    method BlockByOrdernumber(ordernumber: int)
      modifies this
      ensures phynodes == BlockedForOrder(old(phynodes), ordernumber) && polls == old(polls)
    {
      var i := 0;
      while i < |phynodes|
        invariant phynodes == old(phynodes) && polls == old(polls) && 0 <= i <= |phynodes|
        invariant forall k :: 0 <= k < i ==> phynodes[k].ordernumber != ordernumber
      {
        if phynodes[i].ordernumber == ordernumber {
          assert FirstForOrder(phynodes, ordernumber) == Some(i);
          phynodes := phynodes[i := phynodes[i].(blocked := true)];
          return;
        }
        i := i + 1;
      }
    }

    /**
     * `is_blocked` as written: both branches of the loop body return, so
     * only the first node is looked at; None for an empty table.
     */
    function IsBlocked(phyaddr: int): (r: Option<bool>)
      reads this
      ensures r.None? <==> phynodes == []
      ensures r == Some(true) ==> phynodes[0].phyaddr == phyaddr && phynodes[0].blocked
      ensures phynodes != [] && phynodes[0].phyaddr != phyaddr ==> r == Some(false)
    {
      if phynodes == [] then None
      else Some(phynodes[0].phyaddr == phyaddr && phynodes[0].blocked)
    }

    /** `rsto_by_phyaddr`, applied to the node with the address (see RstoAsWritten). */
    method RstoByPhyaddr(phyaddr: int, ordernumber: int)
      modifies this
      ensures phynodes == RstoApplied(old(phynodes), phyaddr, ordernumber) && polls == old(polls)
    {
      var found: Option<nat> := None;
      var i := 0;
      while i < |phynodes|
        invariant phynodes == old(phynodes) && polls == old(polls) && 0 <= i <= |phynodes|
        invariant found == LastAt(phynodes[..i], phyaddr)
      {
        assert phynodes[..i + 1][..i] == phynodes[..i];
        if phynodes[i].phyaddr == phyaddr {
          found := Some(i);
        }
        i := i + 1;
      }
      assert phynodes[..i] == phynodes;
      if found.Some? {
        var k := found.value;
        phynodes := phynodes[k := Restored(phynodes[k], ordernumber)];
      }
    }

    /** `get_rsto_status`: read-and-clear of the first matching node's restore flag. */
    method GetRstoStatus(phyaddr: int) returns (r: Option<bool>)
      modifies this
      ensures r == RstoStatus(old(phynodes), phyaddr)
      ensures phynodes == RstoCleared(old(phynodes), phyaddr) && polls == old(polls)
    {
      var i := 0;
      while i < |phynodes|
        invariant phynodes == old(phynodes) && polls == old(polls) && 0 <= i <= |phynodes|
        invariant forall k :: 0 <= k < i ==> phynodes[k].phyaddr != phyaddr
      {
        if phynodes[i].phyaddr == phyaddr {
          assert FirstAt(phynodes, phyaddr) == Some(i);
          var result := phynodes[i].rsto;
          if result {
            phynodes := phynodes[i := phynodes[i].(rsto := false)];
          } else {
            assert phynodes == phynodes[i := phynodes[i].(rsto := false)];
          }
          return Some(result);
        }
        i := i + 1;
      }
      return None;
    }

    /**
     * `get_by_ordernumber`, handing out every poll of the order (see
     * PoppedAsWritten): the polls of the order in the order they came, and
     * the list keeps the others.
     */
    method GetByOrdernumber(ordernumber: int) returns (result: seq<Poll>)
      modifies this
      ensures result == Matching(old(polls), ordernumber)
      ensures polls == Others(old(polls), ordernumber) && phynodes == old(phynodes)
      ensures multiset(result) + multiset(polls) == multiset(old(polls))
    {
      result := [];
      var kept: seq<Poll> := [];
      var i := 0;
      while i < |polls|
        invariant polls == old(polls) && phynodes == old(phynodes) && 0 <= i <= |polls|
        invariant result == Matching(polls[..i], ordernumber) && kept == Others(polls[..i], ordernumber)
      {
        assert polls[..i + 1][..i] == polls[..i];
        if polls[i].ordernumber == ordernumber {
          result := result + [polls[i]];
        } else {
          kept := kept + [polls[i]];
        }
        i := i + 1;
      }
      assert polls[..i] == polls;
      MatchingOthersPartition(polls, ordernumber);
      polls := kept;
    }

    /** `store_by_ordernumber`: the poll is queued and its energy recorded. */
    method StoreByOrdernumber(poll: Poll, timestamp: string)
      modifies this
      ensures polls == old(polls) + [poll]
      ensures phynodes == EnergyUpdated(old(phynodes), poll.phyaddr, poll.energy, timestamp)
    {
      polls := polls + [poll];
      UpdateEnergy(poll.phyaddr, poll.energy, timestamp);
    }

    /** `reset`: the table as `init` made it; waiting polls stay. */
    method Reset()
      modifies this
      ensures phynodes == InitialPhynodes && polls == old(polls)
    {
      phynodes := InitialPhynodes;
    }
  }
}
