/**
 * The bookkeeping of the order-processing script (SFB876.py): the
 * workstations an order can be sent to, the phynodes blocked for orders and
 * the carts (KLTs) delivered, the per-order list of intern orders with the
 * checks that end each stage, and the dispatch of the robots'
 * acknowledgements. HTTP requests, MQTT messages, the database and the
 * timing of the stages are not modelled; their outcomes are parameters.
 */
module OrderProcessing {
  import opened Wrappers
  import Json
  import opened PyInt
  import TaskManager = CppsTaskManager

  // ---------------------------------------------------------------------
  // Workstations

  /** A workstation record: id, name, whether it is in use, the order it serves, whether it is the home station. */
  datatype Station = Station(id: string, name: string, usage: bool, ordernumber: Option<int>, home: bool)

  /** The i-th station (1-based) as `Workstations.__init__` lists it. */
  function NewStation(i: int, homeStation: int): Station {
    Station("WS_" + Decimal(i), "Working Station " + Decimal(i), false, None, i == homeStation)
  }

  /** `Workstations(amount, home_station)`: stations 1 to amount; an amount below 1 gives none. */
  function InitialStations(amount: int, homeStation: int): (ws: seq<Station>)
    ensures |ws| == if amount < 0 then 0 else amount
    ensures forall k :: 0 <= k < |ws| ==> ws[k] == NewStation(k + 1, homeStation)
  {
    seq(if amount < 0 then 0 else amount, k requires 0 <= k => NewStation(k + 1, homeStation))
  }

  /** A station an order can take: not the home station and not in use. */
  predicate Free(w: Station) {
    !w.home && !w.usage
  }

  /** A station in use is serving an order, and the home station is never used. */
  predicate StationsValid(ws: seq<Station>) {
    forall k :: 0 <= k < |ws| ==> (ws[k].usage <==> ws[k].ordernumber.Some?) && (ws[k].home ==> !ws[k].usage)
  }

  /** The first station an order can take. */
  function FirstFree(ws: seq<Station>): (r: Option<nat>)
    ensures r.Some? ==> r.value < |ws| && Free(ws[r.value]) && forall k :: 0 <= k < r.value ==> !Free(ws[k])
    ensures r.None? <==> forall k :: 0 <= k < |ws| ==> !Free(ws[k])
  {
    if ws == [] then None
    else if Free(ws[0]) then Some(0)
    else match FirstFree(ws[1..]) case None => None case Some(k) => Some(k + 1)
  }

  /** The first station other than the home station serving the order. */
  function FirstServing(ws: seq<Station>, ordernumber: int): (r: Option<nat>)
    ensures r.Some? ==> r.value < |ws| && !ws[r.value].home && ws[r.value].ordernumber == Some(ordernumber)
    ensures r.Some? ==> forall k :: 0 <= k < r.value ==> ws[k].home || ws[k].ordernumber != Some(ordernumber)
    ensures r.None? <==> forall k :: 0 <= k < |ws| ==> ws[k].home || ws[k].ordernumber != Some(ordernumber)
  {
    if ws == [] then None
    else if !ws[0].home && ws[0].ordernumber == Some(ordernumber) then Some(0)
    else match FirstServing(ws[1..], ordernumber) case None => None case Some(k) => Some(k + 1)
  }

  /** The stations after `set_workstation_by_ordernumber`: the first free one serves the order. */
  function Assigned(ws: seq<Station>, ordernumber: int): seq<Station> {
    match FirstFree(ws)
    case None => ws
    case Some(k) => ws[k := ws[k].(usage := true, ordernumber := Some(ordernumber))]
  }

  /** The stations after `reset_workstation_by_ordernumber`: the first one serving the order is freed. */
  function Released(ws: seq<Station>, ordernumber: int): seq<Station> {
    match FirstServing(ws, ordernumber)
    case None => ws
    case Some(k) => ws[k := ws[k].(usage := false, ordernumber := None)]
  }

  /** Taking and releasing a station keeps the stations valid. */
  lemma AssignReleaseValid(ws: seq<Station>, ordernumber: int)
    requires StationsValid(ws)
    ensures StationsValid(Assigned(ws, ordernumber)) && StationsValid(Released(ws, ordernumber))
  {
  }

  /**
   * Releasing the station an order took gives the stations back as they
   * were, when no station served the order before.
   */
  lemma {:induction false} ReleaseAfterAssign(ws: seq<Station>, ordernumber: int)
    requires StationsValid(ws) && FirstServing(ws, ordernumber).None?
    ensures Released(Assigned(ws, ordernumber), ordernumber) == ws
  {
    match FirstFree(ws)
    case None =>
    case Some(k) =>
      var taken := Assigned(ws, ordernumber);
      assert taken == ws[k := ws[k].(usage := true, ordernumber := Some(ordernumber))];
      assert FirstServing(taken, ordernumber) == Some(k) by {
        assert !taken[k].home && taken[k].ordernumber == Some(ordernumber);
        assert forall j :: 0 <= j < |taken| && j != k ==> taken[j] == ws[j];
        assert forall j :: 0 <= j < |taken| && j != k ==> taken[j].home || taken[j].ordernumber != Some(ordernumber);
      }
      assert ws[k].ordernumber == None;
  }

  /** Station ids tell stations apart: "WS_" and the station's number. */
  lemma StationIdsDistinct(amount: int, homeStation: int)
    ensures var ws := InitialStations(amount, homeStation);
            forall i, j :: 0 <= i < j < |ws| ==> ws[i].id != ws[j].id
  {
    var ws := InitialStations(amount, homeStation);
    forall i, j | 0 <= i < j < |ws| ensures ws[i].id != ws[j].id {
      PrefixedDecimalsDiffer("WS_", i + 1, j + 1);
    }
  }

  /** Distinct numbers behind the same prefix give distinct texts. */
  lemma PrefixedDecimalsDiffer(prefix: string, m: int, n: int)
    requires m != n
    ensures prefix + Decimal(m) != prefix + Decimal(n)
  {
    ParseDecimalOfDecimal(m);
    ParseDecimalOfDecimal(n);
    assert (prefix + Decimal(m))[|prefix|..] == Decimal(m);
    assert (prefix + Decimal(n))[|prefix|..] == Decimal(n);
  }

  /** New stations are all valid and unused, and exactly the home station's number is marked home. */
  lemma InitialStationsValid(amount: int, homeStation: int)
    ensures StationsValid(InitialStations(amount, homeStation))
    ensures forall k :: 0 <= k < |InitialStations(amount, homeStation)| ==>
              (InitialStations(amount, homeStation)[k].home <==> k + 1 == homeStation)
  {
  }

  class Workstations {
    var stations: seq<Station>

    /** `Workstations(amount, home_station)`. */
    constructor (amount: int, homeStation: int)
      ensures stations == InitialStations(amount, homeStation)
    {
      var workstations := [];
      var i := 1;
      while i <= amount
        invariant (amount < 1 ==> i == 1) && (amount >= 1 ==> 1 <= i <= amount + 1)
        invariant workstations == InitialStations(i - 1, homeStation)
      {
        workstations := workstations + [NewStation(i, homeStation)];
        i := i + 1;
      }
      stations := workstations;
    }

    /** `is_free`: whether a station can take an order (the source's "no" is None). */
    method IsFree() returns (free: bool)
      ensures free <==> exists k :: 0 <= k < |stations| && Free(stations[k])
    {
      for k := 0 to |stations|
        invariant forall j :: 0 <= j < k ==> !Free(stations[j])
      {
        if !stations[k].home && !stations[k].usage {
          return true;
        }
      }
      return false;
    }

    /** `set_workstation_by_ordernumber`: the first free station serves the order; its id, or None. */
    method SetWorkstationByOrdernumber(ordernumber: int) returns (id: Option<string>)
      modifies this
      ensures stations == Assigned(old(stations), ordernumber)
      ensures id.Some? <==> FirstFree(old(stations)).Some?
      ensures id.Some? ==> id.value == old(stations)[FirstFree(old(stations)).value].id
    {
      for k := 0 to |stations|
        invariant stations == old(stations)
        invariant forall j :: 0 <= j < k ==> !Free(stations[j])
      {
        if !stations[k].home && !stations[k].usage {
          assert FirstFree(stations) == Some(k);
          stations := stations[k := stations[k].(usage := true, ordernumber := Some(ordernumber))];
          return Some(stations[k].id);
        }
      }
      return None;
    }

    /** `get_workstation_by_ordernumber`: the id of the first station serving the order, the home station included. */
    method GetWorkstationByOrdernumber(ordernumber: int) returns (id: Option<string>)
      ensures id.None? <==> forall k :: 0 <= k < |stations| ==> stations[k].ordernumber != Some(ordernumber)
      ensures id.Some? ==> exists k :: 0 <= k < |stations| && stations[k].ordernumber == Some(ordernumber) &&
                                       stations[k].id == id.value &&
                                       forall j :: 0 <= j < k ==> stations[j].ordernumber != Some(ordernumber)
    {
      for k := 0 to |stations|
        invariant forall j :: 0 <= j < k ==> stations[j].ordernumber != Some(ordernumber)
      {
        if stations[k].ordernumber == Some(ordernumber) {
          return Some(stations[k].id);
        }
      }
      return None;
    }

    /** `get_homestation`: the id of the first home station (None when there is none). */
    method GetHomestation() returns (id: Option<string>)
      ensures id.None? <==> forall k :: 0 <= k < |stations| ==> !stations[k].home
      ensures id.Some? ==> exists k :: 0 <= k < |stations| && stations[k].home && stations[k].id == id.value &&
                                       forall j :: 0 <= j < k ==> !stations[j].home
    {
      for k := 0 to |stations|
        invariant forall j :: 0 <= j < k ==> !stations[j].home
      {
        if stations[k].home {
          return Some(stations[k].id);
        }
      }
      return None;
    }

    /** `reset_workstation_by_ordernumber`: the first station serving the order is freed; false when none is. */
    method ResetWorkstationByOrdernumber(ordernumber: int) returns (reset: bool)
      modifies this
      ensures stations == Released(old(stations), ordernumber)
      ensures reset <==> FirstServing(old(stations), ordernumber).Some?
    {
      for k := 0 to |stations|
        invariant stations == old(stations)
        invariant forall j :: 0 <= j < k ==> stations[j].home || stations[j].ordernumber != Some(ordernumber)
      {
        if !stations[k].home && stations[k].ordernumber == Some(ordernumber) {
          assert FirstServing(stations, ordernumber) == Some(k);
          stations := stations[k := stations[k].(usage := false, ordernumber := None)];
          return true;
        }
      }
      return false;
    }
  }

  // ---------------------------------------------------------------------
  // Blocked phynodes, delivered carts and the robots' acknowledgements

  /** The carts (`Klt`) by name and the address of the phynode each carries. */
  const Klts: seq<(string, int)> := [
    ("klt01", 10), ("klt02", 11), ("klt03", 12), ("klt04", 13), ("klt05", 14),
    ("klt06", 50), ("klt07", 51), ("klt08", 52), ("klt09", 53), ("klt10", 54),
    ("klt11", 55), ("klt12", 56), ("klt13", 57), ("klt14", 58), ("klt15", 59)
  ]

  /** The value listed for a name in a table, None when the name is not listed. */
  function Lookup(table: seq<(string, int)>, name: string): (r: Option<int>)
    ensures r.Some? ==> exists i :: 0 <= i < |table| && table[i] == (name, r.value)
    ensures r.None? <==> forall i :: 0 <= i < |table| ==> table[i].0 != name
  {
    if table == [] then None
    else if table[0].0 == name then Some(table[0].1)
    else
      var r := Lookup(table[1..], name);
      assert forall i :: 1 <= i < |table| ==> table[i] == table[1..][i - 1];
      r
  }

  /** `Klt[name].value`: None where the source raises KeyError. */
  function KltValue(name: string): Option<int> {
    Lookup(Klts, name)
  }

  /** What a robot's acknowledgement asks for. */
  datatype AckEffect = Unblock(phyaddr: int) | Deliver(phyaddr: int) | NoEffect

  /**
   * `on_robot_ack`, up to its effect: with task_ack, action and cart_id
   * present, a cart arrived after a "return" is unblocked and one arrived
   * after a "deliver" is recorded as delivered; an unknown cart only logs.
   */
  function RobotAck(ack: Json.Object): (e: AckEffect)
    ensures e.Unblock? ==> "action" in ack && ack["action"] == Json.Str("return")
    ensures e.Deliver? ==> "action" in ack && ack["action"] == Json.Str("deliver")
    ensures !e.NoEffect? ==> "task_ack" in ack && ack["task_ack"] == Json.Str("arrived") && "cart_id" in ack &&
                              ack["cart_id"].Str? && KltValue(ack["cart_id"].s) == Some(e.phyaddr)
    ensures "task_ack" in ack && "action" in ack && "cart_id" in ack && ack["task_ack"] == Json.Str("arrived") &&
            (ack["action"] == Json.Str("return") || ack["action"] == Json.Str("deliver")) &&
            ack["cart_id"].Str? && KltValue(ack["cart_id"].s).Some? ==>
              e == if ack["action"] == Json.Str("return") then Unblock(KltValue(ack["cart_id"].s).value)
                   else Deliver(KltValue(ack["cart_id"].s).value)
  {
    if "task_ack" in ack && "action" in ack && "cart_id" in ack then
      var phyaddr := if ack["cart_id"].Str? then KltValue(ack["cart_id"].s) else None;
      if ack["task_ack"] == Json.Str("arrived") && ack["action"] == Json.Str("return") && phyaddr.Some? then
        Unblock(phyaddr.value)
      else if ack["task_ack"] == Json.Str("arrived") && ack["action"] == Json.Str("deliver") && phyaddr.Some? then
        Deliver(phyaddr.value)
      else NoEffect
    else NoEffect
  }

  /** The acknowledgement a robot sends for a cart by name. */
  function AckMessage(taskAck: string, action: string, cart: string): Json.Object {
    map["task_ack" := Json.Str(taskAck), "action" := Json.Str(action), "cart_id" := Json.Str(cart)]
  }

  /** Two cart names never stand for the same phynode, so an acknowledgement acts on its own cart. */
  lemma KltValueInjective(a: string, b: string)
    requires KltValue(a).Some? && KltValue(a) == KltValue(b)
    ensures a == b
  {
    var v := KltValue(a).value;
    var i :| 0 <= i < |Klts| && Klts[i] == (a, v);
    var j :| 0 <= j < |Klts| && Klts[j] == (b, v);
    KltAddresses();
  }

  /** Carts 1 to 5 carry phynodes 10 to 14, carts 6 to 15 carry 50 to 59. */
  lemma KltAddresses()
    ensures |Klts| == 15
    ensures forall x :: 0 <= x < |Klts| ==> Klts[x].1 == if x < 5 then 10 + x else 45 + x
  {
  }

  class OrderAdministration {
    /** `blocked_articles`: the phynodes blocked for orders. */
    var blocked: seq<int>
    /** `delivered_klts`: the carts whose delivery the robots acknowledged. */
    var delivered: seq<int>

    ghost predicate Valid()
      reads this
    {
      TaskManager.Distinct(delivered)
    }

    constructor ()
      ensures Valid() && blocked == [] && delivered == []
    {
      blocked := [];
      delivered := [];
    }

    /**
     * `block_phynode`, given the gateway's answer to the RSVE request (its
     * HTTP status, None when the request failed): the phynode is recorded
     * as blocked exactly when the answer was 200.
     */
    method BlockPhynode(phyaddr: int, status: Option<int>) returns (ok: bool)
      modifies this
      ensures ok <==> status == Some(200)
      ensures blocked == old(blocked) + (if ok then [phyaddr] else []) && delivered == old(delivered)
    {
      if status == Some(200) {
        blocked := blocked + [phyaddr];
        return true;
      }
      return false;
    }

    /** `unblock_phynode`: one copy of the phynode is no longer blocked; false when it was not blocked. */
    method UnblockPhynode(phyaddr: int) returns (removed: bool)
      modifies this
      ensures removed <==> phyaddr in old(blocked)
      ensures blocked == TaskManager.RemovedOnce(old(blocked), phyaddr) && delivered == old(delivered)
    {
      if phyaddr in blocked {
        blocked := TaskManager.RemovedOnce(blocked, phyaddr);
        return true;
      }
      return false;
    }

    /** `set_as_delivered`: recorded once, never twice. */
    method SetAsDelivered(phyaddr: int)
      requires Valid()
      modifies this
      ensures Valid() && blocked == old(blocked)
      ensures delivered == if phyaddr in old(delivered) then old(delivered) else old(delivered) + [phyaddr]
    {
      for k := 0 to |delivered|
        invariant forall j :: 0 <= j < k ==> delivered[j] != phyaddr
      {
        if delivered[k] == phyaddr {
          return;
        }
      }
      delivered := delivered + [phyaddr];
    }

    /**
     * `unset_as_delivered`: the list is walked while the match is removed
     * from it; with no repeats in it, exactly the cart is dropped.
     */
    method UnsetAsDelivered(phyaddr: int)
      requires Valid()
      modifies this
      ensures Valid() && blocked == old(blocked)
      ensures delivered == TaskManager.RemovedOnce(old(delivered), phyaddr)
      ensures phyaddr !in delivered
    {
      TaskManager.DistinctRemoved(delivered, phyaddr);
      var i := 0;
      while i < |delivered|
        invariant TaskManager.Distinct(delivered) && blocked == old(blocked)
        invariant delivered == old(delivered) ||
                  (phyaddr in old(delivered) && delivered == TaskManager.RemovedOnce(old(delivered), phyaddr))
        invariant delivered == old(delivered) ==> i <= |delivered| && phyaddr !in delivered[..i]
      {
        if delivered[i] == phyaddr {
          assert TaskManager.Index(delivered, phyaddr) == i;
          delivered := TaskManager.RemovedOnce(delivered, phyaddr);
        } else if delivered == old(delivered) {
          assert delivered[..i + 1] == delivered[..i] + [delivered[i]];
        }
        i := i + 1;
      }
      if delivered == old(delivered) {
        assert delivered[..i] == delivered;
      }
    }

    /** `is_delivered`. */
    method IsDelivered(phyaddr: int) returns (yes: bool)
      ensures yes <==> phyaddr in delivered
    {
      for k := 0 to |delivered|
        invariant forall j :: 0 <= j < k ==> delivered[j] != phyaddr
      {
        if delivered[k] == phyaddr {
          return true;
        }
      }
      return false;
    }

    /** `on_robot_ack`, for the decoded acknowledgement. */
    method OnRobotAck(ack: Json.Object)
      requires Valid()
      modifies this
      ensures Valid()
      ensures RobotAck(ack).Unblock? ==>
                blocked == TaskManager.RemovedOnce(old(blocked), RobotAck(ack).phyaddr) && delivered == old(delivered)
      ensures RobotAck(ack).Deliver? ==>
                blocked == old(blocked) &&
                delivered == if RobotAck(ack).phyaddr in old(delivered) then old(delivered) else old(delivered) + [RobotAck(ack).phyaddr]
      ensures RobotAck(ack).NoEffect? ==> blocked == old(blocked) && delivered == old(delivered)
    {
      match RobotAck(ack) {
        case Unblock(phyaddr) =>
          var _ := UnblockPhynode(phyaddr);
        case Deliver(phyaddr) =>
          SetAsDelivered(phyaddr);
        case NoEffect =>
      }
    }
  }

  /** Unblocking a phynode that was blocked once for an order leaves the blocked list as before. */
  lemma UnblockAfterBlock(blocked: seq<int>, phyaddr: int)
    requires phyaddr !in blocked
    ensures TaskManager.RemovedOnce(blocked + [phyaddr], phyaddr) == blocked
  {
    var s := blocked + [phyaddr];
    assert s[..|blocked|] == blocked;
    var i := TaskManager.Index(s, phyaddr);
    assert i == |blocked|;
    assert s[i + 1..] == [];
  }

  // ---------------------------------------------------------------------
  // Intern orders

  /** An article of an order: its number (the item descriptor) and the amount ordered. */
  datatype OrderedArticle = OrderedArticle(number: int, amount: int)

  /**
   * An entry of `intern_order_list`. Only the first entry, the empty cart,
   * has an `ack2` key; `returned` is the key `return`.
   */
  datatype InternOrder = InternOrder(
    ordernumber: int, itemdescr: int, amount: int, phyaddr: Option<int>, energy: Option<int>,
    ack: bool, ack2: Option<bool>, returned: bool, deliver: bool)

  /** The empty cart of order oid, which goes to the consolidation station. */
  function Cart(oid: int): InternOrder {
    InternOrder(oid * 10, 0, 0, None, None, false, Some(false), false, false)
  }

  /** The i-th article's intern order (1-based). */
  function ArticleOrder(oid: int, i: int, a: OrderedArticle): InternOrder {
    InternOrder(oid * 10 + i, a.number, a.amount, None, None, false, None, false, false)
  }

  /** `_create_intern_order_list`: the empty cart, then one intern order per article. */
  function InternOrderList(oid: int, articles: seq<OrderedArticle>): (r: seq<InternOrder>)
    ensures |r| == |articles| + 1
  {
    [Cart(oid)] + seq(|articles|, i requires 0 <= i < |articles| => ArticleOrder(oid, i + 1, articles[i]))
  }

  lemma InternOrderListStep(oid: int, articles: seq<OrderedArticle>, k: nat)
    requires k < |articles|
    ensures InternOrderList(oid, articles[..k + 1]) ==
            InternOrderList(oid, articles[..k]) + [ArticleOrder(oid, k + 1, articles[k])]
  {
    var a := InternOrderList(oid, articles[..k + 1]);
    var b := InternOrderList(oid, articles[..k]) + [ArticleOrder(oid, k + 1, articles[k])];
    assert |a| == |b|;
    forall i | 0 <= i < |a| ensures a[i] == b[i] {
      if 1 <= i <= k {
        assert articles[..k + 1][i - 1] == articles[..k][i - 1];
      }
    }
  }

  /**
   * The intern orders of an order: the cart first with ordernumber oid·10
   * and item 0, then article i with ordernumber oid·10 + i, its number and
   * amount; no phynode is assigned yet and nothing is acknowledged.
   */
  lemma InternOrderListShape(oid: int, articles: seq<OrderedArticle>)
    ensures var r := InternOrderList(oid, articles);
            r[0].ordernumber == oid * 10 && r[0].itemdescr == 0 && r[0].ack2 == Some(false) &&
            (forall i :: 1 <= i < |r| ==>
               r[i].ordernumber == oid * 10 + i && r[i].itemdescr == articles[i - 1].number &&
               r[i].amount == articles[i - 1].amount && r[i].ack2 == None) &&
            (forall i :: 0 <= i < |r| ==> r[i].phyaddr == None && !r[i].ack && !r[i].returned && !r[i].deliver)
  {
  }

  /** The ordernumbers of one order's intern orders are all different. */
  lemma InternNumbersDistinct(oid: int, articles: seq<OrderedArticle>)
    ensures var r := InternOrderList(oid, articles);
            forall i, j :: 0 <= i < j < |r| ==> r[i].ordernumber != r[j].ordernumber
  {
    InternOrderListShape(oid, articles);
  }

  /** Orders of fewer than ten articles never share an intern ordernumber. */
  lemma InternNumbersDisjoint(oid1: int, a1: seq<OrderedArticle>, oid2: int, a2: seq<OrderedArticle>)
    requires oid1 != oid2 && |a1| < 10 && |a2| < 10
    ensures var r1, r2 := InternOrderList(oid1, a1), InternOrderList(oid2, a2);
            forall i, j :: 0 <= i < |r1| && 0 <= j < |r2| ==> r1[i].ordernumber != r2[j].ordernumber
  {
    var r1, r2 := InternOrderList(oid1, a1), InternOrderList(oid2, a2);
    InternOrderListShape(oid1, a1);
    InternOrderListShape(oid2, a2);
    forall i, j | 0 <= i < |r1| && 0 <= j < |r2| ensures r1[i].ordernumber != r2[j].ordernumber {
      assert r1[i].ordernumber == oid1 * 10 + i && r2[j].ordernumber == oid2 * 10 + j;
      if oid1 < oid2 {
        assert oid1 * 10 + i < oid2 * 10;
      } else {
        assert oid2 * 10 + j < oid1 * 10;
      }
    }
  }

  /** With ten articles, an order's last intern order has the number of the next order's empty cart. */
  lemma TenthArticleCollides(oid: int, articles: seq<OrderedArticle>)
    requires |articles| == 10
    ensures InternOrderList(oid, articles)[10].ordernumber == InternOrderList(oid + 1, [])[0].ordernumber
  {
  }

  /** Stage 1 is done for an entry once an article (item other than 0) has a phynode. */
  predicate Located(e: InternOrder) {
    e.itemdescr != 0 ==> e.phyaddr.Some?
  }

  /** A fresh list passes stage 1 only when no entry is a real article. */
  lemma FreshListUnlocated(oid: int, articles: seq<OrderedArticle>)
    ensures var r := InternOrderList(oid, articles);
            (forall i :: 0 <= i < |r| ==> Located(r[i])) <==> forall i :: 0 <= i < |articles| ==> articles[i].number == 0
  {
    var r := InternOrderList(oid, articles);
    InternOrderListShape(oid, articles);
    if forall i :: 0 <= i < |r| ==> Located(r[i]) {
      forall i | 0 <= i < |articles| ensures articles[i].number == 0 {
        assert Located(r[i + 1]);
      }
    }
  }

  /** Whether the phynode of an entry is blocked, as `is_phynode_blocked(order['phyaddr'])` sees it. */
  predicate BlockedIn(e: InternOrder, blocked: seq<int>) {
    e.phyaddr.Some? && e.phyaddr.value in blocked
  }

  /** One round of stage 6: an entry whose phynode is no longer blocked has returned. */
  function MarkReturned(entries: seq<InternOrder>, blocked: seq<int>): (r: seq<InternOrder>)
    ensures |r| == |entries|
    ensures forall i :: 0 <= i < |entries| ==> r[i].returned == (entries[i].returned || !BlockedIn(entries[i], blocked))
    ensures forall i :: 0 <= i < |entries| ==> r[i] == entries[i].(returned := r[i].returned)
  {
    seq(|entries|, i requires 0 <= i < |entries| =>
      if !entries[i].returned && !BlockedIn(entries[i], blocked) then entries[i].(returned := true) else entries[i])
  }

  /** Every cart is back: what `_validate_stage_6` checks. */
  predicate AllReturned(entries: seq<InternOrder>) {
    forall i :: 0 <= i < |entries| ==> entries[i].returned
  }

  /** How a stage ends: failed, finished, or neither (left as it was). */
  datatype Outcome = Outcome(failed: bool, finished: bool)

  /**
   * `_stage_6` as written: the loop tests `not self._validate_stage_6`, a
   * bound method, which is never false, so no round runs and the stage
   * finishes whenever its time budget is not zero.
   */
  function Stage6AsWritten(entries: seq<InternOrder>, maxTime: int): (o: Outcome)
    ensures o.finished <==> maxTime != 0
    ensures o.failed <==> maxTime == 0
  {
    var sleep := maxTime;
    if sleep == 0 then Outcome(true, false) else Outcome(false, true)
  }

  /** As written, an order finishes while its cart is still blocked away from home. */
  lemma Stage6FinishesUnreturned(oid: int)
    ensures var entries := [Cart(oid).(phyaddr := Some(10))];
            Stage6AsWritten(entries, 1).finished && !AllReturned(entries) &&
            !AllReturned(MarkReturned(entries, [10]))
  {
    var entries := [Cart(oid).(phyaddr := Some(10))];
    assert !entries[0].returned;
    assert BlockedIn(entries[0], [10]);
  }

  class OrderProcessing {
    const orderId: int
    var internOrders: seq<InternOrder>
    var workstationId: Option<string>
    var failed: bool
    var finished: bool

    constructor (orderId: int)
      ensures this.orderId == orderId && internOrders == [] && workstationId == None && !failed && !finished
    {
      this.orderId := orderId;
      internOrders := [];
      workstationId := None;
      failed := false;
      finished := false;
    }

    /** `_create_intern_order_list`, appending to the list. */
    method CreateInternOrderList(articles: seq<OrderedArticle>)
      modifies this
      ensures internOrders == old(internOrders) + InternOrderList(orderId, articles)
      ensures workstationId == old(workstationId) && failed == old(failed) && finished == old(finished)
    {
      internOrders := internOrders + [Cart(orderId)];
      assert articles[..0] == [];
      assert InternOrderList(orderId, []) == [Cart(orderId)];
      var index := 1;
      while index <= |articles|
        invariant 1 <= index <= |articles| + 1
        invariant internOrders == old(internOrders) + InternOrderList(orderId, articles[..index - 1])
        invariant workstationId == old(workstationId) && failed == old(failed) && finished == old(finished)
      {
        InternOrderListStep(orderId, articles, index - 1);
        internOrders := internOrders + [ArticleOrder(orderId, index, articles[index - 1])];
        index := index + 1;
      }
      assert articles[..index - 1] == articles;
    }

    /** `_validate_stage_1`: every article has a phynode. */
    method ValidateStage1() returns (ok: bool)
      ensures ok <==> forall i :: 0 <= i < |internOrders| ==> Located(internOrders[i])
    {
      for i := 0 to |internOrders|
        invariant forall k :: 0 <= k < i ==> Located(internOrders[k])
      {
        if internOrders[i].itemdescr != 0 && internOrders[i].phyaddr.None? {
          return false;
        }
      }
      return true;
    }

    /** `_validate_stage_2`: the empty cart has a phynode; IndexError for an empty list. */
    function ValidateStage2(): (r: Result<bool, string>)
      reads this
      ensures internOrders == [] <==> r == Err("IndexError")
      ensures r.Ok? ==> (r.value <==> internOrders[0].phyaddr.Some?)
    {
      if internOrders == [] then Err("IndexError") else Ok(internOrders[0].phyaddr.Some?)
    }

    /** `_validate_stage_3`: a workstation is taken and every entry's phynode is blocked. */
    method ValidateStage3(oa: OrderAdministration) returns (ok: bool)
      ensures ok <==> workstationId.Some? && forall i :: 0 <= i < |internOrders| ==> BlockedIn(internOrders[i], oa.blocked)
    {
      var allBlocked := true;
      for i := 0 to |internOrders|
        invariant allBlocked <==> forall k :: 0 <= k < i ==> BlockedIn(internOrders[k], oa.blocked)
      {
        var p := internOrders[i].phyaddr;
        if !(p.Some? && p.value in oa.blocked) {
          allBlocked := false;
        }
      }
      return workstationId.Some? && allBlocked;
    }

    /** `_validate_stage_4`: every phynode has acknowledged. */
    method ValidateStage4() returns (ok: bool)
      ensures ok <==> forall i :: 0 <= i < |internOrders| ==> internOrders[i].ack
    {
      for i := 0 to |internOrders|
        invariant forall k :: 0 <= k < i ==> internOrders[k].ack
      {
        if !internOrders[i].ack {
          return false;
        }
      }
      return true;
    }

    /** `_validate_stage_6`: every cart is back. */
    method ValidateStage6() returns (ok: bool)
      ensures ok <==> AllReturned(internOrders)
    {
      for i := 0 to |internOrders|
        invariant forall k :: 0 <= k < i ==> internOrders[k].returned
      {
        if !internOrders[i].returned {
          return false;
        }
      }
      return true;
    }

    /** One round of `_stage_6` against the phynodes blocked at that moment. */
    method MarkReturnedRound(blocked: seq<int>)
      modifies this
      ensures internOrders == MarkReturned(old(internOrders), blocked)
      ensures workstationId == old(workstationId) && failed == old(failed) && finished == old(finished)
    {
      ghost var before := internOrders;
      for i := 0 to |internOrders|
        invariant |internOrders| == |before|
        invariant forall k :: 0 <= k < i ==> internOrders[k] == MarkReturned(before, blocked)[k]
        invariant forall k :: i <= k < |internOrders| ==> internOrders[k] == before[k]
        invariant workstationId == old(workstationId) && failed == old(failed) && finished == old(finished)
      {
        var e := internOrders[i];
        if !e.returned && !(e.phyaddr.Some? && e.phyaddr.value in blocked) {
          internOrders := internOrders[i := e.(returned := true)];
        }
      }
    }

    /**
     * `_stage_6` with its check called: while some cart is out and budget
     * is left, a round marks the carts whose phynode is no longer blocked
     * (`blockedAt(r)` lists the phynodes blocked during round r) and,
     * unless every cart is then back, spends one tick. A positive budget
     * finishes the stage exactly when every cart came back and fails it
     * otherwise; a zero budget fails it, a negative one finishes it at once.
     */
    method Stage6(maxTime: int, blockedAt: nat -> seq<int>)
      modifies this
      ensures workstationId == old(workstationId) && |internOrders| == |old(internOrders)|
      ensures forall i :: 0 <= i < |old(internOrders)| && old(internOrders)[i].returned ==> internOrders[i].returned
      ensures maxTime > 0 && AllReturned(internOrders) ==> finished && failed == old(failed)
      ensures maxTime > 0 && !AllReturned(internOrders) ==> failed && finished == old(finished)
      ensures maxTime == 0 ==> failed && finished == old(finished) && internOrders == old(internOrders)
      ensures maxTime < 0 ==> finished && failed == old(failed) && internOrders == old(internOrders)
    {
      var sleep := maxTime;
      var round: nat := 0;
      while !AllReturned(internOrders) && sleep > 0
        invariant |internOrders| == |old(internOrders)| && workstationId == old(workstationId)
        invariant failed == old(failed) && finished == old(finished)
        invariant forall i :: 0 <= i < |old(internOrders)| && old(internOrders)[i].returned ==> internOrders[i].returned
        invariant maxTime > 0 ==> 0 <= sleep <= maxTime
        invariant maxTime > 0 && sleep == 0 ==> !AllReturned(internOrders)
        invariant maxTime <= 0 ==> sleep == maxTime && internOrders == old(internOrders)
        decreases (if sleep < 0 then 0 else sleep) + (if AllReturned(internOrders) then 0 else 1)
      {
        MarkReturnedRound(blockedAt(round));
        round := round + 1;
        if !AllReturned(internOrders) {
          sleep := sleep - 1;
        }
      }
      if sleep == 0 {
        failed := true;
      } else {
        finished := true;
      }
    }
  }
}
