/**
 * The gateway's address assignment for phynodes (gateway_interface.py,
 * DHCP): a node known by its unique id (duid) is offered the next free
 * address in a SADR request; its acknowledgement, recognised by the
 * request's sequence number, completes the assignment. Building the radio
 * packet around the request and sending it are not modelled.
 */
module Dhcp {
  import opened Wrappers
  import opened TextSplit
  import opened PyInt
  import opened RadioProtocol

  datatype DeviceState = OfferSent | Complete

  /** A device record: its id, the address offered, its state and the sequence number of the last offer. */
  datatype Device = Device(duid: int, addr: int, state: DeviceState, seqnr: int)

  /** The position of the device with the id. */
  function IndexOfDuid(devices: seq<Device>, duid: int): (r: Option<nat>)
    ensures r.Some? ==> r.value < |devices| && devices[r.value].duid == duid
    ensures r.None? <==> forall i :: 0 <= i < |devices| ==> devices[i].duid != duid
  {
    if devices == [] then None
    else if devices[0].duid == duid then Some(0)
    else match IndexOfDuid(devices[1..], duid) case None => None case Some(k) => Some(k + 1)
  }

  /** The position of the first device whose last offer carried the sequence number. */
  function FirstWithSeqnr(devices: seq<Device>, seqnr: int): (r: Option<nat>)
    ensures r.Some? ==> r.value < |devices| && devices[r.value].seqnr == seqnr
    ensures r.Some? ==> forall i :: 0 <= i < r.value ==> devices[i].seqnr != seqnr
    ensures r.None? <==> forall i :: 0 <= i < |devices| ==> devices[i].seqnr != seqnr
  {
    if devices == [] then None
    else if devices[0].seqnr == seqnr then Some(0)
    else match FirstWithSeqnr(devices[1..], seqnr) case None => None case Some(k) => Some(k + 1)
  }

  /**
   * Ids and addresses are unique, every address was handed out before
   * `nextAddr`, and an address is indexed exactly when its device has
   * completed.
   */
  ghost predicate DevicesValid(devices: seq<Device>, byAddr: map<int, nat>, nextAddr: int) {
    nextAddr >= 1 &&
    (forall i, j :: 0 <= i < j < |devices| ==> devices[i].duid != devices[j].duid && devices[i].addr != devices[j].addr) &&
    (forall i :: 0 <= i < |devices| ==> 1 <= devices[i].addr < nextAddr) &&
    (forall a :: a in byAddr ==> byAddr[a] < |devices| && devices[byAddr[a]].addr == a && devices[byAddr[a]].state == Complete) &&
    (forall i :: 0 <= i < |devices| && devices[i].state == Complete ==> devices[i].addr in byAddr && byAddr[devices[i].addr] == i)
  }

  /** A new id, offered the next address, keeps the records consistent. */
  lemma OfferNewValid(devices: seq<Device>, byAddr: map<int, nat>, nextAddr: int, duid: int, seqnr: int)
    requires DevicesValid(devices, byAddr, nextAddr) && IndexOfDuid(devices, duid).None?
    ensures DevicesValid(devices + [Device(duid, nextAddr, OfferSent, seqnr)], byAddr, nextAddr + 1)
  {
  }

  /** A renewed offer to a known id keeps the records consistent. */
  lemma OfferAgainValid(devices: seq<Device>, byAddr: map<int, nat>, nextAddr: int, k: nat, seqnr: int)
    requires DevicesValid(devices, byAddr, nextAddr) && k < |devices| && devices[k].state == OfferSent
    ensures DevicesValid(devices[k := devices[k].(seqnr := seqnr)], byAddr, nextAddr)
  {
  }

  class Dhcp {
    const proto: CCPhyParser
    /** `by_duid`, in the order the devices were first offered an address. */
    var devices: seq<Device>
    /** `by_addr`: each completed address and the position of its device record in `devices`. */
    var byAddr: map<int, nat>
    var nextAddr: int

    /** The records are consistent (see DevicesValid). */
    ghost predicate Valid()
      reads this
    {
      DevicesValid(devices, byAddr, nextAddr)
    }

    constructor (proto: CCPhyParser)
      ensures Valid() && this.proto == proto
      ensures devices == [] && byAddr == map[] && nextAddr == 1
    {
      this.proto := proto;
      devices := [];
      byAddr := map[];
      nextAddr := 1;
    }

    /** `clients`, as a set: the addresses of exactly the devices that have completed. */
    function Clients(): (cs: set<int>)
      requires Valid()
      reads this
      ensures forall a :: a in cs <==> exists i :: 0 <= i < |devices| && devices[i].addr == a && devices[i].state == Complete
    {
      byAddr.Keys
    }

    /**
     * `offer`: a new id is offered `nextAddr`, which then advances; a known
     * id that has not completed is offered its address again under a new
     * sequence number; a completed one gets nothing. The request sent is
     * returned; the device records the sequence number it carries.
     */
    method Offer(duid: int) returns (request: Option<string>)
      requires Valid()
      modifies this, proto
      ensures Valid()
      ensures proto.replies == old(proto.replies)
      ensures request.Some? ==> proto.seqnr == (old(proto.seqnr) + 1) % 255
      ensures request.None? ==> proto.seqnr == old(proto.seqnr)
      ensures IndexOfDuid(old(devices), duid).None? ==>
                devices == old(devices) + [Device(duid, old(nextAddr), OfferSent, old(proto.seqnr))] &&
                nextAddr == old(nextAddr) + 1 && byAddr == old(byAddr) &&
                request.Some? &&
                Split(request.value, " ") == ["SADR", "Q", Decimal(old(proto.seqnr)), Decimal(duid), Decimal(old(nextAddr))]
      ensures IndexOfDuid(old(devices), duid).Some? ==>
                var k := IndexOfDuid(old(devices), duid).value;
                nextAddr == old(nextAddr) && byAddr == old(byAddr) &&
                if old(devices)[k].state == Complete then
                  devices == old(devices) && request == None && proto.seqnr == old(proto.seqnr)
                else
                  devices == old(devices)[k := old(devices)[k].(seqnr := old(proto.seqnr))] &&
                  request.Some? &&
                  Split(request.value, " ") == ["SADR", "Q", Decimal(old(proto.seqnr)), Decimal(duid), Decimal(old(devices)[k].addr)]
    {
      var found := IndexOfDuid(devices, duid);
      match found {
        case None =>
          OfferNewValid(devices, byAddr, nextAddr, duid, proto.seqnr);
          devices := devices + [Device(duid, nextAddr, OfferSent, proto.seqnr)];
          var msg := proto.CreateSadrRequest(0, duid, nextAddr);
          request := Some(msg);
          nextAddr := nextAddr + 1;
        case Some(k) =>
          if devices[k].state == Complete {
            return None;
          }
          OfferAgainValid(devices, byAddr, nextAddr, k, proto.seqnr);
          devices := devices[k := devices[k].(seqnr := proto.seqnr)];
          var msg := proto.CreateSadrRequest(0, duid, devices[k].addr);
          request := Some(msg);
      }
    }

    /**
     * `ack`: the first device whose last offer carried the sequence number
     * completes and is indexed by its address; false when there is none
     * (the source reports it and changes nothing).
     */
    method Ack(seqnr: int) returns (found: bool)
      requires Valid()
      modifies this
      ensures Valid()
      ensures found <==> FirstWithSeqnr(old(devices), seqnr).Some?
      ensures !found ==> devices == old(devices) && byAddr == old(byAddr)
      ensures found ==>
                var k := FirstWithSeqnr(old(devices), seqnr).value;
                devices == old(devices)[k := old(devices)[k].(state := Complete)] &&
                byAddr == old(byAddr)[old(devices)[k].addr := k]
      ensures nextAddr == old(nextAddr)
    {
      var i := 0;
      while i < |devices|
        invariant 0 <= i <= |devices| && devices == old(devices) && byAddr == old(byAddr) && nextAddr == old(nextAddr)
        invariant forall j :: 0 <= j < i ==> devices[j].seqnr != seqnr
      {
        if devices[i].seqnr == seqnr {
          assert FirstWithSeqnr(devices, seqnr) == Some(i);
          var addr := devices[i].addr;
          devices := devices[i := devices[i].(state := Complete)];
          byAddr := byAddr[addr := i];
          return true;
        }
        i := i + 1;
      }
      return false;
    }
  }
}
