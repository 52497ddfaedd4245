/**
 * The packet formats of the radio gateway (gateway_interface.py): a CC1200
 * packet (two status bytes, the payload length, the address, the payload)
 * and the access-point packet that adds the number of the radio module, as
 * they are built, written to the transmit FIFO and read back from the
 * receive FIFO. Python's dynamic arguments are the datatype `Arg`.
 */
module RadioPackets {
  import opened Wrappers
  import opened TextSplit

  datatype CCPacket = CCPacket(status1: int, status2: int, length: int, address: int, payload: seq<Byte>)

  /** A constructor argument: an `int` (not a bool), a `bytes`/`bytearray`, a CCPacket, or anything else. */
  datatype Arg = IntArg(i: int) | BytesArg(bytes: seq<Byte>) | PacketArg(packet: CCPacket) | OtherArg

  /** `len(packet)`: the header's four bytes and the payload. */
  function Len(p: CCPacket): nat {
    4 + |p.payload|
  }

  /** The length field agrees with the payload, as in every packet the constructor makes. */
  predicate Consistent(p: CCPacket) {
    p.length == |p.payload|
  }

  /**
   * `CCPacket(address, payload)`: TypeError unless the payload is bytes and
   * the address an int (the payload is checked first); zero status bytes.
   */
  function NewCCPacket(address: Arg, payload: Arg): (r: Result<CCPacket, string>)
    ensures r.Ok? <==> payload.BytesArg? && address.IntArg?
    ensures r.Err? ==> r.error == "TypeError"
    ensures r.Ok? ==>
              r.value.payload == payload.bytes && r.value.address == address.i &&
              r.value.status1 == 0 && r.value.status2 == 0 &&
              Consistent(r.value) && Len(r.value) == 4 + |payload.bytes|
  {
    if !payload.BytesArg? then Err("TypeError")
    else if !address.IntArg? then Err("TypeError")
    else Ok(CCPacket(0, 0, |payload.bytes|, address.i, payload.bytes))
  }

  predicate IsByte(x: int) {
    0 <= x < 256
  }

  /** A byte of a Python `bytes` value. */
  type Byte = x: int | 0 <= x < 256

  /**
   * `get_bytes`: struct.pack('BBBB%ds') of the status bytes, the payload
   * length, the address and the payload; struct.error when one of the four
   * header values does not fit in a byte.
   */
  function GetBytes(p: CCPacket): (r: Result<seq<Byte>, string>)
    ensures r.Ok? <==> IsByte(p.status1) && IsByte(p.status2) && |p.payload| < 256 && IsByte(p.address)
    ensures r.Err? ==> r.error == "struct.error"
    ensures r.Ok? ==>
              |r.value| == Len(p) && r.value[4..] == p.payload &&
              r.value[0] == p.status1 && r.value[1] == p.status2 &&
              r.value[2] == |p.payload| && r.value[3] == p.address
  {
    if IsByte(p.status1) && IsByte(p.status2) && |p.payload| < 256 && IsByte(p.address) then
      Ok([p.status1 as Byte, p.status2 as Byte, |p.payload| as Byte, p.address as Byte] + p.payload)
    else Err("struct.error")
  }

  datatype APPacket = APPacket(radio: int, pkt: CCPacket)

  /**
   * `init_cc`: TypeError unless the second argument is a CCPacket and the
   * module an int, ValueError unless the module is in range(0, 4).
   */
  function InitCc(radio: Arg, cc: Arg): (r: Result<APPacket, string>)
    ensures r.Ok? <==> cc.PacketArg? && radio.IntArg? && 0 <= radio.i < 4
    ensures r.Ok? ==> r.value == APPacket(radio.i, cc.packet)
    ensures cc.PacketArg? && radio.IntArg? && !(0 <= radio.i < 4) ==> r == Err("ValueError")
  {
    if !cc.PacketArg? then Err("TypeError")
    else if !radio.IntArg? then Err("TypeError")
    else if !(0 <= radio.i < 4) then Err("ValueError")
    else Ok(APPacket(radio.i, cc.packet))
  }

  /**
   * `APPacket(*args)`: (module, cc_pkt) or (module, address, payload);
   * ValueError for any other number of arguments.
   */
  function NewAPPacket(args: seq<Arg>): (r: Result<APPacket, string>)
    ensures |args| != 2 && |args| != 3 ==> r == Err("ValueError")
    ensures r.Ok? ==> 0 <= r.value.radio < 4
    ensures |args| == 3 ==>
              (r.Ok? <==> args[0].IntArg? && 0 <= args[0].i < 4 && args[1].IntArg? && args[2].BytesArg?)
    ensures |args| == 3 && r.Ok? ==>
              r.value.pkt == CCPacket(0, 0, |args[2].bytes|, args[1].i, args[2].bytes)
  {
    if |args| == 2 then InitCc(args[0], args[1])
    else if |args| == 3 then
      match NewCCPacket(args[1], args[2])
      case Err(e) => Err(e)
      case Ok(cc) => InitCc(args[0], PacketArg(cc))
    else Err("ValueError")
  }

  /**
   * `send`: the bytes written to the transmit FIFO, the module number in
   * front of the packet's bytes. The FIFO write is not modelled.
   */
  function SendBytes(ap: APPacket): (r: Result<seq<Byte>, string>)
    ensures r.Ok? <==> IsByte(ap.radio) && GetBytes(ap.pkt).Ok?
    ensures r.Ok? ==> r.value == [ap.radio as Byte] + GetBytes(ap.pkt).value && |r.value| == 1 + Len(ap.pkt)
  {
    if !IsByte(ap.radio) then Err("struct.error")
    else
      match GetBytes(ap.pkt)
      case Err(e) => Err(e)
      case Ok(b) => Ok([ap.radio as Byte] + b)
  }

  /**
   * One packet read by `_rx_loop`: struct.unpack('BBBBB%ds') into module,
   * status bytes, length, address and payload (struct.error when fewer than
   * five bytes came), then a CCPacket of the address and payload with the
   * status bytes set, wrapped with the module number. The length byte is
   * read but not used.
   */
  function Unpack(dat: seq<Byte>): (r: Result<APPacket, string>)
    ensures |dat| < 5 ==> r == Err("struct.error")
    ensures |dat| >= 5 ==> (r.Ok? <==> dat[0] < 4)
    ensures |dat| >= 5 && dat[0] >= 4 ==> r == Err("ValueError")
    ensures r.Ok? ==>
              r.value.radio == dat[0] && r.value.pkt.status1 == dat[1] &&
              r.value.pkt.status2 == dat[2] && r.value.pkt.address == dat[4] &&
              r.value.pkt.payload == dat[5..] && Consistent(r.value.pkt)
  {
    if |dat| < 5 then Err("struct.error")
    else
      var cc := NewCCPacket(IntArg(dat[4]), BytesArg(dat[5..])).value;
      InitCc(IntArg(dat[0]), PacketArg(cc.(status1 := dat[1], status2 := dat[2])))
  }

  /**
   * Reading back what `send` wrote gives the packet again, with its length
   * field recomputed from the payload.
   */
  lemma UnpackOfSend(ap: APPacket)
    requires 0 <= ap.radio < 4 && SendBytes(ap).Ok?
    ensures Unpack(SendBytes(ap).value) == Ok(APPacket(ap.radio, ap.pkt.(length := |ap.pkt.payload|)))
  {
    var dat := SendBytes(ap).value;
    assert dat[1..] == GetBytes(ap.pkt).value;
    assert dat[5..] == GetBytes(ap.pkt).value[4..];
  }

  /** A packet built from module, address and payload comes back from its bytes as it was built. */
  lemma NewPacketRoundTrip(radio: int, address: int, payload: seq<Byte>)
    requires NewAPPacket([IntArg(radio), IntArg(address), BytesArg(payload)]).Ok?
    requires IsByte(address) && |payload| < 256
    ensures var ap := NewAPPacket([IntArg(radio), IntArg(address), BytesArg(payload)]).value;
            SendBytes(ap).Ok? && Unpack(SendBytes(ap).value) == Ok(ap)
  {
    var ap := NewAPPacket([IntArg(radio), IntArg(address), BytesArg(payload)]).value;
    UnpackOfSend(ap);
  }

  /** Only modules 0 to 3 exist: a packet for module 4 is refused. */
  lemma ModuleFourRefused(address: int, payload: seq<Byte>)
    ensures NewAPPacket([IntArg(4), IntArg(address), BytesArg(payload)]) == Err("ValueError")
  {
  }

  /** The separator between packets in the receive FIFO, b'\r\n'. */
  const CRLF: seq<Byte> := [13, 10]

  /** The pieces `_rx_loop` handles: those before the first empty one. */
  function Frames(parts: seq<seq<Byte>>): (fs: seq<seq<Byte>>)
    ensures |fs| <= |parts| && fs == parts[..|fs|]
    ensures forall i :: 0 <= i < |fs| ==> |fs[i]| > 0
    ensures |fs| < |parts| ==> parts[|fs|] == []
  {
    if parts == [] || parts[0] == [] then []
    else [parts[0]] + Frames(parts[1..])
  }

  /** The packets of one read of the receive FIFO: `data.split(b'\r\n')` up to the first empty piece. */
  function Received(data: seq<Byte>): seq<seq<Byte>> {
    Frames(Split(data, CRLF))
  }

  /**
   * Non-empty frames, none containing b'\r\n', each followed by b'\r\n' in
   * the FIFO, are received as they were written.
   */
  lemma ReceivedOfFramed(frames: seq<seq<Byte>>)
    requires forall i :: 0 <= i < |frames| ==> |frames[i]| > 0 && Find(frames[i], CRLF).None?
    ensures Received(Join(frames + [[]], CRLF)) == frames
  {
    var parts := frames + [[]];
    forall i | 0 <= i < |parts| ensures Find(parts[i] + CRLF, CRLF) == Some(|parts[i]|) {
      SeparablePair(parts[i], CRLF);
    }
    SplitJoin(parts, CRLF);
    FramesStop(frames);
  }

  lemma {:induction false} FramesStop(frames: seq<seq<Byte>>)
    requires forall i :: 0 <= i < |frames| ==> |frames[i]| > 0
    ensures Frames(frames + [[]]) == frames
    decreases |frames|
  {
    if frames != [] {
      assert (frames + [[]])[1..] == frames[1..] + [[]];
      FramesStop(frames[1..]);
    }
  }
}
