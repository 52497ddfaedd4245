/**
 * The lines the gateway reads from the radio's serial port
 * (gateway_interface.py, LineReader and SerialReader): each line is a
 * command word, a mode letter and fields separated by single spaces.
 * Replies (mode R) are logged with the protocol parser or stored with the
 * phynode table; messages (mode M) update the table. Lines arrive in
 * chunks and are separated by "\n\r".
 *
 * Parsing a line never changes anything before all its numbers are read,
 * so a line is first classified into the action it asks for (`Classify`)
 * and the action is then carried out (`Apply`).
 */
module RadioLines {
  import opened Wrappers
  import opened TextSplit
  import opened PyInt
  import opened RadioProtocol
  import opened PhynodeTable

  /** What one line asks for. */
  datatype Action =
    | Invalid                                   // fewer than two words: reported, nothing changes
    | Rejected                                  // wrong number of fields: reported, nothing changes
    | Raises(error: string)                     // a field that is not a number, or a missing one
    | Ignored                                   // understood, nothing is recorded
    | Log(seqnr: int, reply: Reply)             // a reply for the protocol parser
    | Reserve(seqnr: int, ordernumber: int)     // a RSVE reply: logged, then the order's node is blocked
    | StorePoll(poll: Poll)                     // a POLL reply for the phynode table
    | Restore(phyaddr: int, ordernumber: int)   // a RSTO message
    | Energy(phyaddr: int, energy: int)         // a FULE or LOWE message

  /** `int()` of every field, None when one of them is not a decimal number. */
  function Ints(ts: seq<string>): (r: Option<seq<int>>)
    ensures r.Some? ==> |r.value| == |ts| && forall i :: 0 <= i < |ts| ==> ParseDecimal(ts[i]) == Some(r.value[i])
    ensures r.None? <==> exists i :: 0 <= i < |ts| && ParseDecimal(ts[i]).None?
  {
    if ts == [] then Some([])
    else
      match ParseDecimal(ts[0])
      case None => None
      case Some(v) =>
        match Ints(ts[1..])
        case None => None
        case Some(vs) => Some([v] + vs)
  }

  /** The action of a reply (mode R) with command word `instr` and fields `p`. */
  function ClassifyReply(instr: string, p: seq<string>): Action {
    if instr == "PING" then
      if |p| == 0 then Raises("IndexError")
      else if Ints(p[..1]).None? then Raises("ValueError") else Ignored
    else if instr == "DUID" then
      if |p| != 3 then Rejected
      else match Ints(p) case None => Raises("ValueError") case Some(v) => Log(v[0], UidReply(v[1], v[0]))
    else if instr == "SADR" || instr == "CHNL" then
      if |p| != 2 || p[1] != "ACK" then Rejected
      else match Ints(p[..1]) case None => Raises("ValueError") case Some(v) => Log(v[0], AckReply)
    else if instr == "STAT" then
      if |p| != 2 then Rejected
      else if Ints(p).None? then Raises("ValueError") else Ignored
    else if instr == "BATS" then
      if |p| != 2 then Rejected
      else match Ints(p[..1]) case None => Raises("ValueError") case Some(v) => Log(v[0], AckReply)
    else if instr == "POLL" then
      if |p| != 5 then Rejected
      else match Ints(p) case None => Raises("ValueError") case Some(v) => StorePoll(Poll(v[1], v[2], v[3], v[4]))
    else if instr == "ENUM" then
      if |p| != 6 then Rejected
      else match Ints(p) case None => Raises("ValueError") case Some(v) => Log(v[0], EnumReply(v[1], v[2], v[3], v[4], v[5]))
    else if instr == "DLVR" then
      if |p| != 1 then Rejected
      else if Ints(p).None? then Raises("ValueError") else Ignored
    else if instr == "ISRT" || instr == "SETI" then
      if |p| != 1 then Rejected
      else match Ints(p) case None => Raises("ValueError") case Some(v) => Log(v[0], AckReply)
    else if instr == "RSVE" then
      if |p| != 2 then Rejected
      else match Ints(p) case None => Raises("ValueError") case Some(v) => Reserve(v[0], v[1])
    else Ignored
  }

  /** The action of a message (mode M) with command word `instr` and fields `p`. */
  function ClassifyMessage(instr: string, p: seq<string>): Action {
    if instr == "RSTO" then
      if |p| < 3 then Rejected
      else match Ints(p[..3]) case None => Raises("ValueError") case Some(v) => Restore(v[0], v[2])
    else if instr == "FULE" || instr == "LOWE" then
      if |p| != 2 then Rejected
      else match Ints(p) case None => Raises("ValueError") case Some(v) => Energy(v[0], v[1])
    else Ignored
  }

  /** `parse_line`, up to its effects: the words of the line split at single spaces. */
  function Classify(line: string): Action {
    var w := Split(line, " ");
    if |w| < 2 then Invalid
    else if w[1] == "R" then ClassifyReply(w[0], w[2..])
    else if w[1] == "M" then ClassifyMessage(w[0], w[2..])
    else Ignored
  }

  /** The state the lines act on: the parser's reply log and the phynode table. */
  datatype Radio = Radio(replies: map<int, seq<Reply>>, phynodes: seq<Phynode>, polls: seq<Poll>)

  /** Nothing is forgotten: the same reply lists and nodes, each list and the poll list only longer. */
  predicate Grows(a: Radio, b: Radio) {
    b.replies.Keys == a.replies.Keys &&
    (forall k :: k in a.replies ==> a.replies[k] <= b.replies[k]) &&
    SameNodes(a.phynodes, b.phynodes) && a.polls <= b.polls
  }

  lemma GrowsTransitive(a: Radio, b: Radio, c: Radio)
    requires Grows(a, b) && Grows(b, c)
    ensures Grows(a, c)
  {
  }

  /**
   * Carrying out an action at clock reading `t`: the error it raises, if
   * any. A line that raises changes nothing.
   */
  function Apply(a: Action, st: Radio, t: string): (r: (Radio, Option<string>))
    ensures r.1.Some? ==> r.0 == st
    ensures r.1.Some? <==> a.Raises? || ((a.Log? || a.Reserve?) && a.seqnr !in st.replies)
    ensures Grows(st, r.0)
  {
    match a
    case Raises(e) => (st, Some(e))
    case Log(s, reply) =>
      if s in st.replies then (st.(replies := st.replies[s := st.replies[s] + [reply]]), None)
      else (st, Some("KeyError"))
    case Reserve(s, o) =>
      if s in st.replies then
        (st.(replies := st.replies[s := st.replies[s] + [ReserveReply(o)]],
             phynodes := BlockedForOrder(st.phynodes, o)), None)
      else (st, Some("KeyError"))
    case StorePoll(poll) =>
      (st.(polls := st.polls + [poll], phynodes := EnergyUpdated(st.phynodes, poll.phyaddr, poll.energy, t)), None)
    case Restore(phyaddr, o) => (st.(phynodes := RstoApplied(st.phynodes, phyaddr, o)), None)
    case Energy(phyaddr, e) => (st.(phynodes := EnergyUpdated(st.phynodes, phyaddr, e, t)), None)
    case _ => (st, None)
  }

  /**
   * `parse_lines`: the lines one after the other, stopping at the first
   * that raises; what the earlier lines did stays done.
   */
  function RunLines(lines: seq<string>, st: Radio, t: string): (r: (Radio, Option<string>))
    ensures Grows(st, r.0)
    ensures r.1.None? ==> forall i :: 0 <= i < |lines| ==> !Classify(lines[i]).Raises?
    decreases |lines|
  {
    if lines == [] then (st, None)
    else
      var (next, e) := Apply(Classify(lines[0]), st, t);
      if e.Some? then (next, e)
      else
        var r := RunLines(lines[1..], next, t);
        GrowsTransitive(st, next, r.0);
        assert forall i :: 1 <= i < |lines| ==> lines[i] == lines[1..][i - 1];
        r
  }

  /** A line as a phynode sends it: command word, mode and fields, spaced. */
  function Line(instr: string, mode: string, fields: seq<string>): string {
    Join([instr, mode] + fields, " ")
  }

  /** The words of such a line are the ones it was made of. */
  lemma WordsOfLine(instr: string, mode: string, fields: seq<string>)
    requires ' ' !in instr && ' ' !in mode && forall i :: 0 <= i < |fields| ==> ' ' !in fields[i]
    ensures Split(Line(instr, mode, fields), " ") == [instr, mode] + fields
  {
    var words := [instr, mode] + fields;
    forall i | 0 <= i < |words| ensures ' ' !in words[i] {
      if i >= 2 {
        assert words[i] == fields[i - 2];
      }
    }
    WordsOfJoin(words);
  }

  /** The numbers of a line read back as they were written. */
  lemma IntsOfDecimals(xs: seq<int>)
    ensures Ints(Decimals(xs)) == Some(xs)
  {
    var ds := Decimals(xs);
    forall i | 0 <= i < |xs| ensures ParseDecimal(ds[i]) == Some(xs[i]) {
      ParseDecimalOfDecimal(xs[i]);
    }
    var r := Ints(ds);
    assert r.Some?;
    assert r.value == xs;
  }

  /** A line made of numbers has no spaces inside its fields. */
  lemma NumericLineWords(instr: string, mode: string, xs: seq<int>)
    requires ' ' !in instr && ' ' !in mode
    ensures Split(Line(instr, mode, Decimals(xs)), " ") == [instr, mode] + Decimals(xs)
    ensures Ints(Decimals(xs)) == Some(xs)
  {
    forall i | 0 <= i < |xs| ensures ' ' !in Decimals(xs)[i] {
      DecimalHasNoSpace(xs[i]);
    }
    WordsOfLine(instr, mode, Decimals(xs));
    IntsOfDecimals(xs);
  }

  /** A line read as its words: the mode letter picks the reply or message rules. */
  lemma ClassifyOfWords(line: string, instr: string, mode: string, fields: seq<string>)
    requires Split(line, " ") == [instr, mode] + fields
    ensures mode == "R" ==> Classify(line) == ClassifyReply(instr, fields)
    ensures mode == "M" ==> Classify(line) == ClassifyMessage(instr, fields)
  {
    var w := Split(line, " ");
    assert w[0] == instr && w[1] == mode && w[2..] == fields;
  }

  /** A line of numbers with the given command word and mode. */
  lemma ClassifyNumeric(instr: string, mode: string, xs: seq<int>)
    requires ' ' !in instr && (mode == "R" || mode == "M")
    ensures Ints(Decimals(xs)) == Some(xs)
    ensures mode == "R" ==> Classify(Line(instr, mode, Decimals(xs))) == ClassifyReply(instr, Decimals(xs))
    ensures mode == "M" ==> Classify(Line(instr, mode, Decimals(xs))) == ClassifyMessage(instr, Decimals(xs))
  {
    NumericLineWords(instr, mode, xs);
    ClassifyOfWords(Line(instr, mode, Decimals(xs)), instr, mode, Decimals(xs));
  }

  /** A DUID reply logs the unique id under the reply's sequence number. */
  lemma ClassifyDuid(s: int, uid: int, phyaddr: int)
    ensures Classify(Line("DUID", "R", Decimals([s, uid, phyaddr]))) == Log(s, UidReply(uid, s))
  {
    var xs := [s, uid, phyaddr];
    ClassifyNumeric("DUID", "R", xs);
    ReplyOfNumbers("DUID", Decimals(xs), xs);
  }

  /** A POLL reply is stored with the phynode table. */
  lemma ClassifyPoll(s: int, poll: Poll)
    ensures Classify(Line("POLL", "R", Decimals([s, poll.ordernumber, poll.amount, poll.phyaddr, poll.energy])))
            == StorePoll(poll)
  {
    var xs := [s, poll.ordernumber, poll.amount, poll.phyaddr, poll.energy];
    ClassifyNumeric("POLL", "R", xs);
    ReplyOfNumbers("POLL", Decimals(xs), xs);
  }

  /** An ENUM reply logs the item, amount, address and order under its sequence number. */
  lemma ClassifyEnum(s: int, itemdescr: int, amount: int, phyaddr: int, ordernumber: int, orderamount: int)
    ensures Classify(Line("ENUM", "R", Decimals([s, itemdescr, amount, phyaddr, ordernumber, orderamount])))
            == Log(s, EnumReply(itemdescr, amount, phyaddr, ordernumber, orderamount))
  {
    var xs := [s, itemdescr, amount, phyaddr, ordernumber, orderamount];
    ClassifyNumeric("ENUM", "R", xs);
    ReplyOfNumbers("ENUM", Decimals(xs), xs);
  }

  /** The rule of a reply applied to fields that all read as numbers. */
  lemma ReplyOfNumbers(instr: string, ds: seq<string>, xs: seq<int>)
    requires Ints(ds) == Some(xs)
    ensures instr == "DUID" && |xs| == 3 ==> ClassifyReply(instr, ds) == Log(xs[0], UidReply(xs[1], xs[0]))
    ensures instr == "POLL" && |xs| == 5 ==> ClassifyReply(instr, ds) == StorePoll(Poll(xs[1], xs[2], xs[3], xs[4]))
    ensures instr == "ENUM" && |xs| == 6 ==> ClassifyReply(instr, ds) == Log(xs[0], EnumReply(xs[1], xs[2], xs[3], xs[4], xs[5]))
    ensures instr == "RSVE" && |xs| == 2 ==> ClassifyReply(instr, ds) == Reserve(xs[0], xs[1])
    ensures (instr == "ISRT" || instr == "SETI") && |xs| == 1 ==> ClassifyReply(instr, ds) == Log(xs[0], AckReply)
  {
    if instr == "DUID" || instr == "POLL" || instr == "ENUM" {
      assert instr != "PING" && instr != "SADR" && instr != "CHNL" && instr != "STAT" && instr != "BATS";
    }
  }

  /** The rule of a message applied to fields that all read as numbers. */
  lemma MessageOfNumbers(instr: string, ds: seq<string>, xs: seq<int>)
    requires Ints(ds) == Some(xs)
    ensures instr == "RSTO" && |xs| == 3 ==> ClassifyMessage(instr, ds) == Restore(xs[0], xs[2])
    ensures (instr == "FULE" || instr == "LOWE") && |xs| == 2 ==> ClassifyMessage(instr, ds) == Energy(xs[0], xs[1])
  {
    if instr == "RSTO" && |xs| == 3 {
      assert ds[..3] == ds;
    }
  }

  /** A RSVE reply reserves: it is logged and the order's node blocked. */
  lemma ClassifyRsve(s: int, ordernumber: int)
    ensures Classify(Line("RSVE", "R", Decimals([s, ordernumber]))) == Reserve(s, ordernumber)
  {
    var xs := [s, ordernumber];
    ClassifyNumeric("RSVE", "R", xs);
    ReplyOfNumbers("RSVE", Decimals(xs), xs);
  }

  /** ISRT and SETI replies are acknowledgements of their sequence number. */
  lemma ClassifyOneFieldAck(instr: string, s: int)
    requires instr == "ISRT" || instr == "SETI"
    ensures Classify(Line(instr, "R", Decimals([s]))) == Log(s, AckReply)
  {
    ClassifyNumeric(instr, "R", [s]);
    ReplyOfNumbers(instr, Decimals([s]), [s]);
  }

  /** A reply of a sequence number and one more word. */
  lemma ClassifyTwoFields(instr: string, s: int, second: string)
    requires ' ' !in instr && ' ' !in second
    ensures Classify(Line(instr, "R", [Decimal(s), second])) == ClassifyReply(instr, [Decimal(s), second])
    ensures Ints([Decimal(s), second][..1]) == Some([s])
  {
    DecimalHasNoSpace(s);
    WordsOfLine(instr, "R", [Decimal(s), second]);
    ClassifyOfWords(Line(instr, "R", [Decimal(s), second]), instr, "R", [Decimal(s), second]);
    IntsOfDecimals([s]);
    assert [Decimal(s), second][..1] == Decimals([s]);
  }

  /** SADR and CHNL replies carrying ACK are acknowledgements of their sequence number. */
  lemma ClassifyAck(instr: string, s: int)
    requires instr == "SADR" || instr == "CHNL"
    ensures Classify(Line(instr, "R", [Decimal(s), "ACK"])) == Log(s, AckReply)
  {
    ClassifyTwoFields(instr, s, "ACK");
  }

  /** A BATS reply is an acknowledgement of its sequence number; its second field is not read. */
  lemma ClassifyBats(s: int, second: string)
    requires ' ' !in second
    ensures Classify(Line("BATS", "R", [Decimal(s), second])) == Log(s, AckReply)
  {
    ClassifyTwoFields("BATS", s, second);
  }

  /** A RSTO message restores the addressed node for the order; the uid field is not used. */
  lemma ClassifyRsto(phyaddr: int, uid: int, ordernumber: int)
    ensures Classify(Line("RSTO", "M", Decimals([phyaddr, uid, ordernumber]))) == Restore(phyaddr, ordernumber)
  {
    var xs := [phyaddr, uid, ordernumber];
    ClassifyNumeric("RSTO", "M", xs);
    MessageOfNumbers("RSTO", Decimals(xs), xs);
  }

  /** FULE and LOWE messages report the energy of a node. */
  lemma ClassifyEnergy(instr: string, phyaddr: int, energy: int)
    requires instr == "FULE" || instr == "LOWE"
    ensures Classify(Line(instr, "M", Decimals([phyaddr, energy]))) == Energy(phyaddr, energy)
  {
    ClassifyNumeric(instr, "M", [phyaddr, energy]);
    MessageOfNumbers(instr, Decimals([phyaddr, energy]), [phyaddr, energy]);
  }

  /** The number of fields each reply must have; None for PING, which only needs one. */
  function ReplyArity(instr: string): Option<nat> {
    if instr == "DUID" then Some(3)
    else if instr == "SADR" || instr == "CHNL" || instr == "STAT" || instr == "BATS" || instr == "RSVE" then Some(2)
    else if instr == "POLL" then Some(5)
    else if instr == "ENUM" then Some(6)
    else if instr == "DLVR" || instr == "ISRT" || instr == "SETI" then Some(1)
    else None
  }

  /** A reply with the wrong number of fields is reported and changes nothing. */
  lemma WrongArityRejected(instr: string, fields: seq<string>, st: Radio, t: string)
    requires ' ' !in instr && forall i :: 0 <= i < |fields| ==> ' ' !in fields[i]
    requires ReplyArity(instr).Some? && |fields| != ReplyArity(instr).value
    ensures Classify(Line(instr, "R", fields)) == Rejected
    ensures Apply(Classify(Line(instr, "R", fields)), st, t) == (st, None)
  {
    WordsOfLine(instr, "R", fields);
    ClassifyOfWords(Line(instr, "R", fields), instr, "R", fields);
  }

  /** A line without a space is not a command and changes nothing. */
  lemma OneWordInvalid(line: string)
    requires ' ' !in line
    ensures Classify(line) == Invalid
  {
    assert Find(line, " ").None? by {
      forall k: nat | k + 1 <= |line| ensures !At(line, " ", k) {
        assert line[k] in line;
        assert line[k + 0] != " "[0];
      }
    }
  }

  /** `LineReader`: parses one line at a time for the protocol parser and the phynode table. */
  class LineReader {
    const proto: CCPhyParser
    const preserver: Preserver

    constructor (preserver: Preserver, proto: CCPhyParser)
      ensures this.proto == proto && this.preserver == preserver
    {
      this.proto := proto;
      this.preserver := preserver;
    }

    function State(): Radio
      reads proto, preserver
    {
      Radio(proto.replies, preserver.phynodes, preserver.polls)
    }

    /**
     * `parse_line` at clock reading `tmstamp`: the state becomes what the
     * line's action makes of it, and the error it raises is returned. The
     * sequence number of the parser is not touched.
     */
    method ParseLine(line: string, tmstamp: string) returns (error: Option<string>)
      modifies proto, preserver
      ensures (State(), error) == Apply(Classify(line), old(State()), tmstamp)
      ensures proto.seqnr == old(proto.seqnr)
    {
      var a := Classify(line);
      match a {
        case Raises(e) =>
          return Some(e);
        case Log(s, reply) =>
          error := proto.LogBySeqnr(s, reply);
        case Reserve(s, o) =>
          error := proto.LogBySeqnr(s, ReserveReply(o));
          if error.None? {
            preserver.BlockByOrdernumber(o);
          }
        case StorePoll(poll) =>
          preserver.StoreByOrdernumber(poll, tmstamp);
          return None;
        case Restore(phyaddr, o) =>
          preserver.RstoByPhyaddr(phyaddr, o);
          return None;
        case Energy(phyaddr, e) =>
          preserver.UpdateEnergy(phyaddr, e, tmstamp);
          return None;
        case _ =>
          return None;
      }
    }
  }

  /** The separator between lines on the serial port. */
  const LineEnd: string := "\n\r"

  /**
   * How a buffer splits into complete lines and the rest that waits for
   * more data: with no separator in it, no line is complete.
   */
  function Lines(buf: string): (r: (seq<string>, string))
  {
    var pieces := Split(buf, LineEnd);
    if |pieces| > 1 then (pieces[..|pieces| - 1], pieces[|pieces| - 1]) else ([], buf)
  }

  /** The complete lines and the rest are the buffer again, and none of them holds a separator. */
  lemma LinesLoseNothing(buf: string)
    ensures Join(Lines(buf).0 + [Lines(buf).1], LineEnd) == buf
    ensures Find(Lines(buf).1, LineEnd).None?
    ensures forall i :: 0 <= i < |Lines(buf).0| ==> Find(Lines(buf).0[i], LineEnd).None?
  {
    var pieces := Split(buf, LineEnd);
    var r := Lines(buf);
    LinesArePieces(buf);
    JoinSplit(buf, LineEnd);
    assert r.1 == pieces[|pieces| - 1];
    forall i | 0 <= i < |r.0| ensures Find(r.0[i], LineEnd).None? {
      assert r.0[i] == pieces[i];
    }
  }

  /** The complete lines followed by the rest are the pieces of the buffer. */
  lemma LinesArePieces(buf: string)
    ensures Lines(buf).0 + [Lines(buf).1] == Split(buf, LineEnd)
  {
    var pieces := Split(buf, LineEnd);
    if |pieces| > 1 {
      assert pieces[..|pieces| - 1] + [pieces[|pieces| - 1]] == pieces;
    } else {
      assert pieces == [buf];
    }
  }

  /** Lines sent each followed by the separator, then a partial one, are read back as sent. */
  lemma LinesOfSent(lines: seq<string>, rest: string)
    requires |lines| > 0 && Find(rest, LineEnd).None?
    requires forall i :: 0 <= i < |lines| ==> Find(lines[i], LineEnd).None?
    ensures Lines(Join(lines + [rest], LineEnd)) == (lines, rest)
  {
    var parts := lines + [rest];
    forall i | 0 <= i < |parts| ensures Find(parts[i] + LineEnd, LineEnd) == Some(|parts[i]|) {
      SeparablePair(parts[i], LineEnd);
    }
    SplitJoin(parts, LineEnd);
    assert parts[..|parts| - 1] == lines;
  }

  /** `SerialReader`: buffers the serial data and hands the complete lines to the line reader. */
  class SerialReader {
    var recvBuf: string
    const parser: LineReader

    constructor (parser: LineReader)
      ensures recvBuf == "" && this.parser == parser
    {
      recvBuf := "";
      this.parser := parser;
    }

    /**
     * `data_received`, with the UTF-8 decoding of the data done by the
     * caller (None when the data is not UTF-8, which is reported and
     * dropped) and one clock reading for the whole call. The complete lines
     * are parsed in order; when one raises, the error is returned and the
     * buffer keeps every line of this call, parsed or not.
     */
    method DataReceived(decoded: Option<string>, tmstamp: string) returns (error: Option<string>)
      modifies this, parser.proto, parser.preserver
      ensures decoded.None? ==>
                error == None && recvBuf == old(recvBuf) && parser.State() == old(parser.State())
      ensures decoded.Some? ==>
                var buf := old(recvBuf) + decoded.value;
                var (lines, rest) := Lines(buf);
                var run := RunLines(lines, old(parser.State()), tmstamp);
                parser.State() == run.0 && error == run.1 &&
                recvBuf == (if run.1.None? then rest else buf)
      ensures parser.proto.seqnr == old(parser.proto.seqnr)
    {
      if decoded.None? {
        return None;
      }
      ghost var start := parser.State();
      recvBuf := recvBuf + decoded.value;
      var pieces := Split(recvBuf, LineEnd);
      if |pieces| > 1 {
        var lines := pieces[..|pieces| - 1];
        var i := 0;
        while i < |lines|
          invariant 0 <= i <= |lines|
          invariant recvBuf == old(recvBuf) + decoded.value
          invariant RunLines(lines[i..], parser.State(), tmstamp) == RunLines(lines, start, tmstamp)
          invariant parser.proto.seqnr == old(parser.proto.seqnr)
        {
          assert lines[i..][1..] == lines[i + 1..];
          var e := parser.ParseLine(lines[i], tmstamp);
          if e.Some? {
            return e;
          }
          i := i + 1;
        }
        recvBuf := pieces[|pieces| - 1];
      }
      return None;
    }
  }
}
