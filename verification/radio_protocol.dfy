/**
 * The text protocol the gateway speaks with the phynodes
 * (gateway_interface.py, CCPhyParser): requests are words separated by
 * single spaces, a command, a mode letter, a sequence number and the
 * parameters; replies are collected per sequence number. The texts are
 * modelled before UTF-8 encoding.
 */
module RadioProtocol {
  import opened Wrappers
  import opened TextSplit
  import opened PyInt

  /** The replies `parse_line` logs. */
  datatype Reply =
    | UidReply(uid: int, seqnr: int)
    | AckReply
    | EnumReply(itemdescr: int, amount: int, phyaddr: int, ordernumber: int, orderamount: int)
    | ReserveReply(ordernumber: int)

  /** The numbers 0 to n - 1. */
  function Below(n: nat): (ks: set<int>)
    ensures forall k :: k in ks <==> 0 <= k < n
  {
    if n == 0 then {} else Below(n - 1) + {n - 1}
  }

  /** The sequence numbers that have a reply list: 0 to 255. */
  function LogKeys(): (ks: set<int>)
    ensures forall k :: k in ks <==> 0 <= k < 256
  {
    Below(256)
  }

  /** `create_list`: an empty reply list for every sequence number. */
  function EmptyLog(): (m: map<int, seq<Reply>>)
    ensures m.Keys == LogKeys() && forall k :: k in m ==> m[k] == []
  {
    map k | k in LogKeys() :: []
  }

  /** `_mkmsg_no_seq`: the words joined by single spaces. The address is not used. */
  function MkMsgNoSeq(addr: int, words: seq<string>): string {
    Join(words, " ")
  }

  /** A decimal number has no space in it. */
  lemma DecimalHasNoSpace(i: int)
    ensures ' ' !in Decimal(i)
  {
    var d := NatDigits(if i < 0 then -i else i);
    assert ' ' !in d by {
      forall k | 0 <= k < |d| ensures d[k] != ' ' {
        assert IsDigit(d[k]);
      }
    }
  }

  /** The decimal texts of some ints. */
  function Decimals(xs: seq<int>): (ds: seq<string>)
    ensures |ds| == |xs| && forall i :: 0 <= i < |xs| ==> ds[i] == Decimal(xs[i])
  {
    seq(|xs|, i requires 0 <= i < |xs| => Decimal(xs[i]))
  }

  /** Words without spaces come back from the text they are joined into. */
  lemma WordsOfJoin(words: seq<string>)
    requires |words| >= 1 && forall i :: 0 <= i < |words| ==> ' ' !in words[i]
    ensures Split(Join(words, " "), " ") == words
  {
    forall i | 0 <= i < |words| ensures Find(words[i] + " ", " ") == Some(|words[i]|) {
      SeparableSingle(words[i], ' ');
    }
    SplitJoin(words, " ");
  }

  /** The text `_mkmsg` makes is the command's two words, the sequence number and the parameters, spaced. */
  lemma RequestText(instr: string, mode: string, d: string, params: seq<string>)
    ensures var words := [instr + " " + mode, d] + (if params == [] then [] else [Join(params, " ")]);
            Join(words, " ") == Join([instr, mode, d] + params, " ")
  {
    var words := [instr + " " + mode, d] + (if params == [] then [] else [Join(params, " ")]);
    Join3(instr, mode, d, " ");
    if params == [] {
      assert words == [instr + " " + mode, d];
      Join2(instr + " " + mode, d, " ");
      assert [instr, mode, d] + params == [instr, mode, d];
    } else {
      var j := Join(params, " ");
      assert words == [instr + " " + mode, d, j];
      Join3(instr + " " + mode, d, j, " ");
      JoinAppend([instr, mode, d], params, " ");
    }
  }

  /**
   * The words a phynode reads in a request made by `_mkmsg`: the two words
   * of the command, the sequence number, and the parameters.
   */
  lemma RequestWords(instr: string, mode: string, seqnr: int, params: seq<string>)
    requires ' ' !in instr && ' ' !in mode
    requires forall i :: 0 <= i < |params| ==> ' ' !in params[i]
    ensures var words := [instr + " " + mode, Decimal(seqnr)] + (if params == [] then [] else [Join(params, " ")]);
            Split(Join(words, " "), " ") == [instr, mode, Decimal(seqnr)] + params
  {
    var flat := [instr, mode, Decimal(seqnr)] + params;
    RequestText(instr, mode, Decimal(seqnr), params);
    DecimalHasNoSpace(seqnr);
    forall i | 0 <= i < |flat| ensures ' ' !in flat[i] {
      if i >= 3 {
        assert flat[i] == params[i - 3];
      }
    }
    WordsOfJoin(flat);
  }

  class CCPhyParser {
    /** The sequence number the next request carries. */
    var seqnr: int
    /** `replys_by_seqnr`. */
    var replies: map<int, seq<Reply>>

    ghost predicate Valid()
      reads this
    {
      0 <= seqnr < 255 && replies.Keys == LogKeys()
    }

    constructor ()
      ensures Valid() && seqnr == 0 && replies == EmptyLog()
    {
      seqnr := 0;
      replies := EmptyLog();
    }

    /** `log_by_seqnr`: the reply goes to the end of its list; KeyError outside 0..255. */
    method LogBySeqnr(s: int, reply: Reply) returns (error: Option<string>)
      modifies this
      ensures seqnr == old(seqnr) && replies.Keys == old(replies).Keys
      ensures s in old(replies) ==> error == None && replies == old(replies)[s := old(replies)[s] + [reply]]
      ensures s !in old(replies) ==> error == Some("KeyError") && replies == old(replies)
    {
      if s !in replies {
        return Some("KeyError");
      }
      replies := replies[s := replies[s] + [reply]];
      return None;
    }

    /**
     * `get_by_seqnr`: the replies logged for s, which are then forgotten;
     * KeyError outside 0..255.
     */
    method GetBySeqnr(s: int) returns (result: Result<seq<Reply>, string>)
      modifies this
      ensures seqnr == old(seqnr) && replies.Keys == old(replies).Keys
      ensures s in old(replies) ==> result == Ok(old(replies)[s]) && replies == old(replies)[s := []]
      ensures s !in old(replies) ==> result == Err("KeyError") && replies == old(replies)
    {
      if s !in replies {
        return Err("KeyError");
      }
      result := Ok(replies[s]);
      if |replies[s]| != 0 {
        replies := replies[s := []];
      } else {
        assert replies == replies[s := []];
      }
    }

    /**
     * `_mkmsg`: the command, the current sequence number and the
     * parameters joined into one word, all separated by single spaces; the
     * sequence number then advances modulo 255.
     */
    method MkMsg(addr: int, command: string, params: seq<string>) returns (msg: string)
      modifies this
      ensures msg == MkMsgNoSeq(addr, [command, Decimal(old(seqnr))] + (if params == [] then [] else [Join(params, " ")]))
      ensures seqnr == (old(seqnr) + 1) % 255 && 0 <= seqnr < 255
      ensures replies == old(replies)
    {
      if |params| > 0 {
        msg := MkMsgNoSeq(addr, [command, Decimal(seqnr), Join(params, " ")]);
        assert [command, Decimal(seqnr), Join(params, " ")] == [command, Decimal(seqnr)] + [Join(params, " ")];
      } else {
        msg := MkMsgNoSeq(addr, [command, Decimal(seqnr)]);
        assert [command, Decimal(seqnr)] == [command, Decimal(seqnr)] + [];
      }
      seqnr := (seqnr + 1) % 255;
    }

    /**
     * `create_sadr_request`: the phynode reads SADR, Q, the sequence number
     * of the request, the unique id and the new address.
     */
    method CreateSadrRequest(addr: int, uid: int, newaddr: int) returns (msg: string)
      modifies this
      ensures Split(msg, " ") == ["SADR", "Q", Decimal(old(seqnr)), Decimal(uid), Decimal(newaddr)]
      ensures ParseDecimal(Split(msg, " ")[2]) == Some(old(seqnr))
      ensures seqnr == (old(seqnr) + 1) % 255 && replies == old(replies)
    {
      ghost var s := seqnr;
      assert "SADR" + " " + "Q" == "SADR Q";
      msg := MkMsg(addr, "SADR Q", [Decimal(uid), Decimal(newaddr)]);
      DecimalHasNoSpace(uid);
      DecimalHasNoSpace(newaddr);
      RequestWords("SADR", "Q", s, [Decimal(uid), Decimal(newaddr)]);
      assert ["SADR", "Q", Decimal(s)] + [Decimal(uid), Decimal(newaddr)] ==
             ["SADR", "Q", Decimal(s), Decimal(uid), Decimal(newaddr)];
      ParseDecimalOfDecimal(s);
    }
  }

  /** Sequence numbers run 0, 1, ..., 254, 0: the reply list for 255 is never asked for by a request. */
  lemma SeqnrWraps(s: int)
    requires 0 <= s < 255
    ensures 0 <= (s + 1) % 255 < 255
    ensures s == 254 ==> (s + 1) % 255 == 0
    ensures s < 254 ==> (s + 1) % 255 == s + 1
  {
  }
}
