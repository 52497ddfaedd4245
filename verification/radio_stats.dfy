/**
 * The gateway's runtime packet counters (gateway_interface.py,
 * RadioStats): per known address, how many packets were sent to it and
 * received from it; address 0 stands for broadcasts. The ping, final
 * statistics and CSV dump parts are not modelled.
 */
module RadioStatsTable {
  import opened Wrappers

  datatype Direction = Tx | Rx

  datatype Counts = Counts(tx: nat, rx: nat)

  const Zero: Counts := Counts(0, 0)

  /** One more packet in the direction. */
  function Bump(c: Counts, d: Direction): (r: Counts)
    ensures d == Tx ==> r.tx == c.tx + 1 && r.rx == c.rx
    ensures d == Rx ==> r.rx == c.rx + 1 && r.tx == c.tx
  {
    if d == Tx then c.(tx := c.tx + 1) else c.(rx := c.rx + 1)
  }

  /** Counts that only went up. */
  predicate NotBelow(a: map<int, Counts>, b: map<int, Counts>) {
    a.Keys == b.Keys && forall k :: k in a ==> a[k].tx <= b[k].tx && a[k].rx <= b[k].rx
  }

  /**
   * The counters live in `stats`, which is None until the first `reset`:
   * the constructor resets them and then sets them back to None. Counting
   * is off while `active` is false; the source's initial None for it acts
   * as false wherever it is read.
   */
  class RadioStats {
    /** `runtime_stats_active`. */
    var active: bool
    /** `runtime_stats`. */
    var stats: Option<map<int, Counts>>

    /** `RadioStats(proto)`: counting off and no counters at all. */
    constructor ()
      ensures !active && stats == None
    {
      active := false;
      stats := None;
    }

    /** `reset`: only the broadcast counters, at zero, and counting off. */
    method Reset()
      modifies this
      ensures !active && stats == Some(map[0 := Zero])
    {
      stats := Some(map[0 := Zero]);
      active := false;
    }

    /**
     * `enable_runtime_stats`: counting on, with zeroed counters for
     * broadcasts and for every client; other addresses keep theirs.
     * Without counters (never reset) counting is switched on and then the
     * first assignment raises TypeError.
     */
    method EnableRuntimeStats(clients: seq<int>) returns (error: Option<string>)
      modifies this
      ensures active
      ensures old(stats).None? ==> error == Some("TypeError") && stats == None
      ensures old(stats).Some? ==>
                error == None && stats.Some? &&
                stats.value.Keys == old(stats).value.Keys + {0} + (set c | c in clients) &&
                forall k :: k in stats.value ==>
                  stats.value[k] == if k == 0 || k in clients then Zero else old(stats).value[k]
    {
      active := true;
      if stats.None? {
        return Some("TypeError");
      }
      var m := stats.value[0 := Zero];
      var i := 0;
      while i < |clients|
        invariant 0 <= i <= |clients|
        invariant m.Keys == old(stats).value.Keys + {0} + set c | c in clients[..i]
        invariant forall k :: k in m ==> m[k] == if k == 0 || k in clients[..i] then Zero else old(stats).value[k]
      {
        assert clients[..i + 1] == clients[..i] + [clients[i]];
        m := m[clients[i] := Zero];
        i := i + 1;
      }
      assert clients[..i] == clients;
      stats := Some(m);
      error := None;
    }

    /** `disable_runtime_stats`. */
    method DisableRuntimeStats()
      modifies this
      ensures !active && stats == old(stats)
    {
      active := false;
    }

    /**
     * `log_packet`: nothing while counting is off or for an unknown
     * address; a broadcast sent (address 0, Tx) counts as sent to every
     * known address; any other packet counts for its address only. With
     * counting on but no counters the membership test raises TypeError.
     */
    method LogPacket(addr: int, d: Direction) returns (error: Option<string>)
      modifies this
      ensures active == old(active)
      ensures error.Some? <==> old(active) && old(stats).None?
      ensures error.Some? ==> error.value == "TypeError"
      ensures stats.Some? <==> old(stats).Some?
      ensures stats.Some? ==> NotBelow(old(stats).value, stats.value)
      ensures !old(active) || old(stats).None? || addr !in old(stats).value ==> stats == old(stats)
      ensures old(active) && old(stats).Some? && addr in old(stats).value && addr == 0 && d == Tx ==>
                forall k :: k in stats.value ==> stats.value[k] == Bump(old(stats).value[k], Tx)
      ensures old(active) && old(stats).Some? && addr in old(stats).value && !(addr == 0 && d == Tx) ==>
                stats == Some(old(stats).value[addr := Bump(old(stats).value[addr], d)])
    {
      if !active {
        return None;
      }
      if stats.None? {
        return Some("TypeError");
      }
      var m := stats.value;
      if addr !in m {
        return None;
      }
      if addr == 0 && d == Tx {
        stats := Some(map k | k in m :: Bump(m[k], Tx));
      } else {
        stats := Some(m[addr := Bump(m[addr], d)]);
      }
      error := None;
    }
  }
}
