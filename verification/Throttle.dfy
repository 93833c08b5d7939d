/** Burn protection: at most one use of a proxy address per interval. */
module Throttle {
  /** Whether `addr` may be used at time `now`, and the record of last uses afterwards. */
  function Probe(interval: int, lastUse: map<string, int>, now: int, addr: string): (bool, map<string, int>) {
    if interval <= 0 then (true, lastUse)
    else if addr in lastUse && now - lastUse[addr] < interval then (false, lastUse)
    else (true, lastUse[addr := now])
  }

  /** A throttle as shared by the jobs of a scan. The clock reading is an argument. */
  class ProxyThrottle {
    const interval: int
    var lastUse: map<string, int>

    constructor (interval: int)
      ensures this.interval == interval && lastUse == map[]
    {
      this.interval := interval;
      lastUse := map[];
    }

    method Ready(addr: string, now: int) returns (ok: bool)
      modifies this
      ensures (ok, lastUse) == Probe(interval, old(lastUse), now, addr)
    {
      if interval <= 0 {
        return true;
      }
      if addr in lastUse && now - lastUse[addr] < interval {
        return false;
      }
      lastUse := lastUse[addr := now];
      ok := true;
    }
  }

  /** The record after these addresses have been used at time 0. */
  function JustUsed(addrs: seq<string>): map<string, int> {
    map a | a in addrs :: 0
  }

  /** They rest for an interval. */
  lemma UsedRest(interval: int, addrs: seq<string>, now: int, a: string)
    requires interval > 0 && a in addrs
    ensures Probe(interval, JustUsed(addrs), now, a) ==
            if now < interval then (false, JustUsed(addrs)) else (true, JustUsed(addrs)[a := now])
  {
  }

  datatype Call = Call(addr: string, now: int)

  /** The answers a fresh throttle gives to a sequence of calls, and its final record. */
  function Replay(interval: int, calls: seq<Call>): (r: (seq<bool>, map<string, int>))
    ensures |r.0| == |calls|
  {
    if calls == [] then ([], map[])
    else
      var last := calls[|calls| - 1];
      var before := Replay(interval, calls[..|calls| - 1]);
      var answer := Probe(interval, before.1, last.now, last.addr);
      (before.0 + [answer.0], answer.1)
  }

  ghost predicate Monotone(calls: seq<Call>) {
    forall i, j :: 0 <= i < j < |calls| ==> calls[i].now <= calls[j].now
  }

  /** An earlier granted use of the same address that is still within the interval. */
  ghost predicate Rests(interval: int, calls: seq<Call>, granted: seq<bool>, i: nat, j: nat)
    requires i < j < |calls| && |granted| == |calls|
  {
    granted[i] && calls[i].addr == calls[j].addr && calls[j].now - calls[i].now < interval
  }

  lemma {:induction false} ReplayPrefix(interval: int, calls: seq<Call>, n: nat)
    requires n <= |calls|
    ensures Replay(interval, calls[..n]).0 == Replay(interval, calls).0[..n]
    decreases |calls|
  {
    if n == |calls| {
      assert calls[..n] == calls;
    } else {
      var init := calls[..|calls| - 1];
      ReplayPrefix(interval, init, n);
      assert init[..n] == calls[..n];
    }
  }

  /** Each recorded time is that of a granted call, and no granted call of the address is later. */
  ghost predicate Latest(calls: seq<Call>, granted: seq<bool>, last: map<string, int>)
    requires |granted| == |calls|
  {
    && (forall a :: a in last ==>
          exists i :: 0 <= i < |calls| && granted[i] && calls[i].addr == a && calls[i].now == last[a])
    && (forall i :: 0 <= i < |calls| && granted[i] ==>
          calls[i].addr in last && calls[i].now <= last[calls[i].addr])
  }

  lemma Refuse(calls: seq<Call>, granted: seq<bool>, last: map<string, int>, c: Call)
    requires |granted| == |calls| && Latest(calls, granted, last)
    ensures Latest(calls + [c], granted + [false], last)
  {
    var calls', granted' := calls + [c], granted + [false];
    forall a | a in last
      ensures exists i :: 0 <= i < |calls'| && granted'[i] && calls'[i].addr == a && calls'[i].now == last[a]
    {
      var i :| 0 <= i < |calls| && granted[i] && calls[i].addr == a && calls[i].now == last[a];
      assert granted'[i] && calls'[i] == calls[i];
    }
  }

  lemma Grant(calls: seq<Call>, granted: seq<bool>, last: map<string, int>, c: Call)
    requires |granted| == |calls| && Latest(calls, granted, last)
    requires forall i :: 0 <= i < |calls| ==> calls[i].now <= c.now
    ensures Latest(calls + [c], granted + [true], last[c.addr := c.now])
  {
    var calls', granted', last' := calls + [c], granted + [true], last[c.addr := c.now];
    forall a | a in last'
      ensures exists i :: 0 <= i < |calls'| && granted'[i] && calls'[i].addr == a && calls'[i].now == last'[a]
    {
      if a == c.addr {
        assert granted'[|calls|] && calls'[|calls|] == c;
      } else {
        var i :| 0 <= i < |calls| && granted[i] && calls[i].addr == a && calls[i].now == last[a];
        assert granted'[i] && calls'[i] == calls[i];
      }
    }
  }

  /** The record holds, for each address granted so far, the time of its latest grant. */
  lemma {:induction false} RecordIsLatest(interval: int, calls: seq<Call>)
    requires interval > 0 && Monotone(calls)
    ensures Latest(calls, Replay(interval, calls).0, Replay(interval, calls).1)
  {
    if calls != [] {
      var k := |calls| - 1;
      RecordIsLatest(interval, calls[..k]);
      var (granted, last) := Replay(interval, calls[..k]);
      assert calls == calls[..k] + [calls[k]];
      if Probe(interval, last, calls[k].now, calls[k].addr).0 {
        Grant(calls[..k], granted, last, calls[k]);
      } else {
        Refuse(calls[..k], granted, last, calls[k]);
      }
    }
  }

  /**
   * Under a clock that never runs backwards, a call is granted exactly when no earlier grant of
   * the same address lies less than the interval before it.
   */
  lemma {:induction false} GrantedIffRested(interval: int, calls: seq<Call>, j: nat)
    requires Monotone(calls) && j < |calls|
    ensures var granted := Replay(interval, calls).0;
            granted[j] <==> forall i: nat :: i < j ==> !Rests(interval, calls, granted, i, j)
  {
    var granted := Replay(interval, calls).0;
    var upTo := calls[..j + 1];
    ReplayPrefix(interval, calls, j + 1);
    ReplayPrefix(interval, calls, j);
    assert upTo[..j] == calls[..j];
    assert upTo[j] == calls[j];
    var (g, last) := Replay(interval, calls[..j]);
    assert g == granted[..j];
    assert granted[j] == Probe(interval, last, calls[j].now, calls[j].addr).0 by {
      assert granted[..j + 1][j] == granted[j];
    }
    if interval > 0 {
      RecordIsLatest(interval, calls[..j]);
      if !granted[j] {
        var i :| 0 <= i < j && g[i] && calls[..j][i].addr == calls[j].addr && calls[..j][i].now == last[calls[j].addr];
        assert Rests(interval, calls, granted, i, j);
      } else {
        forall i: nat | i < j ensures !Rests(interval, calls, granted, i, j) {
          assert g[i] == granted[i] && calls[..j][i] == calls[i];
        }
      }
    }
  }
}
