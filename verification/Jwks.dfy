/** `JWKSCache`: signing keys fetched lazily, and how often a flood of unknown key ids can make
    the hub fetch them. */
module Jwks {
  import opened JsonValues

  /** Keys by id; a key is whatever the library parsed. */
  type KeySet = map<string, string>

  /** A time of 0 means "never". */
  datatype Cache = Cache(keys: KeySet, lastAttempt: real, lastRotation: real)

  const EMPTY := Cache(map[], 0.0, 0.0)

  /** One `key_for` call. If it fetches, the fetch starts at `now`, ends at `finished`, and
      yields `parsed` (empty when it failed or held nothing usable). */
  datatype Call = Call(kid: string, now: real, finished: real, parsed: KeySet)

  predicate MayRefresh(c: Cache, now: real, interval: real) {
    if c.lastAttempt == 0.0 then true
    else if c.keys == map[] then now - c.lastAttempt >= interval
    else if c.lastRotation == 0.0 then true
    else now - c.lastRotation >= interval
  }

  function Refreshed(c: Cache, finished: real, parsed: KeySet): Cache {
    Cache(if parsed != map[] then parsed else c.keys, finished,
          if c.keys != map[] then finished else c.lastRotation)
  }

  predicate Fetches(c: Cache, call: Call, interval: real) {
    !Resolves(c, call) && MayRefresh(c, call.now, interval)
  }

  /** A call without a key id resolves only to a sole key. */
  predicate Resolves(c: Cache, call: Call) {
    if call.kid != "" then call.kid in c.keys else |c.keys| == 1
  }

  function After(c: Cache, call: Call, interval: real): Cache {
    if Fetches(c, call, interval) then Refreshed(c, call.finished, call.parsed) else c
  }

  class JWKSCache {
    var keys: KeySet
    var lastAttempt: real
    var lastRotation: real
    const interval: real

    ghost function State(): Cache
      reads this
    {
      Cache(keys, lastAttempt, lastRotation)
    }

    constructor (interval: real)
      ensures State() == EMPTY && this.interval == interval
    {
      this.interval := interval;
      keys, lastAttempt, lastRotation := map[], 0.0, 0.0;
    }

    method Find(kid: string) returns (key: Option<string>)
      ensures kid != "" ==> key == if kid in keys then Some(keys[kid]) else None
      ensures kid == "" ==> (key.Some? <==> |keys| == 1)
      ensures kid == "" && key.Some? ==> exists k :: k in keys && keys[k] == key.value
    {
      if kid != "" {
        return if kid in keys then Some(keys[kid]) else None;
      }
      if |keys| == 1 {
        assert keys.Keys != {};
        var k :| k in keys;
        return Some(keys[k]);
      }
      key := None;
    }

    /** `fetched` tells whether the endpoint was asked. */
    method KeyFor(call: Call) returns (key: Option<string>, fetched: bool)
      modifies this
      ensures State() == After(old(State()), call, interval)
      ensures fetched == Fetches(old(State()), call, interval)
      ensures key.Some? <==> Resolves(State(), call)
      ensures key.Some? ==> exists k :: k in keys && keys[k] == key.value && (call.kid != "" ==> k == call.kid)
    {
      key := Find(call.kid);
      fetched := false;
      if key.Some? {
        return;
      }
      if !MayRefresh(Cache(keys, lastAttempt, lastRotation), call.now, interval) {
        return;
      }
      fetched := true;
      var hadKeys := keys != map[];
      lastAttempt := call.finished;
      if hadKeys {
        lastRotation := lastAttempt;
      }
      if call.parsed != map[] {
        keys := call.parsed;
      }
      key := Find(call.kid);
    }
  }

  // ------------------------------------------------------------ whole runs

  datatype Fetch = Fetch(start: real, end: real)

  datatype History = History(cache: Cache, fetches: seq<Fetch>)

  function Run(calls: seq<Call>, interval: real): History {
    if |calls| == 0 then History(EMPTY, [])
    else
      var h := Run(calls[..|calls| - 1], interval);
      var call := calls[|calls| - 1];
      History(After(h.cache, call, interval),
              if Fetches(h.cache, call, interval) then h.fetches + [Fetch(call.now, call.finished)] else h.fetches)
  }

  /** Calls hold the lock one after another, on a clock that has started and never goes back. */
  ghost predicate Timely(calls: seq<Call>) {
    && (forall i :: 0 <= i < |calls| ==> 0.0 < calls[i].now <= calls[i].finished)
    && (forall i, j :: 0 <= i < j < |calls| ==> calls[i].finished <= calls[j].now)
  }

  /** How many fetches start less than the interval after the one before ended. */
  function ShortGaps(fetches: seq<Fetch>, interval: real): nat {
    if |fetches| < 2 then 0
    else ShortGaps(fetches[..|fetches| - 1], interval) +
         (if fetches[|fetches| - 1].start - fetches[|fetches| - 2].end < interval then 1 else 0)
  }

  /** What the two timestamps say about the fetches made so far. */
  ghost predicate Tracks(h: History, interval: real, upTo: real) {
    && (h.fetches == [] ==> h.cache == EMPTY)
    && (h.fetches != [] ==> 0.0 < h.cache.lastAttempt == h.fetches[|h.fetches| - 1].end <= upTo)
    && (h.cache.keys == map[] ==> h.cache.lastRotation == 0.0)
    && (h.cache.lastRotation == 0.0 ==> ShortGaps(h.fetches, interval) == 0)
    && (h.cache.lastRotation != 0.0 ==> h.cache.lastRotation == h.cache.lastAttempt)
    && ShortGaps(h.fetches, interval) <= 1
  }

  lemma {:induction false} AlwaysTracks(calls: seq<Call>, interval: real)
    requires Timely(calls)
    ensures Tracks(Run(calls, interval), interval, if |calls| == 0 then 0.0 else calls[|calls| - 1].finished)
    decreases |calls|
  {
    if |calls| > 0 {
      var last := |calls| - 1;
      var before := Run(calls[..last], interval);
      AlwaysTracks(calls[..last], interval);
      assert last > 0 ==> calls[last - 1].finished <= calls[last].now;
      if Fetches(before.cache, calls[last], interval) {
        var more := before.fetches + [Fetch(calls[last].now, calls[last].finished)];
        assert more[..|more| - 1] == before.fetches;
      }
    }
  }

  /** At most one fetch of a whole run starts sooner than the interval after the last: the
      first refresh once keys are loaded. */
  lemma AtMostOneShortGap(calls: seq<Call>, interval: real)
    requires Timely(calls)
    ensures ShortGaps(Run(calls, interval).fetches, interval) <= 1
  {
    AlwaysTracks(calls, interval);
  }

  ghost predicate InOrder(fetches: seq<Fetch>) {
    && (forall i :: 0 <= i < |fetches| ==> fetches[i].start <= fetches[i].end)
    && (forall i :: 0 <= i < |fetches| - 1 ==> fetches[i].end <= fetches[i + 1].start)
  }

  lemma {:induction false} FetchesInOrder(calls: seq<Call>, interval: real)
    requires Timely(calls)
    ensures InOrder(Run(calls, interval).fetches)
    decreases |calls|
  {
    if |calls| > 0 {
      var last := |calls| - 1;
      FetchesInOrder(calls[..last], interval);
      AlwaysTracks(calls[..last], interval);
      assert last > 0 ==> calls[last - 1].finished <= calls[last].now;
    }
  }

  function Intervals(n: nat, interval: real): real {
    n as real * interval
  }

  lemma OneMore(n: nat, interval: real)
    ensures Intervals(n + 1, interval) == Intervals(n, interval) + interval && Intervals(0, interval) == 0.0
  {
  }

  lemma {:induction false} GapsAddUp(fetches: seq<Fetch>, interval: real)
    requires InOrder(fetches) && |fetches| >= 1 && interval >= 0.0
    ensures ShortGaps(fetches, interval) <= |fetches| - 1
    ensures |fetches| >= 2 ==>
              fetches[|fetches| - 1].start - fetches[0].end >=
              Intervals(|fetches| - 1 - ShortGaps(fetches, interval), interval)
    decreases |fetches|
  {
    hide Intervals;
    if |fetches| >= 2 {
      var init := fetches[..|fetches| - 1];
      GapsAddUp(init, interval);
      var n := |init| - 1 - ShortGaps(init, interval);
      OneMore(n, interval);
      OneMore(0, interval);
      if |fetches| == 2 {
        assert fetches[0].end <= fetches[1].start;
        assert ShortGaps(init, interval) == 0 && n == 0;
      } else {
        assert init[|init| - 1].start <= init[|init| - 1].end;
        assert fetches[|init| - 1].end <= fetches[|init|].start;
      }
    }
  }

  /** However many unknown key ids arrive, n fetches take at least n - 2 intervals. */
  lemma RateBound(calls: seq<Call>, interval: real)
    requires Timely(calls) && interval >= 0.0
    ensures var f := Run(calls, interval).fetches;
            |f| >= 2 ==> f[|f| - 1].start >= f[0].end + (|f| - 2) as real * interval
  {
    hide Run;
    var f := Run(calls, interval).fetches;
    AtMostOneShortGap(calls, interval);
    FetchesInOrder(calls, interval);
    if |f| >= 2 {
      GapsAddUp(f, interval);
      OneMore(|f| - 2, interval);
    }
  }

  /** Once keys are loaded, there are always keys. */
  lemma {:induction false} KeysNeverVanish(calls: seq<Call>, n: nat, interval: real)
    requires n <= |calls| && Run(calls[..n], interval).cache.keys != map[]
    ensures Run(calls, interval).cache.keys != map[]
    decreases |calls| - n
  {
    if n < |calls| {
      assert calls[..n + 1][..n] == calls[..n];
      KeysNeverVanish(calls, n + 1, interval);
    } else {
      assert calls[..n] == calls;
    }
  }

  /** Call `n` of a run asks the endpoint. */
  ghost predicate FetchesAt(calls: seq<Call>, n: nat, interval: real)
    requires n < |calls|
  {
    |Run(calls[..n + 1], interval).fetches| == |Run(calls[..n], interval).fetches| + 1
  }

  /** One of the first `n` calls asked although keys were loaded. */
  ghost predicate RefreshedBefore(calls: seq<Call>, n: nat, interval: real)
    requires n <= |calls|
  {
    exists m :: 0 <= m < n && FetchesAt(calls, m, interval) && Run(calls[..m], interval).cache.keys != map[]
  }

  lemma RunOn(calls: seq<Call>, n: nat, interval: real)
    requires n < |calls|
    ensures var before, after := Run(calls[..n], interval), Run(calls[..n + 1], interval);
            && after.cache == After(before.cache, calls[n], interval)
            && (FetchesAt(calls, n, interval) <==> Fetches(before.cache, calls[n], interval))
  {
    assert calls[..n + 1][..n] == calls[..n];
  }

  lemma {:induction false} RotationIff(calls: seq<Call>, n: nat, interval: real)
    requires Timely(calls) && n <= |calls|
    ensures Run(calls[..n], interval).cache.lastRotation != 0.0 <==> RefreshedBefore(calls, n, interval)
  {
    hide Run, FetchesAt, Fetches;
    if n > 0 {
      var m := n - 1;
      RotationIff(calls, m, interval);
      RunOn(calls, m, interval);
      if RefreshedBefore(calls, n, interval) && !RefreshedBefore(calls, m, interval) {
        assert FetchesAt(calls, m, interval) && Run(calls[..m], interval).cache.keys != map[];
      }
    } else {
      NoCalls(interval);
      assert calls[..0] == [];
    }
  }

  lemma NoCalls(interval: real)
    ensures Run([], interval) == History(EMPTY, [])
  {
  }

  /** When the endpoint is asked: exactly for an id the keys do not answer, if it was never asked,
      or not for an interval, or not once since there are keys. What it then gives replaces the
      keys, unless it gives none. */
  lemma FetchDue(calls: seq<Call>, n: nat, interval: real)
    requires Timely(calls) && n < |calls|
    ensures var before, call := Run(calls[..n], interval), calls[n];
            var keys, fetches := before.cache.keys, before.fetches;
            FetchesAt(calls, n, interval) <==>
              && (if call.kid != "" then call.kid !in keys else |keys| != 1)
              && (|| fetches == []
                  || call.now >= fetches[|fetches| - 1].end + interval
                  || (keys != map[] && !RefreshedBefore(calls, n, interval)))
    ensures Run(calls[..n + 1], interval).cache.keys ==
            if FetchesAt(calls, n, interval) && calls[n].parsed != map[] then calls[n].parsed
            else Run(calls[..n], interval).cache.keys
  {
    hide Run, FetchesAt, RefreshedBefore;
    RunOn(calls, n, interval);
    RotationIff(calls, n, interval);
    AlwaysTracks(calls[..n], interval);
  }

  /** The one short gap is really there: loading keys, then an unknown id at once. */
  lemma ShortGapHappens(interval: real)
    requires interval > 0.0
    ensures var load := Call("a", 1.0, 1.0, map["a" := "key"]);
            var rotate := Call("b", 1.0, 1.0, map[]);
            Timely([load, rotate]) && ShortGaps(Run([load, rotate], interval).fetches, interval) == 1
  {
    var load := Call("a", 1.0, 1.0, map["a" := "key"]);
    var rotate := Call("b", 1.0, 1.0, map[]);
    var calls := [load, rotate];
    assert calls[..1] == [load] && [load][..0] == [];
    assert Run([], interval) == History(EMPTY, []);
    assert Run([load], interval) == History(Cache(map["a" := "key"], 1.0, 0.0), [Fetch(1.0, 1.0)]) by {
      assert Fetches(EMPTY, load, interval);
      assert "a" in map["a" := "key"];
      var none: KeySet := map[];
      assert "a" !in none;
    }
    assert Fetches(Cache(map["a" := "key"], 1.0, 0.0), rotate, interval) by { assert "a"[0] != "b"[0]; }
    var f := Run(calls, interval).fetches;
    assert f == [Fetch(1.0, 1.0), Fetch(1.0, 1.0)];
    assert f[..1] == [Fetch(1.0, 1.0)];
  }
}
