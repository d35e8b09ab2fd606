/** The sensor manager: which hardware driver is on, and at which delay and latency. */
module SensorManager {

  const EINVAL := 22

  /** What the driver was last told. */
  datatype Driver = Driver(on: bool, delay: int, latency: int)

  /** The fixed description of a sensor; dependencies are positions in the sensor table. */
  datatype Sensor = Sensor(handle: int, isVirtual: bool, minDelay: int, fifoMax: nat, depList: seq<nat>)

  /** The changing part of a sensor; listeners are positions in the sensor table. */
  datatype Context = Context(enable: bool, delayNs: int, latencyNs: int, listener: seq<nat>, driver: Driver)

  // ----- the invariant over all runs

  /** Every dependency is a hardware sensor of the table. */
  ghost predicate GoodSensor(cfg: seq<Sensor>, s: Sensor) {
    forall h :: h in s.depList ==> h < |cfg| && !cfg[h].isVirtual
  }

  /** The table is well formed and all dependencies are on hardware sensors. */
  ghost predicate Arranged(cfg: seq<Sensor>) {
    WellFormed(cfg) && forall i :: 0 <= i < |cfg| ==> GoodSensor(cfg, cfg[i])
  }

  /** Handles tell sensors apart, and dependencies are sensors of the table. */
  ghost predicate WellFormed(cfg: seq<Sensor>) {
    && (forall i, j :: 0 <= i < j < |cfg| ==> cfg[i].handle != cfg[j].handle)
    && (forall i :: 0 <= i < |cfg| ==> Within(cfg[i].depList, |cfg|))
  }

  /** Positions that exist. */
  predicate Within(l: seq<nat>, n: nat) {
    forall t :: t in l ==> t < n
  }

  lemma WithinTail(l: seq<nat>, n: nat)
    requires l != [] && Within(l, n)
    ensures l[0] < n && Within(l[1..], n)
  {
    assert l[0] in l;
    forall t | t in l[1..] ensures t < n {
      assert t in l;
    }
  }

  ghost predicate NoDuplicates(s: seq<nat>) {
    forall i, j :: 0 <= i < j < |s| ==> s[i] != s[j]
  }

  /** Sensor `t` listens on `h` exactly when its last activation enabled it and it depends on `h`. */
  ghost predicate Mirrored(cfg: seq<Sensor>, st: seq<Context>, h: nat, t: nat)
    requires h < |st| == |cfg| && t < |st|
  {
    t in st[h].listener <==> st[t].enable && h in cfg[t].depList
  }

  /** A hardware driver is on exactly when somebody listens; a virtual one when it is enabled. */
  ghost predicate Switched(s: Sensor, c: Context) {
    c.driver.on <==> if s.isVirtual then c.enable else c.listener != []
  }

  /** A sensor with listeners runs at the delay they call for. */
  ghost predicate DelayRight(st: seq<Context>, h: nat)
    requires h < |st| && Within(st[h].listener, |st|)
  {
    st[h].listener != [] ==> st[h].driver.delay == MinDelay(Delays(st, st[h].listener))
  }

  /** A sensor with listeners and a hardware queue runs at the latency they call for. */
  ghost predicate LatencyRight(s: Sensor, st: seq<Context>, h: nat)
    requires h < |st| && Within(st[h].listener, |st|)
  {
    st[h].listener != [] && s.fifoMax != 0 ==>
      st[h].driver.latency == MinLatency(Latencies(st, st[h].listener))
  }

  ghost predicate Consistent(cfg: seq<Sensor>, st: seq<Context>) {
    && Arranged(cfg) && |st| == |cfg|
    && (forall h :: 0 <= h < |st| ==> Within(st[h].listener, |st|) && NoDuplicates(st[h].listener))
    && (forall h, t :: 0 <= h < |st| && 0 <= t < |st| ==> Mirrored(cfg, st, h, t))
    && (forall h :: 0 <= h < |st| ==> Switched(cfg[h], st[h]))
    && (forall h :: 0 <= h < |st| ==> DelayRight(st, h))
    && (forall h :: 0 <= h < |st| ==> LatencyRight(cfg[h], st, h))
  }

  // ----- delays and latencies

  function Delays(st: seq<Context>, l: seq<nat>): (ds: seq<int>)
    requires Within(l, |st|)
    ensures |ds| == |l|
  {
    seq(|l|, i requires 0 <= i < |l| => assert l[i] in l; st[l[i]].delayNs)
  }

  function Latencies(st: seq<Context>, l: seq<nat>): (ls: seq<int>)
    requires Within(l, |st|)
    ensures |ls| == |l|
  {
    seq(|l|, i requires 0 <= i < |l| => assert l[i] in l; st[l[i]].latencyNs)
  }

  /** The running minimum, passing over zero delays. */
  function Lower(min: int, ds: seq<int>): int
    decreases |ds|
  {
    if ds == [] then min
    else Lower(if ds[0] != 0 && min > ds[0] then ds[0] else min, ds[1..])
  }

  function MinDelay(ds: seq<int>): int
    requires ds != []
  {
    Lower(ds[0], ds)
  }

  function LowerLatency(min: int, ls: seq<int>): int
    decreases |ls|
  {
    if ls == [] then min
    else LowerLatency(if min > ls[0] then ls[0] else min, ls[1..])
  }

  function MinLatency(ls: seq<int>): int
    requires ls != []
  {
    LowerLatency(ls[0], ls)
  }

  lemma {:induction false} LowerMeaning(min: int, ds: seq<int>)
    ensures Lower(min, ds) <= min
    ensures forall i :: 0 <= i < |ds| && ds[i] != 0 ==> Lower(min, ds) <= ds[i]
    ensures Lower(min, ds) == min || (Lower(min, ds) != 0 && Lower(min, ds) in ds)
    decreases |ds|
  {
    if ds != [] {
      LowerMeaning(if ds[0] != 0 && min > ds[0] then ds[0] else min, ds[1..]);
    }
  }

  /** The programmed delay, exactly: the least of the first listener's delay and all non-zero ones. */
  lemma MinDelayMeaning(ds: seq<int>, d: int)
    requires ds != []
    ensures MinDelay(ds) == d
       <==> (d == ds[0] || (d != 0 && d in ds)) && d <= ds[0] && forall i :: 0 <= i < |ds| && ds[i] != 0 ==> d <= ds[i]
  {
    LowerMeaning(ds[0], ds);
  }

  /** With no negative delay it is 0 when the first is 0, and otherwise the least non-zero one. */
  lemma MinDelayOfNonNegative(ds: seq<int>)
    requires ds != [] && forall i :: 0 <= i < |ds| ==> 0 <= ds[i]
    ensures ds[0] == 0 ==> MinDelay(ds) == 0
    ensures ds[0] != 0 ==> MinDelay(ds) in ds && MinDelay(ds) != 0
                           && forall i :: 0 <= i < |ds| && ds[i] != 0 ==> MinDelay(ds) <= ds[i]
  {
    LowerMeaning(ds[0], ds);
  }

  /** The programmed delay is the minimum of all the delays if and only if no zero hides behind a
      positive first delay. */
  lemma MinDelayIsMinimum(ds: seq<int>)
    requires ds != [] && forall i :: 0 <= i < |ds| ==> 0 <= ds[i]
    ensures (forall i :: 0 <= i < |ds| ==> MinDelay(ds) <= ds[i]) <==> ds[0] == 0 || 0 !in ds
  {
    LowerMeaning(ds[0], ds);
    if 0 in ds && ds[0] != 0 {
      var k :| 0 <= k < |ds| && ds[k] == 0;
      assert MinDelay(ds) > ds[k];
    }
  }

  lemma {:induction false} LowerLatencyMeaning(min: int, ls: seq<int>)
    ensures LowerLatency(min, ls) <= min
    ensures forall i :: 0 <= i < |ls| ==> LowerLatency(min, ls) <= ls[i]
    ensures LowerLatency(min, ls) == min || LowerLatency(min, ls) in ls
    decreases |ls|
  {
    if ls != [] {
      LowerLatencyMeaning(if min > ls[0] then ls[0] else min, ls[1..]);
    }
  }

  // ----- activation

  function Without(l: seq<nat>, t: nat): (r: seq<nat>)
    ensures forall u :: u in r ==> u in l
  {
    if l == [] then [] else if l[0] == t then l[1..] else [l[0]] + Without(l[1..], t)
  }

  /** The driver of `h` once its listeners are `l`: reprogrammed for them if there are any. */
  function Reprogrammed(s: Sensor, st: seq<Context>, before: Driver, l: seq<nat>, on: bool): Driver
    requires Within(l, |st|)
  {
    Driver(on,
           if l == [] then before.delay else MinDelay(Delays(st, l)),
           if l == [] || s.fifoMax == 0 then before.latency else MinLatency(Latencies(st, l)))
  }

  function Attached(s: Sensor, st: seq<Context>, c: Context, t: nat): Context
    requires Within(c.listener, |st|) && t < |st|
  {
    var l := if t in c.listener then c.listener else c.listener + [t];
    c.(listener := l, driver := Reprogrammed(s, st, c.driver, l, true))
  }

  function Detached(s: Sensor, st: seq<Context>, c: Context, t: nat): Context
    requires Within(c.listener, |st|)
  {
    var l := Without(c.listener, t);
    c.(listener := l, driver := Reprogrammed(s, st, c.driver, l, l != [] && c.driver.on))
  }

  predicate Ranged(st: seq<Context>) {
    forall h :: 0 <= h < |st| ==> Within(st[h].listener, |st|)
  }

  /** Nothing but listeners and drivers differs. */
  ghost predicate SameRequests(a: seq<Context>, b: seq<Context>) {
    |a| == |b| && forall u :: 0 <= u < |a| ==> b[u] == a[u].(listener := b[u].listener, driver := b[u].driver)
  }

  /** What activation of `t` does to its dependency `h`. */
  function Visited(cfg: seq<Sensor>, st: seq<Context>, h: nat, t: nat, enable: bool): (r: seq<Context>)
    requires |cfg| == |st| && Ranged(st) && h < |st| && t < |st|
    ensures SameRequests(st, r) && Ranged(r)
  {
    st[h := if enable then Attached(cfg[h], st, st[h], t) else Detached(cfg[h], st, st[h], t)]
  }

  function AllVisited(cfg: seq<Sensor>, st: seq<Context>, deps: seq<nat>, t: nat, enable: bool): (r: seq<Context>)
    requires |cfg| == |st| && Ranged(st) && t < |st| && Within(deps, |st|)
    ensures SameRequests(st, r) && Ranged(r)
    decreases |deps|
  {
    if deps == [] then st
    else
      assert deps[0] in deps && forall h :: h in deps[1..] ==> h in deps;
      AllVisited(cfg, Visited(cfg, st, deps[0], t, enable), deps[1..], t, enable)
  }

  /** Going through a list of dependencies, one at a time from any position. */
  lemma VisitedFrom(cfg: seq<Sensor>, st: seq<Context>, deps: seq<nat>, i: nat, t: nat, enable: bool)
    requires |cfg| == |st| && Ranged(st) && t < |st| && i < |deps| && Within(deps[i..], |st|)
    ensures deps[i] < |st| && Within(deps[i + 1..], |st|)
    ensures AllVisited(cfg, st, deps[i..], t, enable)
         == AllVisited(cfg, Visited(cfg, st, deps[i], t, enable), deps[i + 1..], t, enable)
  {
    assert deps[i..][0] == deps[i] && deps[i..][1..] == deps[i + 1..];
    WithinTail(deps[i..], |st|);
  }

  /** The whole activation of sensor `t`. */
  function Activated(cfg: seq<Sensor>, st: seq<Context>, t: nat, enable: bool): (r: seq<Context>)
    requires |cfg| == |st| && Ranged(st) && t < |st| && Within(cfg[t].depList, |st|)
    ensures |r| == |st| && Ranged(r)
  {
    var s1 := st[t := st[t].(enable := enable)];
    assert Ranged(s1);
    var s2 := AllVisited(cfg, s1, cfg[t].depList, t, enable);
    if cfg[t].isVirtual then s2[t := s2[t].(driver := s2[t].driver.(on := enable))] else s2
  }

  lemma {:induction false} WithoutMeaning(l: seq<nat>, t: nat)
    requires NoDuplicates(l)
    ensures NoDuplicates(Without(l, t))
    ensures forall u :: u in Without(l, t) <==> u in l && u != t
  {
    if l != [] {
      assert l == [l[0]] + l[1..];
      if l[0] != t {
        WithoutMeaning(l[1..], t);
        assert l[0] !in Without(l[1..], t);
      }
    }
  }

  /** The state in the middle of an activation of `t`: the dependencies in `done` are settled. */
  ghost predicate Settling(cfg: seq<Sensor>, st: seq<Context>, t: nat, enable: bool, done: set<nat>)
    requires t < |st|
  {
    && Arranged(cfg) && |st| == |cfg|
    && (forall h :: 0 <= h < |st| ==> Within(st[h].listener, |st|) && NoDuplicates(st[h].listener))
    && (forall h, u :: 0 <= h < |st| && 0 <= u < |st| && u != t ==> Mirrored(cfg, st, h, u))
    && (forall h :: 0 <= h < |st| && (h != t || !cfg[t].isVirtual) ==> Switched(cfg[h], st[h]))
    && (forall h :: 0 <= h < |st| ==> DelayRight(st, h))
    && (forall h :: 0 <= h < |st| ==> LatencyRight(cfg[h], st, h))
    && (forall h :: 0 <= h < |st| && h in done ==> (t in st[h].listener <==> enable))
    && (forall h :: 0 <= h < |st| && h !in cfg[t].depList ==> t !in st[h].listener)
  }

  lemma SameDelays(st: seq<Context>, r: seq<Context>, l: seq<nat>)
    requires SameRequests(st, r) && Within(l, |st|)
    ensures Delays(r, l) == Delays(st, l) && Latencies(r, l) == Latencies(st, l)
  {
    forall i | 0 <= i < |l| ensures Delays(r, l)[i] == Delays(st, l)[i] && Latencies(r, l)[i] == Latencies(st, l)[i] {
      assert l[i] in l;
    }
  }

  /** Visiting one dependency settles it and only it. */
  lemma VisitSettles(cfg: seq<Sensor>, st: seq<Context>, h: nat, t: nat, enable: bool, done: set<nat>)
    requires t < |st| && h < |st| && Settling(cfg, st, t, enable, done)
    requires h in cfg[t].depList && !cfg[h].isVirtual
    ensures Settling(cfg, Visited(cfg, st, h, t, enable), t, enable, done + {h})
  {
    var r := Visited(cfg, st, h, t, enable);
    WithoutMeaning(st[h].listener, t);
    VisitPrograms(cfg, st, h, t, enable);
    forall g, u | 0 <= g < |r| && 0 <= u < |r| && u != t ensures Mirrored(cfg, r, g, u) {
      assert Mirrored(cfg, st, g, u);
    }
  }

  lemma VisitPrograms(cfg: seq<Sensor>, st: seq<Context>, h: nat, t: nat, enable: bool)
    requires |cfg| == |st| && Ranged(st) && t < |st| && h < |st|
    requires forall g :: 0 <= g < |st| ==> DelayRight(st, g)
    requires forall g :: 0 <= g < |st| ==> LatencyRight(cfg[g], st, g)
    ensures var r := Visited(cfg, st, h, t, enable);
      && (forall g :: 0 <= g < |st| ==> DelayRight(r, g))
      && (forall g :: 0 <= g < |st| ==> LatencyRight(cfg[g], r, g))
  {
    var r := Visited(cfg, st, h, t, enable);
    forall g | 0 <= g < |r| ensures DelayRight(r, g) && LatencyRight(cfg[g], r, g) {
      SameDelays(st, r, r[g].listener);
      if g != h {
        assert r[g] == st[g] && DelayRight(st, g) && LatencyRight(cfg[g], st, g);
      }
    }
  }

  lemma SettlingRanged(cfg: seq<Sensor>, st: seq<Context>, t: nat, enable: bool, done: set<nat>)
    requires t < |st| && Settling(cfg, st, t, enable, done)
    ensures Ranged(st) && |st| == |cfg|
  {}

  lemma FewerSettled(cfg: seq<Sensor>, st: seq<Context>, t: nat, enable: bool, done: set<nat>, goal: set<nat>)
    requires t < |st| && Settling(cfg, st, t, enable, done) && goal <= done
    ensures Settling(cfg, st, t, enable, goal)
  {}

  lemma {:induction false} AllVisitsSettle(cfg: seq<Sensor>, st: seq<Context>, deps: seq<nat>, t: nat, enable: bool,
                                           done: set<nat>, goal: set<nat>)
    requires t < |st| && Settling(cfg, st, t, enable, done)
    requires forall h :: h in deps ==> h in cfg[t].depList && h < |st| && !cfg[h].isVirtual
    requires forall h :: h in goal ==> h in done || h in deps
    ensures Ranged(st) && |st| == |cfg|
    ensures Settling(cfg, AllVisited(cfg, st, deps, t, enable), t, enable, goal)
    decreases |deps|
  {
    SettlingRanged(cfg, st, t, enable, done);
    hide Settling;
    if deps == [] {
      FewerSettled(cfg, st, t, enable, done, goal);
    } else {
      assert deps[0] in deps && forall h :: h in deps[1..] ==> h in deps;
      VisitSettles(cfg, st, deps[0], t, enable, done);
      hide Visited;
      AllVisitsSettle(cfg, Visited(cfg, st, deps[0], t, enable), deps[1..], t, enable, done + {deps[0]}, goal);
    }
  }

  /** Activation keeps the invariant: for every dependency relation and every state. */
  lemma ActivatedConsistent(cfg: seq<Sensor>, st: seq<Context>, t: nat, enable: bool)
    requires Consistent(cfg, st) && t < |st|
    ensures Ranged(st) && Within(cfg[t].depList, |st|)
    ensures Consistent(cfg, Activated(cfg, st, t, enable))
    ensures Activated(cfg, st, t, enable)[t].enable == enable
  {
    assert GoodSensor(cfg, cfg[t]);
    var s1 := st[t := st[t].(enable := enable)];
    EnableSettles(cfg, st, t, enable);
    var all := set h | h in cfg[t].depList;
    AllVisitsSettle(cfg, s1, cfg[t].depList, t, enable, {}, all);
    SettledConsistent(cfg, AllVisited(cfg, s1, cfg[t].depList, t, enable), t, enable, all);
  }

  lemma EnableSettles(cfg: seq<Sensor>, st: seq<Context>, t: nat, enable: bool)
    requires Consistent(cfg, st) && t < |st|
    ensures Settling(cfg, st[t := st[t].(enable := enable)], t, enable, {})
  {
    var r := st[t := st[t].(enable := enable)];
    forall h | 0 <= h < |r| ensures DelayRight(r, h) && LatencyRight(cfg[h], r, h) {
      assert DelayRight(st, h) && LatencyRight(cfg[h], st, h);
      SameNumbers(st, r, st[h].listener);
    }
    forall h, u | 0 <= h < |r| && 0 <= u < |r| && u != t ensures Mirrored(cfg, r, h, u) {
      assert Mirrored(cfg, st, h, u);
    }
    forall h | 0 <= h < |r| && h !in cfg[t].depList ensures t !in r[h].listener {
      assert Mirrored(cfg, st, h, t);
    }
    forall h | 0 <= h < |r| && (h != t || !cfg[t].isVirtual) ensures Switched(cfg[h], r[h]) {
      assert Switched(cfg[h], st[h]);
    }
  }

  lemma SameNumbers(st: seq<Context>, r: seq<Context>, l: seq<nat>)
    requires |st| == |r| && Within(l, |st|)
    requires forall u :: 0 <= u < |st| ==> r[u].delayNs == st[u].delayNs && r[u].latencyNs == st[u].latencyNs
    ensures Delays(r, l) == Delays(st, l) && Latencies(r, l) == Latencies(st, l)
  {
    forall i | 0 <= i < |l| ensures Delays(r, l)[i] == Delays(st, l)[i] && Latencies(r, l)[i] == Latencies(st, l)[i] {
      assert l[i] in l;
    }
  }

  lemma SettledConsistent(cfg: seq<Sensor>, st: seq<Context>, t: nat, enable: bool, done: set<nat>)
    requires t < |st| && Settling(cfg, st, t, enable, done) && st[t].enable == enable
    requires forall h :: h in cfg[t].depList ==> h in done
    ensures Consistent(cfg, if cfg[t].isVirtual then st[t := st[t].(driver := st[t].driver.(on := enable))] else st)
  {
    var r := if cfg[t].isVirtual then st[t := st[t].(driver := st[t].driver.(on := enable))] else st;
    forall h, u | 0 <= h < |r| && 0 <= u < |r| ensures Mirrored(cfg, r, h, u) {
      if u != t { assert Mirrored(cfg, st, h, u); }
    }
    forall h | 0 <= h < |r| ensures DelayRight(r, h) && LatencyRight(cfg[h], r, h) && Switched(cfg[h], r[h]) {
      assert DelayRight(st, h) && LatencyRight(cfg[h], st, h);
      SameNumbers(st, r, st[h].listener);
      if h != t { assert Switched(cfg[h], st[h]); }
    }
  }

  // ----- requested delays and latencies

  /** `h` reprogrammed with the delay its listeners now call for. */
  function DelaySynced(st: seq<Context>, h: nat): (r: seq<Context>)
    requires Ranged(st) && h < |st|
    ensures SameRequests(st, r) && Ranged(r)
  {
    if st[h].listener == [] then st
    else st[h := st[h].(driver := st[h].driver.(delay := MinDelay(Delays(st, st[h].listener))))]
  }

  function LatencySynced(cfg: seq<Sensor>, st: seq<Context>, h: nat): (r: seq<Context>)
    requires Ranged(st) && h < |st| == |cfg|
    ensures SameRequests(st, r) && Ranged(r)
  {
    if st[h].listener == [] || cfg[h].fifoMax == 0 then st
    else st[h := st[h].(driver := st[h].driver.(latency := MinLatency(Latencies(st, st[h].listener))))]
  }

  /** `h` reprogrammed with its delay and, if asked, its latency. */
  function Synced(cfg: seq<Sensor>, st: seq<Context>, h: nat, both: bool): (r: seq<Context>)
    requires |cfg| == |st| && Ranged(st) && h < |st|
    ensures SameRequests(st, r) && Ranged(r)
  {
    var s := DelaySynced(st, h);
    if both then LatencySynced(cfg, s, h) else s
  }

  function AllSynced(cfg: seq<Sensor>, st: seq<Context>, deps: seq<nat>, both: bool): (r: seq<Context>)
    requires |cfg| == |st| && Ranged(st) && Within(deps, |st|)
    ensures SameRequests(st, r) && Ranged(r)
    decreases |deps|
  {
    if deps == [] then st
    else
      assert deps[0] in deps && forall h :: h in deps[1..] ==> h in deps;
      AllSynced(cfg, Synced(cfg, st, deps[0], both), deps[1..], both)
  }

  /** Going through a list of dependencies, one at a time from any position. */
  lemma SyncedFrom(cfg: seq<Sensor>, st: seq<Context>, deps: seq<nat>, i: nat, both: bool)
    requires |cfg| == |st| && Ranged(st) && i < |deps| && Within(deps[i..], |st|)
    ensures deps[i] < |st| && Within(deps[i + 1..], |st|)
    ensures AllSynced(cfg, st, deps[i..], both) == AllSynced(cfg, Synced(cfg, st, deps[i], both), deps[i + 1..], both)
  {
    assert deps[i..][0] == deps[i] && deps[i..][1..] == deps[i + 1..];
    WithinTail(deps[i..], |st|);
  }

  /** The delay stored for a request: a shorter one is raised to the sensor's minimum. */
  function ClampedDelay(s: Sensor, ns: int): int {
    if ns < s.minDelay * 1000 then s.minDelay * 1000 else ns
  }

  function DelaySet(cfg: seq<Sensor>, st: seq<Context>, t: nat, ns: int): (r: seq<Context>)
    requires |cfg| == |st| && Ranged(st) && t < |st| && Within(cfg[t].depList, |st|)
    ensures |r| == |st| && Ranged(r)
  {
    var s1 := st[t := st[t].(delayNs := ClampedDelay(cfg[t], ns))];
    assert Ranged(s1);
    AllSynced(cfg, s1, cfg[t].depList, false)
  }

  function Batched(cfg: seq<Sensor>, st: seq<Context>, t: nat, sampleNs: int, latencyNs: int): (r: seq<Context>)
    requires |cfg| == |st| && Ranged(st) && t < |st| && Within(cfg[t].depList, |st|)
    ensures |r| == |st| && Ranged(r)
  {
    var s1 := st[t := st[t].(delayNs := sampleNs, latencyNs := latencyNs)];
    assert Ranged(s1);
    AllSynced(cfg, s1, cfg[t].depList, true)
  }

  /** The state in the middle of a change of `t`'s request: only the drivers of sensors in `todo`
      may be out of date. */
  ghost predicate Syncing(cfg: seq<Sensor>, st: seq<Context>, todo: set<nat>, both: bool) {
    && Arranged(cfg) && |st| == |cfg|
    && (forall h :: 0 <= h < |st| ==> Within(st[h].listener, |st|) && NoDuplicates(st[h].listener))
    && (forall h, u :: 0 <= h < |st| && 0 <= u < |st| ==> Mirrored(cfg, st, h, u))
    && (forall h :: 0 <= h < |st| ==> Switched(cfg[h], st[h]))
    && (forall h :: 0 <= h < |st| && h !in todo ==> DelayRight(st, h))
    && (forall h :: 0 <= h < |st| && (!both || h !in todo) ==> LatencyRight(cfg[h], st, h))
  }

  lemma SyncOne(cfg: seq<Sensor>, st: seq<Context>, h: nat, todo: set<nat>, both: bool)
    requires Syncing(cfg, st, todo, both) && h < |st|
    ensures Ranged(st)
    ensures Syncing(cfg, Synced(cfg, st, h, both), todo - {h}, both)
  {
    var s := DelaySynced(st, h);
    var r := if both then LatencySynced(cfg, s, h) else s;
    forall g, u | 0 <= g < |r| && 0 <= u < |r| ensures Mirrored(cfg, r, g, u) {
      assert Mirrored(cfg, st, g, u);
    }
    forall g | 0 <= g < |r| ensures Switched(cfg[g], r[g]) {
      assert Switched(cfg[g], st[g]);
    }
    forall g | 0 <= g < |r|
      ensures (g !in todo - {h} ==> DelayRight(r, g)) && (!both || g !in todo - {h} ==> LatencyRight(cfg[g], r, g))
    {
      SameDelays(st, s, st[g].listener);
      SameDelays(st, r, st[g].listener);
      if g !in todo { assert DelayRight(st, g); }
      if !both || g !in todo { assert LatencyRight(cfg[g], st, g); }
    }
  }

  lemma {:induction false} SyncAll(cfg: seq<Sensor>, st: seq<Context>, deps: seq<nat>, todo: set<nat>, both: bool)
    requires Syncing(cfg, st, todo, both) && Within(deps, |st|)
    requires forall h :: h in todo ==> h in deps
    ensures Ranged(st) && |st| == |cfg|
    ensures Consistent(cfg, AllSynced(cfg, st, deps, both))
    decreases |deps|
  {
    if deps == [] {
      assert todo == {};
    } else {
      assert deps[0] in deps && forall h :: h in deps[1..] ==> h in deps;
      SyncOne(cfg, st, deps[0], todo, both);
      hide Syncing;
      SyncAll(cfg, Synced(cfg, st, deps[0], both), deps[1..], todo - {deps[0]}, both);
    }
  }

  /** A new request of `t` outdates only the sensors it listens on, and those are its dependencies. */
  lemma RequestSyncing(cfg: seq<Sensor>, st: seq<Context>, t: nat, delayNs: int, latencyNs: int, both: bool)
    requires Consistent(cfg, st) && t < |st| && (both || latencyNs == st[t].latencyNs)
    ensures Syncing(cfg, st[t := st[t].(delayNs := delayNs, latencyNs := latencyNs)],
                    (set h | h in cfg[t].depList), both)
  {
    var r := st[t := st[t].(delayNs := delayNs, latencyNs := latencyNs)];
    forall g, u | 0 <= g < |r| && 0 <= u < |r| ensures Mirrored(cfg, r, g, u) {
      assert Mirrored(cfg, st, g, u);
    }
    forall g | 0 <= g < |r|
      ensures Switched(cfg[g], r[g])
      ensures (g !in cfg[t].depList ==> DelayRight(r, g)) && (!both || g !in cfg[t].depList ==> LatencyRight(cfg[g], r, g))
    {
      assert Switched(cfg[g], st[g]) && DelayRight(st, g) && LatencyRight(cfg[g], st, g) && Mirrored(cfg, st, g, t);
      if g !in cfg[t].depList || !both {
        OthersNumbers(st, r, t, st[g].listener);
      }
    }
  }

  lemma OthersNumbers(st: seq<Context>, r: seq<Context>, t: nat, l: seq<nat>)
    requires |st| == |r| && Within(l, |st|)
    requires forall u :: 0 <= u < |st| && u != t ==> r[u] == st[u]
    ensures t !in l ==> Delays(r, l) == Delays(st, l)
    ensures t !in l || (t < |st| && r[t].latencyNs == st[t].latencyNs) ==> Latencies(r, l) == Latencies(st, l)
  {
    forall i | 0 <= i < |l|
      ensures t !in l ==> Delays(r, l)[i] == Delays(st, l)[i]
      ensures t !in l || (t < |st| && r[t].latencyNs == st[t].latencyNs) ==> Latencies(r, l)[i] == Latencies(st, l)[i]
    {
      assert l[i] in l;
    }
  }

  lemma DelaySetConsistent(cfg: seq<Sensor>, st: seq<Context>, t: nat, ns: int)
    requires Consistent(cfg, st) && t < |st|
    ensures Ranged(st) && Within(cfg[t].depList, |st|)
    ensures Consistent(cfg, DelaySet(cfg, st, t, ns))
  {
    assert GoodSensor(cfg, cfg[t]);
    RequestSyncing(cfg, st, t, ClampedDelay(cfg[t], ns), st[t].latencyNs, false);
    SyncAll(cfg, st[t := st[t].(delayNs := ClampedDelay(cfg[t], ns))], cfg[t].depList, (set h | h in cfg[t].depList), false);
  }

  lemma BatchedConsistent(cfg: seq<Sensor>, st: seq<Context>, t: nat, sampleNs: int, latencyNs: int)
    requires Consistent(cfg, st) && t < |st|
    ensures Ranged(st) && Within(cfg[t].depList, |st|)
    ensures Consistent(cfg, Batched(cfg, st, t, sampleNs, latencyNs))
  {
    assert GoodSensor(cfg, cfg[t]);
    RequestSyncing(cfg, st, t, sampleNs, latencyNs, true);
    SyncAll(cfg, st[t := st[t].(delayNs := sampleNs, latencyNs := latencyNs)], cfg[t].depList,
            (set h | h in cfg[t].depList), true);
  }

  // ----- calls and runs

  datatype Call =
    | Activate(handle: int, enable: bool)
    | SetDelay(handle: int, ns: int)
    | Batch(handle: int, sampleNs: int, latencyNs: int)

  /** The position of the sensor with a handle, or the table's length. */
  function Find(cfg: seq<Sensor>, handle: int): (t: nat)
    ensures t <= |cfg|
    ensures t < |cfg| ==> cfg[t].handle == handle
    ensures t == |cfg| ==> forall i :: 0 <= i < |cfg| ==> cfg[i].handle != handle
  {
    if cfg == [] then 0 else if cfg[0].handle == handle then 0 else 1 + Find(cfg[1..], handle)
  }

  /** Whether a call is refused with EINVAL, leaving everything as it was. */
  predicate Refused(cfg: seq<Sensor>, call: Call) {
    || Find(cfg, call.handle) == |cfg|
    || (call.SetDelay? && call.ns == 0)
    || (call.Batch? && call.latencyNs != 0 && call.latencyNs < call.sampleNs)
  }

  /** Which calls are refused, in full: an unknown handle, a delay of 0, a latency below the period. */
  lemma RefusedMeaning(cfg: seq<Sensor>, call: Call)
    ensures (exists i :: 0 <= i < |cfg| && cfg[i].handle == call.handle) ==>
      (Refused(cfg, call) <==> match call
         case Activate(_, _) => false
         case SetDelay(_, ns) => ns == 0
         case Batch(_, sampleNs, latencyNs) => latencyNs != 0 && latencyNs < sampleNs)
    ensures (forall i :: 0 <= i < |cfg| ==> cfg[i].handle != call.handle) ==> Refused(cfg, call)
  {
    var t := Find(cfg, call.handle);
    assert t < |cfg| ==> cfg[t].handle == call.handle;
  }

  function Performed(cfg: seq<Sensor>, st: seq<Context>, call: Call): (r: seq<Context>)
    requires |cfg| == |st| && Ranged(st) && forall i :: 0 <= i < |cfg| ==> Within(cfg[i].depList, |cfg|)
    ensures |r| == |st| && Ranged(r)
  {
    if Refused(cfg, call) then st
    else
      var t := Find(cfg, call.handle);
      match call
      case Activate(_, enable) => Activated(cfg, st, t, enable)
      case SetDelay(_, ns) => DelaySet(cfg, st, t, ns)
      case Batch(_, sampleNs, latencyNs) => Batched(cfg, st, t, sampleNs, latencyNs)
  }

  function Run(cfg: seq<Sensor>, st: seq<Context>, calls: seq<Call>): (r: seq<Context>)
    requires |cfg| == |st| && Ranged(st) && forall i :: 0 <= i < |cfg| ==> Within(cfg[i].depList, |cfg|)
    ensures |r| == |st| && Ranged(r)
    decreases |calls|
  {
    if calls == [] then st else Run(cfg, Performed(cfg, st, calls[0]), calls[1..])
  }

  /** What the last activation of a sensor said. */
  function LastActivation(before: bool, handle: int, calls: seq<Call>): bool
    decreases |calls|
  {
    if calls == [] then before
    else LastActivation(if calls[0].Activate? && calls[0].handle == handle then calls[0].enable else before,
                        handle, calls[1..])
  }

  lemma PerformedConsistent(cfg: seq<Sensor>, st: seq<Context>, call: Call)
    requires Consistent(cfg, st)
    ensures Ranged(st) && forall i :: 0 <= i < |cfg| ==> Within(cfg[i].depList, |cfg|)
    ensures Consistent(cfg, Performed(cfg, st, call))
    ensures forall i :: 0 <= i < |cfg| ==>
      Performed(cfg, st, call)[i].enable
      == if call.Activate? && call.handle == cfg[i].handle then call.enable else st[i].enable
  {
    DependenciesWithin(cfg);
    if !Refused(cfg, call) {
      var t := Find(cfg, call.handle);
      match call
      case Activate(_, enable) =>
        ActivatedConsistent(cfg, st, t, enable);
        OthersStayEnabled(cfg, st, t, enable);
      case SetDelay(_, ns) => DelaySetConsistent(cfg, st, t, ns);
      case Batch(_, sampleNs, latencyNs) => BatchedConsistent(cfg, st, t, sampleNs, latencyNs);
    }
  }

  lemma DependenciesWithin(cfg: seq<Sensor>)
    requires WellFormed(cfg)
    ensures forall i :: 0 <= i < |cfg| ==> Within(cfg[i].depList, |cfg|)
  {
  }

  lemma OthersStayEnabled(cfg: seq<Sensor>, st: seq<Context>, t: nat, enable: bool)
    requires |cfg| == |st| && Ranged(st) && t < |st| && Within(cfg[t].depList, |st|)
    ensures forall i :: 0 <= i < |st| ==>
      Activated(cfg, st, t, enable)[i].enable == if i == t then enable else st[i].enable
  {}

  /** After any run of calls every sensor is in order, and listens according to its last activation. */
  lemma {:induction false} RunConsistent(cfg: seq<Sensor>, st: seq<Context>, calls: seq<Call>)
    requires Consistent(cfg, st)
    ensures Ranged(st) && forall i :: 0 <= i < |cfg| ==> Within(cfg[i].depList, |cfg|)
    ensures Consistent(cfg, Run(cfg, st, calls))
    ensures forall i :: 0 <= i < |cfg| ==>
      Run(cfg, st, calls)[i].enable == LastActivation(st[i].enable, cfg[i].handle, calls)
    decreases |calls|
  {
    if calls == [] {
      DependenciesWithin(cfg);
    } else {
      PerformedConsistent(cfg, st, calls[0]);
      hide Consistent;
      hide Performed;
      RunConsistent(cfg, Performed(cfg, st, calls[0]), calls[1..]);
    }
  }

  /** The delay that one call leaves a sensor with. */
  function NextDelay(before: int, s: Sensor, call: Call): int {
    match call
    case SetDelay(handle, ns) => if handle == s.handle && ns != 0 then ClampedDelay(s, ns) else before
    case Batch(handle, sampleNs, latencyNs) =>
      if handle == s.handle && (latencyNs == 0 || sampleNs <= latencyNs) then sampleNs else before
    case Activate(_, _) => before
  }

  function NextLatency(before: int, s: Sensor, call: Call): int {
    match call
    case Batch(handle, sampleNs, latencyNs) =>
      if handle == s.handle && (latencyNs == 0 || sampleNs <= latencyNs) then latencyNs else before
    case _ => before
  }

  /** The delay that a sensor's last accepted request left. */
  function LastDelay(before: int, s: Sensor, calls: seq<Call>): int
    decreases |calls|
  {
    if calls == [] then before else LastDelay(NextDelay(before, s, calls[0]), s, calls[1..])
  }

  /** The latency that a sensor's last accepted batch left. */
  function LastLatency(before: int, s: Sensor, calls: seq<Call>): int
    decreases |calls|
  {
    if calls == [] then before else LastLatency(NextLatency(before, s, calls[0]), s, calls[1..])
  }

  lemma PerformedRequests(cfg: seq<Sensor>, st: seq<Context>, call: Call, i: nat)
    requires WellFormed(cfg) && |cfg| == |st| && Ranged(st) && i < |cfg|
    requires forall k :: 0 <= k < |cfg| ==> Within(cfg[k].depList, |cfg|)
    ensures Performed(cfg, st, call)[i].delayNs == NextDelay(st[i].delayNs, cfg[i], call)
    ensures Performed(cfg, st, call)[i].latencyNs == NextLatency(st[i].latencyNs, cfg[i], call)
  {
    FindUnique(cfg, i);
    hide AllVisited;
    hide AllSynced;
    hide WellFormed;
    hide Ranged;
  }

  lemma FindUnique(cfg: seq<Sensor>, h: nat)
    requires WellFormed(cfg) && h < |cfg|
    ensures Find(cfg, cfg[h].handle) == h
  {
    var i := Find(cfg, cfg[h].handle);
    assert i < |cfg|;
  }

  /** After any run every sensor's delay and latency are those its last accepted requests asked for. */
  lemma {:induction false} RunRequests(cfg: seq<Sensor>, st: seq<Context>, calls: seq<Call>, i: nat)
    requires WellFormed(cfg) && |cfg| == |st| && Ranged(st) && i < |cfg|
    requires forall k :: 0 <= k < |cfg| ==> Within(cfg[k].depList, |cfg|)
    ensures Run(cfg, st, calls)[i].delayNs == LastDelay(st[i].delayNs, cfg[i], calls)
    ensures Run(cfg, st, calls)[i].latencyNs == LastLatency(st[i].latencyNs, cfg[i], calls)
    decreases |calls|
  {
    if calls != [] {
      PerformedRequests(cfg, st, calls[0], i);
      hide Performed;
      hide WellFormed;
      hide ClampedDelay;
      RunRequests(cfg, Performed(cfg, st, calls[0]), calls[1..], i);
    }
  }

  /** The bounds that a stored delay keeps: it is the request or the minimum, and no less than either. */
  ghost predicate Raised(s: Sensor, ns: int, d: int) {
    ns <= d && s.minDelay * 1000 <= d && (d == ns || d == s.minDelay * 1000)
  }

  /** Whether a call is an accepted request of a sensor. */
  predicate Requests(s: Sensor, call: Call) {
    match call
    case Activate(_, _) => false
    case SetDelay(handle, ns) => handle == s.handle && ns != 0
    case Batch(handle, sampleNs, latencyNs) => handle == s.handle && (latencyNs == 0 || sampleNs <= latencyNs)
  }

  lemma {:induction false} LastRequest(before: int, latency: int, s: Sensor, calls: seq<Call>, k: nat)
    requires k < |calls| && Requests(s, calls[k])
    requires forall i :: k < i < |calls| ==> !Requests(s, calls[i])
    ensures calls[k].SetDelay? ==> Raised(s, calls[k].ns, LastDelay(before, s, calls))
    ensures calls[k].Batch? ==> LastDelay(before, s, calls) == calls[k].sampleNs
    ensures calls[k].Batch? ==> LastLatency(latency, s, calls) == calls[k].latencyNs
    decreases |calls|
  {
    var d, l := NextDelay(before, s, calls[0]), NextLatency(latency, s, calls[0]);
    if k == 0 {
      NoRequest(d, l, s, calls[1..]);
    } else {
      LastRequest(d, l, s, calls[1..], k - 1);
    }
  }

  lemma {:induction false} NoRequest(before: int, latency: int, s: Sensor, calls: seq<Call>)
    requires forall i :: 0 <= i < |calls| ==> !Requests(s, calls[i])
    ensures LastDelay(before, s, calls) == before && LastLatency(latency, s, calls) == latency
    decreases |calls|
  {
    if calls != [] {
      assert !Requests(s, calls[0]);
      NoRequest(before, latency, s, calls[1..]);
    }
  }

  /** After any run the last accepted request decides. If it set the delay, the sensor holds the request
      raised to its minimum, and if it was a batch, exactly the period and the latency given. */
  lemma RequestsHeld(cfg: seq<Sensor>, st: seq<Context>, calls: seq<Call>, t: nat, k: nat)
    requires Consistent(cfg, st) && t < |cfg| && k < |calls| && Requests(cfg[t], calls[k])
    requires forall i :: k < i < |calls| ==> !Requests(cfg[t], calls[i])
    ensures Ranged(st) && forall i :: 0 <= i < |cfg| ==> Within(cfg[i].depList, |cfg|)
    ensures calls[k].SetDelay? ==>
      var d := Run(cfg, st, calls)[t].delayNs;
      calls[k].ns <= d && cfg[t].minDelay * 1000 <= d && (d == calls[k].ns || d == cfg[t].minDelay * 1000)
    ensures calls[k].Batch? ==>
      Run(cfg, st, calls)[t].delayNs == calls[k].sampleNs && Run(cfg, st, calls)[t].latencyNs == calls[k].latencyNs
  {
    RunRequests(cfg, st, calls, t);
    LastRequest(st[t].delayNs, st[t].latencyNs, cfg[t], calls, k);
    hide Run;
    hide LastDelay;
    hide LastLatency;
    hide Requests;
  }

  lemma {:induction false} VisitsKeepLatency(cfg: seq<Sensor>, st: seq<Context>, deps: seq<nat>, t: nat, enable: bool, h: nat)
    requires |cfg| == |st| && Ranged(st) && t < |st| && Within(deps, |st|) && h < |st| && cfg[h].fifoMax == 0
    ensures AllVisited(cfg, st, deps, t, enable)[h].driver.latency == st[h].driver.latency
    decreases |deps|
  {
    if deps != [] {
      WithinTail(deps, |st|);
      VisitsKeepLatency(cfg, Visited(cfg, st, deps[0], t, enable), deps[1..], t, enable, h);
    }
  }

  lemma {:induction false} SyncsKeepLatency(cfg: seq<Sensor>, st: seq<Context>, deps: seq<nat>, both: bool, h: nat)
    requires |cfg| == |st| && Ranged(st) && Within(deps, |st|) && h < |st| && cfg[h].fifoMax == 0
    ensures AllSynced(cfg, st, deps, both)[h].driver.latency == st[h].driver.latency
    decreases |deps|
  {
    if deps != [] {
      WithinTail(deps, |st|);
      SyncsKeepLatency(cfg, Synced(cfg, st, deps[0], both), deps[1..], both, h);
    }
  }

  lemma PerformedKeepsLatency(cfg: seq<Sensor>, st: seq<Context>, call: Call, h: nat)
    requires |cfg| == |st| && Ranged(st) && (forall i :: 0 <= i < |cfg| ==> Within(cfg[i].depList, |cfg|))
    requires h < |st| && cfg[h].fifoMax == 0
    ensures Performed(cfg, st, call)[h].driver.latency == st[h].driver.latency
  {
    if !Refused(cfg, call) {
      var t := Find(cfg, call.handle);
      var deps := cfg[t].depList;
      hide AllVisited;
      hide AllSynced;
      match call
      case Activate(_, enable) =>
        var s1 := st[t := st[t].(enable := enable)];
        assert Ranged(s1);
        VisitsKeepLatency(cfg, s1, deps, t, enable, h);
      case SetDelay(_, ns) =>
        var s1 := st[t := st[t].(delayNs := ClampedDelay(cfg[t], ns))];
        assert Ranged(s1);
        SyncsKeepLatency(cfg, s1, deps, false, h);
      case Batch(_, sampleNs, latencyNs) =>
        var s1 := st[t := st[t].(delayNs := sampleNs, latencyNs := latencyNs)];
        assert Ranged(s1);
        SyncsKeepLatency(cfg, s1, deps, true, h);
    }
  }

  /** No run ever programs a latency into a sensor without a queue. */
  lemma {:induction false} NoQueueNoLatency(cfg: seq<Sensor>, st: seq<Context>, calls: seq<Call>, h: nat)
    requires |cfg| == |st| && Ranged(st) && (forall i :: 0 <= i < |cfg| ==> Within(cfg[i].depList, |cfg|))
    requires h < |st| && cfg[h].fifoMax == 0
    ensures Run(cfg, st, calls)[h].driver.latency == st[h].driver.latency
    decreases |calls|
  {
    if calls != [] {
      PerformedKeepsLatency(cfg, st, calls[0], h);
      hide Performed;
      NoQueueNoLatency(cfg, Performed(cfg, st, calls[0]), calls[1..], h);
    }
  }

  /** What a driver runs at, read off its listeners one by one: the delay of one of them, no more than
      that of the first and no more than any that is not 0; and the least of their latencies. */
  lemma DriverServes(cfg: seq<Sensor>, st: seq<Context>, h: nat)
    requires Consistent(cfg, st) && h < |cfg| && st[h].listener != []
    ensures Within(st[h].listener, |st|)
    ensures exists k :: 0 <= k < |st[h].listener| && st[h].driver.delay == st[Listener(st, h, k)].delayNs
    ensures st[h].driver.delay <= st[Listener(st, h, 0)].delayNs
    ensures forall k :: 0 <= k < |st[h].listener| && st[Listener(st, h, k)].delayNs != 0
                        ==> st[h].driver.delay <= st[Listener(st, h, k)].delayNs
    ensures cfg[h].fifoMax != 0 ==>
      && (exists k :: 0 <= k < |st[h].listener| && st[h].driver.latency == st[Listener(st, h, k)].latencyNs)
      && forall k :: 0 <= k < |st[h].listener| ==> st[h].driver.latency <= st[Listener(st, h, k)].latencyNs
  {
    var l := st[h].listener;
    var ds, ls := Delays(st, l), Latencies(st, l);
    assert DelayRight(st, h) && LatencyRight(cfg[h], st, h);
    LowerMeaning(ds[0], ds);
    LowerLatencyMeaning(ls[0], ls);
    assert forall k :: 0 <= k < |l| ==> ds[k] == st[Listener(st, h, k)].delayNs && ls[k] == st[Listener(st, h, k)].latencyNs;
    hide Consistent;
    hide Lower;
    hide LowerLatency;
    var d := MinDelay(ds);
    assert d in ds;
    var k :| 0 <= k < |ds| && ds[k] == d;
    assert st[h].driver.delay == st[Listener(st, h, k)].delayNs;
    if cfg[h].fifoMax != 0 {
      var n :| 0 <= n < |ls| && ls[n] == MinLatency(ls);
      assert st[h].driver.latency == st[Listener(st, h, n)].latencyNs;
    }
  }

  /** The position of a sensor's listener number `k`. */
  function Listener(st: seq<Context>, h: nat, k: nat): (t: nat)
    requires h < |st| && Within(st[h].listener, |st|) && k < |st[h].listener|
    ensures t == st[h].listener[k] < |st|
  {
    assert st[h].listener[k] in st[h].listener;
    st[h].listener[k]
  }

  const IDLE := Context(false, 0, 0, [], Driver(false, 0, 0))

  /** From power-on, over any dependency relation and any run: listening is exactly dependency on an
      enabled sensor, a hardware driver is on exactly with listeners, and it runs at their delay. */
  lemma PowerOnRun(cfg: seq<Sensor>, calls: seq<Call>, h: nat, t: nat)
    requires Arranged(cfg) && h < |cfg| && t < |cfg|
    ensures forall i :: 0 <= i < |cfg| ==> Within(cfg[i].depList, |cfg|)
    ensures var r := Run(cfg, seq(|cfg|, _ => IDLE), calls);
      && (t in r[h].listener <==> LastActivation(false, cfg[t].handle, calls) && h in cfg[t].depList)
      && NoDuplicates(r[h].listener)
      && (!cfg[h].isVirtual ==> (r[h].driver.on <==> r[h].listener != []))
      && (cfg[h].isVirtual ==> (r[h].driver.on <==> LastActivation(false, cfg[h].handle, calls)))
      && (r[h].listener != [] ==> r[h].driver.delay == MinDelay(Delays(r, r[h].listener)))
      && (r[h].listener != [] && cfg[h].fifoMax != 0 ==> r[h].driver.latency == MinLatency(Latencies(r, r[h].listener)))
  {
    var idle := seq(|cfg|, _ => IDLE);
    assert Consistent(cfg, idle);
    RunConsistent(cfg, idle, calls);
    var r := Run(cfg, idle, calls);
    hide Run;
    assert Mirrored(cfg, r, h, t) && Switched(cfg[h], r[h]) && DelayRight(r, h) && LatencyRight(cfg[h], r, h);
  }

  // ----- the dependency relation

  function Depending(cfg: seq<Sensor>, t: nat, dep: nat): seq<Sensor>
    requires t < |cfg|
  {
    if dep in cfg[t].depList then cfg else cfg[t := cfg[t].(depList := cfg[t].depList + [dep])]
  }

  /** A new dependency leaves the table in order and its handles where they were. */
  lemma DependingWellFormed(cfg: seq<Sensor>, t: nat, dep: nat)
    requires WellFormed(cfg) && t < |cfg| && dep < |cfg|
    ensures WellFormed(Depending(cfg, t, dep))
    ensures forall i :: 0 <= i < |cfg| ==> Within(Depending(cfg, t, dep)[i].depList, |cfg|)
    ensures forall handle :: Find(Depending(cfg, t, dep), handle) == Find(cfg, handle)
  {
    var r := Depending(cfg, t, dep);
    forall i | 0 <= i < |r| ensures Within(r[i].depList, |r|) {
      assert Within(cfg[i].depList, |cfg|);
    }
    forall handle ensures Find(r, handle) == Find(cfg, handle) {
      var i, j := Find(cfg, handle), Find(r, handle);
      assert i < |cfg| ==> r[i].handle == handle;
      assert j < |cfg| ==> cfg[j].handle == handle;
    }
    DependenciesWithin(r);
  }

  /** Adding a dependency keeps the invariant exactly when the sensor has it already, or when it is a
      hardware sensor and the sensor is not enabled at the time. */
  lemma DependencyKeeps(cfg: seq<Sensor>, st: seq<Context>, t: nat, dep: nat)
    requires Consistent(cfg, st) && t < |cfg| && dep < |cfg|
    ensures Consistent(Depending(cfg, t, dep), st)
       <==> dep in cfg[t].depList || (!cfg[dep].isVirtual && !st[t].enable)
  {
    var cfg' := Depending(cfg, t, dep);
    assert Mirrored(cfg, st, dep, t);
    assert dep in cfg'[t].depList;
    if dep !in cfg[t].depList {
      if cfg[dep].isVirtual {
        assert !GoodSensor(cfg', cfg'[t]);
      } else if st[t].enable {
        assert !Mirrored(cfg', st, dep, t);
      } else {
        DependingWellFormed(cfg, t, dep);
        DependingConsistent(cfg, st, t, dep);
      }
    }
  }

  lemma DependingConsistent(cfg: seq<Sensor>, st: seq<Context>, t: nat, dep: nat)
    requires Consistent(cfg, st) && t < |cfg| && dep < |cfg|
    requires !cfg[dep].isVirtual && !st[t].enable && WellFormed(Depending(cfg, t, dep))
    ensures Consistent(Depending(cfg, t, dep), st)
  {
    var cfg' := Depending(cfg, t, dep);
    forall i | 0 <= i < |cfg'| ensures GoodSensor(cfg', cfg'[i]) {
      assert GoodSensor(cfg, cfg[i]);
    }
    forall h, u | 0 <= h < |st| && 0 <= u < |st| ensures Mirrored(cfg', st, h, u) {
      assert Mirrored(cfg, st, h, u);
    }
    forall h | 0 <= h < |st| ensures Switched(cfg'[h], st[h]) && LatencyRight(cfg'[h], st, h) {
      assert Switched(cfg[h], st[h]) && LatencyRight(cfg[h], st, h);
    }
  }

  lemma {:induction false} WithoutAt(l: seq<nat>, i: nat, t: nat)
    requires i < |l| && t !in l[..i] && l[i] == t
    ensures Without(l, t) == l[..i] + l[i + 1..]
  {
    if i > 0 {
      assert l[0] == l[..i][0] && l[1..][..i - 1] == l[..i][1..];
      WithoutAt(l[1..], i - 1, t);
    }
  }

  lemma {:induction false} WithoutNothing(l: seq<nat>, t: nat)
    requires t !in l
    ensures Without(l, t) == l
  {
    if l != [] {
      WithoutNothing(l[1..], t);
    }
  }

  /** Registering and then synchronizing is attaching. */
  lemma AttachedInSteps(s: Sensor, cfg: seq<Sensor>, st: seq<Context>, h: nat, t: nat)
    requires |cfg| == |st| && Ranged(st) && h < |st| && t < |st| && s == cfg[h]
    ensures var l := if t in st[h].listener then st[h].listener else st[h].listener + [t];
      var s1 := st[h := st[h].(listener := l)];
      && Ranged(s1)
      && (var s3 := LatencySynced(cfg, DelaySynced(s1, h), h);
          s3[h := s3[h].(driver := s3[h].driver.(on := true))] == st[h := Attached(s, st, st[h], t)])
  {
    var l := if t in st[h].listener then st[h].listener else st[h].listener + [t];
    var s1 := st[h := st[h].(listener := l)];
    assert Within(l, |st|);
    assert Ranged(s1);
    SameDelays(st, s1, l);
    SameDelays(st, DelaySynced(s1, h), l);
  }

  /** Unregistering, synchronizing, and switching off with the last listener is detaching. */
  lemma DetachedInSteps(s: Sensor, cfg: seq<Sensor>, st: seq<Context>, h: nat, t: nat)
    requires |cfg| == |st| && Ranged(st) && h < |st| && s == cfg[h]
    ensures var s1 := st[h := st[h].(listener := Without(st[h].listener, t))];
      && Ranged(s1)
      && (var s3 := LatencySynced(cfg, DelaySynced(s1, h), h);
          (if s3[h].listener == [] then s3[h := s3[h].(driver := s3[h].driver.(on := false))] else s3)
          == st[h := Detached(s, st, st[h], t)])
  {
    var l := Without(st[h].listener, t);
    var s1 := st[h := st[h].(listener := l)];
    assert Within(l, |st|);
    assert Ranged(s1);
    SameDelays(st, s1, l);
    SameDelays(st, DelaySynced(s1, h), l);
  }

  /** With no listeners there is nothing to do but to switch the driver off. */
  lemma DetachedFromNothing(s: Sensor, st: seq<Context>, h: nat, t: nat)
    requires Ranged(st) && h < |st| && st[h].listener == []
    ensures st[h := st[h].(driver := st[h].driver.(on := false))] == st[h := Detached(s, st, st[h], t)]
  {}

  // ----- the stateful code

  class NativeSensorManager {
    var sensors: seq<Sensor>
    const context: array<Context>
    var handleMap: map<int, nat>

    ghost predicate Valid()
      reads this, context
    {
      && WellFormed(sensors) && context.Length == |sensors| && Ranged(context[..])
      && (forall i :: 0 <= i < |sensors| ==> Within(sensors[i].depList, |sensors|))
      && (forall handle :: handle in handleMap <==> Find(sensors, handle) < |sensors|)
      && (forall handle :: handle in handleMap ==> handleMap[handle] == Find(sensors, handle))
    }

    constructor (sensors: seq<Sensor>)
      requires WellFormed(sensors)
      ensures Valid() && this.sensors == sensors && context[..] == seq(|sensors|, _ => IDLE) && fresh(context)
    {
      this.sensors := sensors;
      context := new Context[|sensors|](_ => IDLE);
      handleMap := map handle | handle in (set s | s in sensors :: s.handle) :: Find(sensors, handle);
      new;
      DependenciesWithin(sensors);
      forall handle ensures handle in handleMap <==> Find(sensors, handle) < |sensors| {
        if handle in handleMap {
          var s :| s in sensors && s.handle == handle;
        }
        assert Find(sensors, handle) < |sensors| ==> sensors[Find(sensors, handle)] in sensors;
      }
    }

    /** Adds a listener unless one with the same handle is there. */
    method RegisterListener(hw: nat, virt: nat) returns (ret: int)
      requires Valid() && hw < context.Length && virt < context.Length
      modifies context
      ensures Valid()
      ensures ret == if virt in old(context[hw].listener) then -1 else 0
      ensures context[..] == old(context[..])[hw := old(context[hw]).(listener :=
                if virt in old(context[hw].listener) then old(context[hw].listener) else old(context[hw].listener) + [virt])]
    {
      var l := context[hw].listener;
      var i := 0;
      while i < |l|
        invariant 0 <= i <= |l| && virt !in l[..i]
      {
        assert l[i] in l;
        if sensors[l[i]].handle == sensors[virt].handle {
          return -1;
        }
        i := i + 1;
      }
      context[hw] := context[hw].(listener := l + [virt]);
      return 0;
    }

    /** Removes the first entry of a listener. */
    method UnregisterListener(hw: nat, virt: nat) returns (ret: int)
      requires Valid() && hw < context.Length && virt < context.Length
      modifies context
      ensures Valid()
      ensures ret == if virt in old(context[hw].listener) then 0 else -1
      ensures context[..] == old(context[..])[hw := old(context[hw]).(listener := Without(old(context[hw].listener), virt))]
    {
      var l := context[hw].listener;
      var i := 0;
      while i < |l|
        invariant 0 <= i <= |l| && virt !in l[..i]
      {
        if l[i] == virt {
          WithoutAt(l, i, virt);
          context[hw] := context[hw].(listener := l[..i] + l[i + 1..]);
          return 0;
        }
        i := i + 1;
      }
      WithoutNothing(l, virt);
      return -1;
    }

    /** Programs the delay that the listeners of a sensor call for. */
    method SyncDelay(handle: int) returns (ret: int)
      requires Valid()
      modifies context
      ensures Valid()
      ensures ret == if handle in handleMap then 0 else -22
      ensures context[..] == if handle in handleMap then DelaySynced(old(context[..]), handleMap[handle]) else old(context[..])
    {
      if handle !in handleMap {
        return -EINVAL;
      }
      var h := handleMap[handle];
      var l := context[h].listener;
      if l == [] {
        return 0;
      }
      ghost var ds := Delays(context[..], l);
      assert forall k :: 0 <= k < |l| ==> l[k] in l;
      var minNs := context[l[0]].delayNs;
      var i := 0;
      while i < |l|
        invariant 0 <= i <= |l|
        invariant Lower(minNs, ds[i..]) == MinDelay(ds)
      {
        var d := context[l[i]].delayNs;
        assert ds[i..][0] == d && ds[i..][1..] == ds[i + 1..];
        if d != 0 && minNs > d {
          minNs := d;
        }
        i := i + 1;
      }
      context[h] := context[h].(driver := context[h].driver.(delay := minNs));
      return 0;
    }

    /** Programs the latency that the listeners of a sensor with a queue call for. */
    method SyncLatency(handle: int) returns (ret: int)
      requires Valid()
      modifies context
      ensures Valid()
      ensures ret == if handle in handleMap then 0 else -22
      ensures context[..] == if handle in handleMap then LatencySynced(sensors, old(context[..]), handleMap[handle])
                             else old(context[..])
    {
      if handle !in handleMap {
        return -EINVAL;
      }
      var h := handleMap[handle];
      var l := context[h].listener;
      if l == [] {
        return 0;
      }
      ghost var ls := Latencies(context[..], l);
      assert forall k :: 0 <= k < |l| ==> l[k] in l;
      var minNs := context[l[0]].latencyNs;
      var i := 0;
      while i < |l|
        invariant 0 <= i <= |l|
        invariant LowerLatency(minNs, ls[i..]) == MinLatency(ls)
      {
        var d := context[l[i]].latencyNs;
        assert ls[i..][0] == d && ls[i..][1..] == ls[i + 1..];
        if minNs > d {
          minNs := d;
        }
        i := i + 1;
      }
      if sensors[h].fifoMax != 0 {
        context[h] := context[h].(driver := context[h].driver.(latency := minNs));
      }
      return 0;
    }

    method EnableDriver(h: nat, on: bool)
      requires Valid() && h < context.Length
      modifies context
      ensures Valid()
      ensures context[..] == old(context[..])[h := old(context[h]).(driver := old(context[h].driver).(on := on))]
    {
      context[h] := context[h].(driver := context[h].driver.(on := on));
    }

    /** What activation of `t` does to its dependency `h`. */
    method Visit(h: nat, t: nat, enable: bool)
      requires Valid() && h < context.Length && t < context.Length
      modifies context
      ensures Valid() && context[..] == Visited(sensors, old(context[..]), h, t, enable)
    {
      hide Attached;
      hide Detached;
      hide DelaySynced;
      hide LatencySynced;
      ghost var st := context[..];
      var handle := sensors[h].handle;
      FindUnique(sensors, h);
      if enable {
        AttachedInSteps(sensors[h], sensors, st, h, t);
        var _ := RegisterListener(h, t);
        var _ := SyncDelay(handle);
        var _ := SyncLatency(handle);
        EnableDriver(h, true);
      } else {
        if context[h].listener == [] {
          DetachedFromNothing(sensors[h], st, h, t);
        } else {
          DetachedInSteps(sensors[h], sensors, st, h, t);
        }
        if context[h].listener != [] {
          var _ := UnregisterListener(h, t);
          var _ := SyncDelay(handle);
          var _ := SyncLatency(handle);
        }
        if context[h].listener == [] {
          EnableDriver(h, false);
        }
      }
    }

    method DoActivate(handle: int, enable: bool) returns (ret: int)
      requires Valid()
      modifies context
      ensures Valid()
      ensures ret == if Refused(sensors, Activate(handle, enable)) then -22 else 0
      ensures context[..] == Performed(sensors, old(context[..]), Activate(handle, enable))
    {
      hide Visited;
      if handle !in handleMap {
        return -EINVAL;
      }
      var t := handleMap[handle];
      context[t] := context[t].(enable := enable);
      ghost var s1 := context[..];
      assert s1 == old(context[..])[t := old(context[t]).(enable := enable)];
      assert Ranged(s1);
      var deps := sensors[t].depList;
      var i := 0;
      assert deps[0..] == deps;
      while i < |deps|
        invariant 0 <= i <= |deps| && Valid() && Within(deps[i..], |sensors|)
        invariant AllVisited(sensors, context[..], deps[i..], t, enable) == AllVisited(sensors, s1, deps, t, enable)
      {
        VisitedFrom(sensors, context[..], deps, i, t, enable);
        Visit(deps[i], t, enable);
        i := i + 1;
      }
      if sensors[t].isVirtual {
        EnableDriver(t, enable);
      }
      return 0;
    }

    /** Synchronizes the delay, and if asked the latency, of one dependency. */
    method SyncDependency(h: nat, both: bool)
      requires Valid() && h < |sensors|
      modifies context
      ensures Valid() && context[..] == Synced(sensors, old(context[..]), h, both)
    {
      hide DelaySynced;
      hide LatencySynced;
      FindUnique(sensors, h);
      var _ := SyncDelay(sensors[h].handle);
      if both {
        var _ := SyncLatency(sensors[h].handle);
      }
    }

    /** Synchronizes a list of dependencies. */
    method SyncDependencies(deps: seq<nat>, both: bool)
      requires Valid() && Within(deps, |sensors|)
      modifies context
      ensures Valid() && context[..] == AllSynced(sensors, old(context[..]), deps, both)
    {
      hide Synced;
      ghost var s1 := context[..];
      var i := 0;
      assert deps[0..] == deps;
      while i < |deps|
        invariant 0 <= i <= |deps| && Valid() && Within(deps[i..], |sensors|)
        invariant AllSynced(sensors, context[..], deps[i..], both) == AllSynced(sensors, s1, deps, both)
      {
        SyncedFrom(sensors, context[..], deps, i, both);
        SyncDependency(deps[i], both);
        i := i + 1;
      }
    }

    method DoSetDelay(handle: int, ns: int) returns (ret: int)
      requires Valid()
      modifies context
      ensures Valid()
      ensures ret == if Refused(sensors, SetDelay(handle, ns)) then -22 else 0
      ensures context[..] == Performed(sensors, old(context[..]), SetDelay(handle, ns))
    {
      hide AllSynced;
      if handle !in handleMap || ns == 0 {
        return -EINVAL;
      }
      var t := handleMap[handle];
      if ns < sensors[t].minDelay * 1000 {
        context[t] := context[t].(delayNs := sensors[t].minDelay * 1000);
      } else {
        context[t] := context[t].(delayNs := ns);
      }
      assert context[..] == old(context[..])[t := old(context[t]).(delayNs := ClampedDelay(sensors[t], ns))];
      SyncDependencies(sensors[t].depList, false);
      return 0;
    }

    method DoBatch(handle: int, sampleNs: int, latencyNs: int) returns (ret: int)
      requires Valid()
      modifies context
      ensures Valid()
      ensures ret == if Refused(sensors, Batch(handle, sampleNs, latencyNs)) then -22 else 0
      ensures context[..] == Performed(sensors, old(context[..]), Batch(handle, sampleNs, latencyNs))
    {
      hide AllSynced;
      if latencyNs != 0 && latencyNs < sampleNs {
        return -EINVAL;
      }
      if handle !in handleMap {
        return -EINVAL;
      }
      var t := handleMap[handle];
      context[t] := context[t].(delayNs := sampleNs, latencyNs := latencyNs);
      assert context[..] == old(context[..])[t := old(context[t]).(delayNs := sampleNs, latencyNs := latencyNs)];
      SyncDependencies(sensors[t].depList, true);
      return 0;
    }

    /** Makes a virtual sensor depend on another sensor, once. */
    method AddDependency(t: nat, handle: int) returns (ret: int)
      requires Valid() && t < |sensors| && (sensors[t].isVirtual ==> handle in handleMap)
      modifies `sensors
      ensures Valid()
      ensures ret == if old(sensors)[t].isVirtual then 0 else -1
      ensures ret == 0 ==>
        sensors[t].depList == old(sensors[t].depList)
                              + if handleMap[handle] in old(sensors[t].depList) then [] else [handleMap[handle]]
      ensures sensors == if old(sensors)[t].isVirtual then Depending(old(sensors), t, handleMap[handle]) else old(sensors)
    {
      if !sensors[t].isVirtual {
        return -1;
      }
      var dep := handleMap[handle];
      var deps := sensors[t].depList;
      var i := 0;
      while i < |deps|
        invariant 0 <= i <= |deps| && dep !in deps[..i]
      {
        if deps[i] == dep {
          return 0;
        }
        i := i + 1;
      }
      DependingWellFormed(sensors, t, dep);
      sensors := sensors[t := sensors[t].(depList := deps + [dep])];
      return 0;
    }
  }
}
