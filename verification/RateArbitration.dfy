/** Sampling rates in the stml0xx hub: many clients share an accelerometer, a gyroscope and a
    magnetometer, each of which runs at one rate. */
module RateArbitration {

  const EINVAL := 22
  const MAX_DELAY_MS := 200
  const FUSION_MAX_DELAY_MS := 10
  const USHRT_MAX := 0xFFFF

  datatype Part = Accel | Gyro | Mag

  function MinMs(part: Part): int {
    match part case Accel => 10 case Gyro => 5 case Mag => 20
  }

  // The clients, by their position in the table.
  const ACCEL := 0
  const GYRO := 1
  const UNCALIB_GYRO := 2
  const GAME_RV := 3
  const LINEAR_ACCEL := 4
  const GRAVITY := 5
  const MAG := 6
  const UNCALIB_MAG := 7
  const ORIENTATION := 8
  const GEOMAG_RV := 9
  const ROTATION_VECT := 10
  const CLIENTS := 11

  datatype Client = Client(enabled: bool, usesAccel: bool, usesGyro: bool, usesMag: bool, delay: int)

  function Uses(c: Client, part: Part): bool {
    match part case Accel => c.usesAccel case Gyro => c.usesGyro case Mag => c.usesMag
  }

  /** The client table at power-on. */
  function Table(): (cs: seq<Client>)
    ensures |cs| == CLIENTS
  {
    [Client(false, true, false, false, USHRT_MAX),
     Client(false, false, true, false, USHRT_MAX),
     Client(false, false, true, false, USHRT_MAX),
     Client(false, true, true, false, USHRT_MAX),
     Client(false, true, true, false, USHRT_MAX),
     Client(false, true, true, false, USHRT_MAX),
     Client(false, true, false, true, USHRT_MAX),
     Client(false, true, false, true, USHRT_MAX),
     Client(false, true, false, true, USHRT_MAX),
     Client(false, true, false, true, USHRT_MAX),
     Client(false, true, true, true, USHRT_MAX)]
  }

  /** The shortest and longest delay of a client in the sensor list. */
  function LowMs(c: nat): int {
    if c == ACCEL || c == LINEAR_ACCEL || c == GRAVITY || c == GEOMAG_RV then 10
    else if c == MAG || c == UNCALIB_MAG || c == ORIENTATION then 20
    else 5
  }

  function HighMs(c: nat): int {
    if c == GAME_RV || c == LINEAR_ACCEL || c == GRAVITY then 10
    else if c == GEOMAG_RV || c == ROTATION_VECT then 0
    else 200
  }

  /** The compass sensors are in the list only if the device has one. */
  predicate Listed(c: nat, compass: bool) {
    c < MAG || compass
  }

  /** A request in nanoseconds as it is stored: milliseconds in 16 bits, clamped if listed. */
  function Stored(c: nat, ns: int, compass: bool): int {
    var delay := ns / 1_000_000 % 0x1_0000;
    if !Listed(c, compass) then delay
    else
      var capped := if delay < HighMs(c) then delay else HighMs(c);
      if capped > LowMs(c) then capped else LowMs(c)
  }

  /** The table in numbers: which clients (0 to 10) use which part, the limits of each in the sensor
      list, and that the list always holds the first six. */
  lemma TableMeaning(c: nat, compass: bool)
    requires c < 11
    ensures Uses(Table()[c], Accel) <==> c != 1 && c != 2
    ensures Uses(Table()[c], Gyro) <==> 1 <= c <= 5 || c == 10
    ensures Uses(Table()[c], Mag) <==> 6 <= c
    ensures !Table()[c].enabled && Table()[c].delay == 65535
    ensures (LowMs(c), HighMs(c)) == match c
      case 0 => (10, 200) case 1 => (5, 200) case 2 => (5, 200) case 3 => (5, 10) case 4 => (10, 10) case 5 => (10, 10)
      case 6 => (20, 200) case 7 => (20, 200) case 8 => (20, 200) case 9 => (10, 0) case _ => (5, 0)
    ensures Listed(c, compass) <==> c <= 5 || compass
  {}

  /** The two clients whose longest delay is listed as 0 always get their shortest; and a client that is
      not listed gets its milliseconds modulo 65536. */
  lemma SpecialDelays(c: nat, ns: int)
    requires 6 <= c < 11
    ensures Stored(9, ns, true) == 10 && Stored(10, ns, true) == 5
    ensures Stored(c, ns, false) == ns / 1_000_000 % 65536
  {}

  // ----- the rate of a part

  predicate RotationVectorRunning(cs: seq<Client>)
    requires |cs| == CLIENTS
  {
    cs[GEOMAG_RV].enabled || cs[ROTATION_VECT].enabled || cs[GAME_RV].enabled
    || cs[LINEAR_ACCEL].enabled || cs[GRAVITY].enabled
  }

  predicate Needs(c: Client, part: Part) {
    Uses(c, part) && c.enabled
  }

  predicate Needed(cs: seq<Client>, part: Part) {
    exists i :: 0 <= i < |cs| && Needs(cs[i], part)
  }

  /** The search for the shortest delay, from client `i` on. */
  function Shortest(cs: seq<Client>, part: Part, running: bool, i: nat, delay: int): int
    decreases |cs| - i
  {
    if i >= |cs| then delay
    else
      var d := cs[i].delay;
      Shortest(cs, part, running, i + 1,
               if Needs(cs[i], part) && d < delay
               then if running && FUSION_MAX_DELAY_MS <= d then FUSION_MAX_DELAY_MS else d
               else delay)
  }

  function Target(cs: seq<Client>, part: Part): int
    requires |cs| == CLIENTS
  {
    var delay := Shortest(cs, part, RotationVectorRunning(cs), 0, MAX_DELAY_MS);
    if delay > MinMs(part) then delay else MinMs(part)
  }

  /** The least delay asked for by users of a part from client `i` on, if under `bound`. */
  ghost predicate Least(cs: seq<Client>, part: Part, i: nat, bound: int, d: int) {
    && d <= bound
    && (forall k :: i <= k < |cs| && Needs(cs[k], part) ==> d <= cs[k].delay)
    && (d == bound || exists k :: i <= k < |cs| && Needs(cs[k], part) && cs[k].delay == d)
  }

  function Capped(running: bool, d: int): int {
    if running && d > FUSION_MAX_DELAY_MS then FUSION_MAX_DELAY_MS else d
  }

  /** The search finds the least delay under the start value, capped when a rotation vector runs; a
      start value that nobody undercuts stays as it is. */
  lemma {:induction false} ShortestMeaning(cs: seq<Client>, part: Part, running: bool, i: nat, delay: int, d: int)
    requires Least(cs, part, i, delay, d)
    ensures Shortest(cs, part, running, i, delay) == if d == delay then delay else Capped(running, d)
    decreases |cs| - i
  {
    if i < |cs| {
      var e := cs[i].delay;
      if Needs(cs[i], part) && e < delay {
        var next := if running && FUSION_MAX_DELAY_MS <= e then FUSION_MAX_DELAY_MS else e;
        if d < next {
          ShortestMeaning(cs, part, running, i + 1, next, d);
        } else {
          ShortestMeaning(cs, part, running, i + 1, next, next);
        }
      } else {
        ShortestMeaning(cs, part, running, i + 1, delay, d);
      }
    }
  }

  lemma {:induction false} LeastExists(cs: seq<Client>, part: Part, i: nat, bound: int) returns (d: int)
    ensures Least(cs, part, i, bound, d)
    decreases |cs| - i
  {
    if i >= |cs| {
      d := bound;
    } else if Needs(cs[i], part) && cs[i].delay < bound {
      d := LeastExists(cs, part, i + 1, cs[i].delay);
    } else {
      d := LeastExists(cs, part, i + 1, bound);
    }
  }

  /** The rate of a part, in full: the smallest request of its users capped at 200 ms, further capped
      at 10 ms when a rotation vector runs and some user asked for under 200 ms, but no less than the
      part's minimum. */
  lemma TargetMeaning(cs: seq<Client>, part: Part, d: int)
    requires |cs| == CLIENTS && Least(cs, part, 0, MAX_DELAY_MS, d)
    ensures var delay := if d < MAX_DELAY_MS then Capped(RotationVectorRunning(cs), d) else MAX_DELAY_MS;
      Target(cs, part) == if delay > MinMs(part) then delay else MinMs(part)
  {
    ShortestMeaning(cs, part, RotationVectorRunning(cs), 0, MAX_DELAY_MS, d);
  }

  /** A rotation vector runs when one of the clients 3, 4, 5, 9 and 10 is enabled. */
  lemma RunningMeaning(cs: seq<Client>)
    requires |cs| == 11
    ensures RotationVectorRunning(cs) <==> exists c :: (3 <= c <= 5 || 9 <= c <= 10) && cs[c].enabled
  {
    if RotationVectorRunning(cs) {
      var c := if cs[3].enabled then 3 else if cs[4].enabled then 4 else if cs[5].enabled then 5
               else if cs[9].enabled then 9 else 10;
      assert cs[c].enabled;
    }
  }

  /** The rate of a part, in numbers. */
  lemma TargetInNumbers(cs: seq<Client>, part: Part, d: int)
    requires |cs| == 11 && d <= 200
    requires forall k :: 0 <= k < 11 && Uses(cs[k], part) && cs[k].enabled ==> d <= cs[k].delay
    requires d == 200 || exists k :: 0 <= k < 11 && Uses(cs[k], part) && cs[k].enabled && cs[k].delay == d
    ensures var capped := if d < 200 && d > 10 && RotationVectorRunning(cs) then 10 else d;
      var least := match part case Accel => 10 case Gyro => 5 case Mag => 20;
      Target(cs, part) == if capped > least then capped else least
  {
    if d != 200 {
      var k :| 0 <= k < 11 && Uses(cs[k], part) && cs[k].enabled && cs[k].delay == d;
      assert Needs(cs[k], part);
    }
    assert Least(cs, part, 0, MAX_DELAY_MS, d);
    hide RotationVectorRunning;
    TargetMeaning(cs, part, d);
  }

  /** No user of a part is sampled slower than it asked for, unless the part cannot go faster. */
  lemma TargetServes(cs: seq<Client>, part: Part, i: nat)
    requires |cs| == CLIENTS && i < CLIENTS && Needs(cs[i], part)
    ensures MinMs(part) <= Target(cs, part) <= MAX_DELAY_MS
    ensures Target(cs, part) <= if cs[i].delay > MinMs(part) then cs[i].delay else MinMs(part)
  {
    var d := LeastExists(cs, part, 0, MAX_DELAY_MS);
    TargetMeaning(cs, part, d);
  }

  // ----- runs

  /** The clients, the parts switched on in the hub, and the rate last sent for each; 0 is none. */
  datatype Hub = Hub(clients: seq<Client>, on: set<Part>, sent: map<Part, int>)

  /** A handle: a fusion client, another sensor that `setEnable` handles with them, or a wake sensor. */
  datatype Handle = Fusion(c: nat) | NonWake | Wake

  datatype Call =
    | Enable(handle: Handle, en: bool)
    | SetDelay(handle: Handle, ns: int)

  predicate Shape(h: Hub) {
    |h.clients| == CLIENTS && Accel in h.sent && Gyro in h.sent && Mag in h.sent
  }

  function RateUpdated(h: Hub, part: Part): (r: Hub)
    requires Shape(h)
    ensures Shape(r)
  {
    h.(sent := h.sent[part := Target(h.clients, part)])
  }

  /** A part after enabling or disabling: on and at its rate if needed, and off if not. */
  function Checked(h: Hub, part: Part): (r: Hub)
    requires Shape(h)
    ensures Shape(r)
  {
    if Needed(h.clients, part) then RateUpdated(h, part).(on := h.on + {part}) else h.(on := h.on - {part})
  }

  function WithClient(h: Hub, c: nat, client: Client): Hub
    requires c < |h.clients|
  {
    h.(clients := h.clients[c := client])
  }

  function Performed(h: Hub, call: Call, compass: bool): (r: Hub)
    requires Shape(h)
    ensures Shape(r)
  {
    match call
    case Enable(handle, en) =>
      if handle.Wake? || (handle.Fusion? && handle.c >= CLIENTS) then h
      else
        var h1 := if handle.Fusion? then WithClient(h, handle.c, h.clients[handle.c].(enabled := en)) else h;
        Checked(Checked(Checked(h1, Accel), Gyro), Mag)
    case SetDelay(handle, ns) =>
      if ns < 0 then h
      else
        var h1 := if handle.Fusion? && handle.c < CLIENTS
          then WithClient(h, handle.c, h.clients[handle.c].(delay := Stored(handle.c, ns, compass))) else h;
        RateUpdated(RateUpdated(RateUpdated(h1, Accel), Gyro), Mag)
  }

  function Run(h: Hub, calls: seq<Call>, compass: bool): (r: Hub)
    requires Shape(h)
    ensures Shape(r)
    decreases |calls|
  {
    if calls == [] then h else Run(Performed(h, calls[0], compass), calls[1..], compass)
  }

  /** A part that somebody needs is on and at its rate. */
  ghost predicate Served(h: Hub) {
    Shape(h) && forall part :: Needed(h.clients, part) ==> part in h.on && h.sent[part] == Target(h.clients, part)
  }

  /** Only parts that somebody needs are on. */
  ghost predicate Thrifty(h: Hub) {
    forall part :: part in h.on ==> Needed(h.clients, part)
  }

  predicate Recognized(call: Call) {
    call.Enable? && (call.handle.NonWake? || (call.handle.Fusion? && call.handle.c < CLIENTS))
  }

  lemma SentForAll(h: Hub)
    requires Shape(h)
    ensures forall part :: part in h.sent
  {
    forall part ensures part in h.sent {
      match part case Accel => case Gyro => case Mag =>
    }
  }

  lemma CheckedServes(h: Hub, part: Part)
    requires Shape(h)
    ensures var r := Checked(h, part);
      && r.clients == h.clients
      && (part in r.on <==> Needed(h.clients, part))
      && (Needed(h.clients, part) ==> r.sent[part] == Target(h.clients, part))
      && (forall other :: other != part ==> (other in r.on <==> other in h.on) && (other in h.sent ==> r.sent[other] == h.sent[other]))
  {}

  lemma AllChecked(h: Hub)
    requires Shape(h)
    ensures var r := Checked(Checked(Checked(h, Accel), Gyro), Mag); Served(r) && Thrifty(r) && r.clients == h.clients
  {
    hide Needed;
    hide Target;
    hide Checked;
    var h1 := Checked(h, Accel);
    var h2 := Checked(h1, Gyro);
    var h3 := Checked(h2, Mag);
    CheckedServes(h, Accel);
    CheckedServes(h1, Gyro);
    CheckedServes(h2, Mag);
    SentForAll(h3);
    forall part ensures Needed(h3.clients, part) ==> part in h3.on && h3.sent[part] == Target(h3.clients, part) {
      match part case Accel => case Gyro => case Mag =>
    }
    forall part ensures part in h3.on ==> Needed(h3.clients, part) {
      match part case Accel => case Gyro => case Mag =>
    }
  }

  lemma SameNeed(cs: seq<Client>, c: nat, delay: int, part: Part)
    requires c < |cs|
    ensures Needed(cs[c := cs[c].(delay := delay)], part) == Needed(cs, part)
  {
    var r := cs[c := cs[c].(delay := delay)];
    assert forall i :: 0 <= i < |cs| ==> Needs(r[i], part) == Needs(cs[i], part);
  }

  lemma PerformedServes(h: Hub, call: Call, compass: bool)
    requires Served(h)
    ensures Served(Performed(h, call, compass))
    ensures Recognized(call) || Thrifty(h) ==> Thrifty(Performed(h, call, compass))
  {
    match call
    case Enable(handle, en) =>
      if Recognized(call) {
        AllChecked(if handle.Fusion? then WithClient(h, handle.c, h.clients[handle.c].(enabled := en)) else h);
      }
    case SetDelay(handle, ns) =>
      if ns >= 0 && handle.Fusion? && handle.c < CLIENTS {
        forall part ensures Needed(Performed(h, call, compass).clients, part) == Needed(h.clients, part) {
          SameNeed(h.clients, handle.c, Stored(handle.c, ns, compass), part);
        }
      }
      RatesServe(h, Performed(h, call, compass), call, compass);
  }

  lemma RatesServe(h: Hub, r: Hub, call: Call, compass: bool)
    requires Served(h) && call.SetDelay? && r == Performed(h, call, compass)
    requires forall part :: Needed(r.clients, part) == Needed(h.clients, part)
    ensures Served(r) && r.on == h.on && (Thrifty(h) ==> Thrifty(r))
  {
    hide Needed;
    hide Target;
    SentForAll(r);
    forall part ensures Needed(r.clients, part) ==> part in r.on && r.sent[part] == Target(r.clients, part) {
      match part case Accel => case Gyro => case Mag =>
    }
  }

  /** After any run every part that somebody needs is on and at its rate, and once a sensor has been
      enabled or disabled no other part is on. */
  lemma {:induction false} RunServes(h: Hub, calls: seq<Call>, compass: bool)
    requires Served(h)
    ensures Served(Run(h, calls, compass))
    ensures Thrifty(h) || (exists i :: 0 <= i < |calls| && Recognized(calls[i])) ==> Thrifty(Run(h, calls, compass))
    decreases |calls|
  {
    if calls != [] {
      PerformedServes(h, calls[0], compass);
      hide Served;
      hide Performed;
      RunServes(Performed(h, calls[0], compass), calls[1..], compass);
      if i :| 0 <= i < |calls| && Recognized(calls[i]) {
        assert i > 0 ==> Recognized(calls[1..][i - 1]);
      }
    }
  }

  // ----- what clients asked for

  /** Whether a client's last enabling or disabling enabled it. */
  function LastEnabled(before: bool, c: nat, calls: seq<Call>): bool
    decreases |calls|
  {
    if calls == [] then before
    else LastEnabled(if calls[0].Enable? && calls[0].handle == Fusion(c) then calls[0].en else before, c, calls[1..])
  }

  /** A client's last valid request, as it is stored. */
  function LastStored(before: int, c: nat, calls: seq<Call>, compass: bool): int
    decreases |calls|
  {
    if calls == [] then before
    else LastStored(if calls[0].SetDelay? && calls[0].handle == Fusion(c) && calls[0].ns >= 0
                    then Stored(c, calls[0].ns, compass) else before, c, calls[1..], compass)
  }

  lemma PerformedClient(h: Hub, call: Call, compass: bool, c: nat)
    requires Shape(h) && c < CLIENTS
    ensures Performed(h, call, compass).clients[c] == h.clients[c].(
              enabled := LastEnabled(h.clients[c].enabled, c, [call]),
              delay := LastStored(h.clients[c].delay, c, [call], compass))
  {
    hide Stored;
    hide Needed;
    hide Target;
    assert [call][1..] == [];
  }

  lemma {:induction false} RunClient(h: Hub, calls: seq<Call>, compass: bool, c: nat)
    requires Shape(h) && c < CLIENTS
    ensures Run(h, calls, compass).clients[c] == h.clients[c].(
              enabled := LastEnabled(h.clients[c].enabled, c, calls),
              delay := LastStored(h.clients[c].delay, c, calls, compass))
    decreases |calls|
  {
    if calls != [] {
      PerformedClient(h, calls[0], compass, c);
      hide Performed;
      hide Stored;
      hide Shape;
      assert [calls[0]][1..] == [];
      RunClient(Performed(h, calls[0], compass), calls[1..], compass, c);
    }
  }

  /** A stored request is no longer than the request, or than the client's shortest delay. Under
      65.536 s a listed client's request that lies between its limits is stored in milliseconds as it
      is, and any other as the limit next to it. */
  lemma StoredServes(c: nat, ns: int, compass: bool)
    requires c < CLIENTS && ns >= 0
    ensures 0 <= Stored(c, ns, compass) <= USHRT_MAX
    ensures Stored(c, ns, compass) <= LowMs(c) || Stored(c, ns, compass) * 1_000_000 <= ns
    ensures ns < 65_536_000_000 && Listed(c, compass) && LowMs(c) <= HighMs(c) ==>
      var r := Stored(c, ns, compass);
      && LowMs(c) <= r <= HighMs(c)
      && (r * 1_000_000 <= ns < (r + 1) * 1_000_000 || (r == LowMs(c) && ns < r * 1_000_000)
          || (r == HighMs(c) && r * 1_000_000 < ns))
  {
    var ms := ns / 1_000_000;
    assert ms % 0x1_0000 <= ms;
  }

  const START := Hub(Table(), {}, map[Accel := 0, Gyro := 0, Mag := 0])

  /** From power-on, whatever parts the hub had on: after any run, a client whose last call enabled it
      has each of its parts on, at a rate that serves the client's last request. */
  lemma PowerOnRun(on: set<Part>, calls: seq<Call>, compass: bool, c: nat, part: Part)
    requires c < CLIENTS && LastEnabled(false, c, calls) && Uses(Table()[c], part)
    ensures var h := Run(START.(on := on), calls, compass);
      var request := LastStored(USHRT_MAX, c, calls, compass);
      && part in h.on && part in h.sent && h.sent[part] == Target(h.clients, part)
      && MinMs(part) <= h.sent[part] <= (if request > MinMs(part) then request else MinMs(part))
  {
    var start := START.(on := on);
    assert Served(start) by {
      assert forall p :: !Needed(start.clients, p);
    }
    assert Shape(start) && start.clients == Table() && Table()[c].delay == USHRT_MAX && !Table()[c].enabled;
    hide Table;
    hide START;
    RunServes(start, calls, compass);
    RunClient(start, calls, compass, c);
    var h := Run(start, calls, compass);
    hide Run;
    hide LastEnabled;
    hide LastStored;
    hide Target;
    assert Needs(h.clients[c], part);
    SentForAll(h);
    TargetServes(h.clients, part, c);
  }

  // ----- the stateful code

  class HubSensors {
    const fusionSensors: array<Client>
    var enabled: set<Part>
    var prevDelay: map<Part, int>
    const compass: bool

    ghost function Value(): Hub
      reads this, fusionSensors
    {
      Hub(fusionSensors[..], enabled, prevDelay)
    }

    ghost predicate Valid()
      reads this, fusionSensors
    {
      Shape(Value())
    }

    constructor (enabled: set<Part>, compass: bool)
      ensures Valid() && Value() == START.(on := enabled) && this.compass == compass && fresh(fusionSensors)
    {
      fusionSensors := new Client[CLIENTS](i requires 0 <= i < CLIENTS => Table()[i]);
      this.enabled, this.compass := enabled, compass;
      prevDelay := map[Accel := 0, Gyro := 0, Mag := 0];
      new;
      assert fusionSensors[..] == Table();
    }

    method IsNeeded(part: Part) returns (needed: bool)
      requires Valid()
      ensures needed == Needed(fusionSensors[..], part)
    {
      var i := 0;
      while i < CLIENTS
        invariant 0 <= i <= CLIENTS && forall k :: 0 <= k < i ==> !Needs(fusionSensors[k], part)
      {
        if Uses(fusionSensors[i], part) && fusionSensors[i].enabled {
          assert Needs(fusionSensors[..][i], part);
          return true;
        }
        i := i + 1;
      }
      assert forall k :: 0 <= k < CLIENTS ==> !Needs(fusionSensors[..][k], part);
      return false;
    }

    method IsRotationVectorRunning() returns (running: bool)
      requires Valid()
      ensures running == RotationVectorRunning(fusionSensors[..])
    {
      return fusionSensors[GEOMAG_RV].enabled || fusionSensors[ROTATION_VECT].enabled
          || fusionSensors[GAME_RV].enabled || fusionSensors[LINEAR_ACCEL].enabled || fusionSensors[GRAVITY].enabled;
    }

    /** Sends the rate of a part if it changed. */
    method UpdateRate(part: Part)
      requires Valid()
      modifies `prevDelay
      ensures Valid() && Value() == RateUpdated(old(Value()), part)
    {
      ghost var cs := fusionSensors[..];
      ghost var running := RotationVectorRunning(cs);
      var delay := MAX_DELAY_MS;
      var i := 0;
      while i < CLIENTS
        invariant 0 <= i <= CLIENTS && prevDelay == old(prevDelay)
        invariant Shortest(cs, part, running, i, delay) == Shortest(cs, part, running, 0, MAX_DELAY_MS)
      {
        if Uses(fusionSensors[i], part) && fusionSensors[i].enabled && fusionSensors[i].delay < delay {
          var capped := IsRotationVectorRunning();
          if capped {
            delay := if fusionSensors[i].delay < FUSION_MAX_DELAY_MS then fusionSensors[i].delay else FUSION_MAX_DELAY_MS;
          } else {
            delay := fusionSensors[i].delay;
          }
        }
        i := i + 1;
      }
      delay := if delay > MinMs(part) then delay else MinMs(part);
      SentForAll(Value());
      if delay != prevDelay[part] {
        prevDelay := prevDelay[part := delay];
      }
    }

    /** Switches a part on at its rate, or off. */
    method Check(part: Part)
      requires Valid()
      modifies `prevDelay, `enabled
      ensures Valid() && Value() == Checked(old(Value()), part)
    {
      hide RateUpdated;
      hide Needed;
      var needed := IsNeeded(part);
      if needed {
        UpdateRate(part);
        enabled := enabled + {part};
      } else {
        enabled := enabled - {part};
      }
    }

    /** The fusion part of `setEnable`. */
    method SetEnable(handle: Handle, en: bool)
      requires Valid()
      modifies this, fusionSensors
      ensures Valid() && Value() == Performed(old(Value()), Enable(handle, en), compass)
    {
      hide Checked;
      assert fusionSensors.Length == CLIENTS;
      hide Shape;
      var found := false;
      match handle {
        case Fusion(c) =>
          if c < CLIENTS {
            StoreClient(c, fusionSensors[c].(enabled := en));
            found := true;
          }
        case NonWake =>
          found := true;
        case Wake =>
      }
      if found {
        Check(Accel);
        Check(Gyro);
        Check(Mag);
      }
    }

    method StoreClient(c: nat, client: Client)
      requires Valid() && c < CLIENTS <= fusionSensors.Length
      requires client == fusionSensors[c].(enabled := client.enabled, delay := client.delay)
      modifies fusionSensors
      ensures Valid() && Value() == WithClient(old(Value()), c, client)
    {
      fusionSensors[c] := client;
    }

    /** A handle the hub does not know stores nothing, and is not reported either. */
    method SetDelay(handle: Handle, ns: int) returns (err: int)
      requires Valid()
      modifies this, fusionSensors
      ensures Valid() && Value() == Performed(old(Value()), Call.SetDelay(handle, ns), compass)
      ensures err == if ns < 0 then -22 else 0
    {
      hide RateUpdated;
      hide Stored;
      assert fusionSensors.Length == CLIENTS;
      hide Shape;
      if ns < 0 {
        return -EINVAL;
      }
      err := 0;
      match handle {
        case Fusion(c) =>
          if c < CLIENTS {
            StoreClient(c, fusionSensors[c].(delay := Stored(c, ns, compass)));
          } else {
            err := -EINVAL;
          }
        case _ =>
      }
      UpdateRate(Accel);
      UpdateRate(Gyro);
      UpdateRate(Mag);
      return 0;
    }
  }
}
