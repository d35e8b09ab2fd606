/** Reading sensor events from the motosh hub: the overflow queue and the one-shot glance sensors. */
module MotoshEvents {

  const EINVAL := 22

  type Errno = e: int | 0 < e witness 5

  /** A decoded event; those that no state decides are told apart by their content alone. */
  datatype Event =
    | Other(content: int)
    | MotoGlanceEvent(gesture: int, timestamp: int)
    | GlanceEvent(gesture: int, timestamp: int)

  /** A hub record: one that always makes an event, one that never does, a glance, or a read error. */
  datatype Record =
    | Plain(content: int)
    | Silent
    | Glance(gesture: int, timestamp: int)
    | Failure(errno: Errno)

  datatype Handle = MotoGlance | GlanceGesture

  /** Which glance handles are enabled, and the hub's wake bit that both share. */
  datatype Enables = Enables(moto: bool, glance: bool, wake: bool)

  function Enabled(e: Enables, h: Handle): bool {
    if h.MotoGlance? then e.moto else e.glance
  }

  /** The shared wake bit follows a handle only while the other one is not enabled. */
  function EnableSet(e: Enables, h: Handle, on: bool): Enables {
    if h.MotoGlance? then Enables(on, e.glance, if e.glance then e.wake else on)
    else Enables(e.moto, on, if e.moto then e.wake else on)
  }

  /** The events of a record, in order, and what they leave enabled. */
  function Decode(e: Enables, r: Record): (d: (Enables, seq<Event>)) {
    match r
    case Plain(content) => (e, [Other(content)])
    case Glance(gesture, timestamp) =>
      var e1 := if e.moto then EnableSet(e, MotoGlance, false) else e;
      var e2 := if e1.glance then EnableSet(e1, GlanceGesture, false) else e1;
      (e2, (if e.moto then [MotoGlanceEvent(gesture, timestamp)] else [])
         + (if e.glance then [GlanceEvent(gesture, timestamp)] else []))
    case _ => (e, [])
  }

  /** Setting a handle sets that one only. */
  lemma EnableMeaning(e: Enables, h: Handle, on: bool, other: Handle)
    ensures Enabled(EnableSet(e, h, on), other) == if other == h then on else Enabled(e, other)
  {}

  /** What a record makes, spelt out; a glance for both handles comes to the moto handle first. */
  lemma DecodeMeaning(e: Enables, r: Record)
    ensures r.Plain? ==> Decode(e, r) == (e, [Other(r.content)])
    ensures r.Silent? || r.Failure? ==> Decode(e, r) == (e, [])
    ensures r.Glance? ==>
      && (e.moto && e.glance ==> Decode(e, r).1 == [MotoGlanceEvent(r.gesture, r.timestamp), GlanceEvent(r.gesture, r.timestamp)])
      && (e.moto && !e.glance ==> Decode(e, r).1 == [MotoGlanceEvent(r.gesture, r.timestamp)])
      && (!e.moto && e.glance ==> Decode(e, r).1 == [GlanceEvent(r.gesture, r.timestamp)])
      && (!e.moto && !e.glance ==> Decode(e, r).1 == [])
  {}

  // ----- one call

  /** What a call leaves: its result, the buffer, the pending events and how many records it read. */
  datatype Outcome = Outcome(ret: int, on: Enables, out: seq<Event>, pending: seq<Event>, taken: nat)

  function ReadLoop(e: Enables, queue: seq<Record>, out: seq<Event>, dLen: nat): Outcome
    decreases |queue|
  {
    if |out| >= dLen || queue == [] then Outcome(|out|, e, out, [], 0)
    else if queue[0].Failure? then Outcome(0 - queue[0].errno as int, e, out, [], 1)
    else
      var (e', events) := Decode(e, queue[0]);
      var all := out + events;
      if |all| > dLen then Outcome(dLen, e', all[..dLen], all[dLen..], 1)
      else
        var o := ReadLoop(e', queue[1..], all, dLen);
        o.(taken := o.taken + 1)
  }

  /** An outcome seen from `n` records earlier. */
  function Later(n: nat, o: Outcome): Outcome {
    o.(taken := n + o.taken)
  }

  function Read(e: Enables, pending: seq<Event>, queue: seq<Record>, dLen: int): Outcome {
    if dLen < 1 then Outcome(-EINVAL, e, [], pending, 0)
    else if |pending| <= dLen then ReadLoop(e, queue, pending, dLen)
    else Outcome(dLen, e, pending[..dLen], pending[dLen..], 0)
  }

  /** In-order decoding without any buffer. */
  function DecodeAll(e: Enables, records: seq<Record>): (d: (Enables, seq<Event>))
    decreases |records|
  {
    if records == [] then (e, [])
    else
      var (e1, first) := Decode(e, records[0]);
      var (e2, rest) := DecodeAll(e1, records[1..]);
      (e2, first + rest)
  }

  ghost predicate NoFailure(records: seq<Record>) {
    forall i :: 0 <= i < |records| ==> !records[i].Failure?
  }

  lemma DecodeFirst(e: Enables, queue: seq<Record>, n: nat)
    requires n < |queue|
    ensures var d := Decode(e, queue[0]); var rest := DecodeAll(d.0, queue[1..][..n]);
      DecodeAll(e, queue[..n + 1]) == (rest.0, d.1 + rest.1)
  {
    assert queue[..n + 1][1..] == queue[1..][..n];
  }

  lemma Assoc<T>(a: seq<T>, b: seq<T>, c: seq<T>)
    ensures (a + b) + c == a + (b + c)
  {}

  lemma DecodeNone(e: Enables, queue: seq<Record>)
    ensures DecodeAll(e, queue[..0]) == (e, [])
  {}

  lemma DecodeFailure(e: Enables, queue: seq<Record>)
    requires queue != [] && queue[0].Failure?
    ensures DecodeAll(e, queue[..1]) == (e, [])
  {
    DecodeFirst(e, queue, 0);
    DecodeNone(e, queue[1..]);
    var none: seq<Event> := [];
    assert none + none == none;
  }

  /** The buffer and the pending events are the earlier events followed by the decoding of the
      records read. */
  lemma {:induction false} ReadLoopDecodes(e: Enables, queue: seq<Record>, out: seq<Event>, dLen: nat)
    requires |out| <= dLen
    ensures var o := ReadLoop(e, queue, out, dLen);
      && o.taken <= |queue|
      && DecodeAll(e, queue[..o.taken]).0 == o.on
      && out + DecodeAll(e, queue[..o.taken]).1 == o.out + o.pending
    decreases |queue|
  {
    hide DecodeAll;
    hide Decode;
    DecodeNone(e, queue);
    if |out| < dLen && queue != [] {
      var first := Decode(e, queue[0]);
      if queue[0].Failure? {
        DecodeFailure(e, queue);
      } else if |out + first.1| <= dLen {
        ReadLoopDecodes(first.0, queue[1..], out + first.1, dLen);
        var n := ReadLoop(first.0, queue[1..], out + first.1, dLen).taken;
        DecodeFirst(e, queue, n);
        Assoc(out, first.1, DecodeAll(first.0, queue[1..][..n]).1);
      } else {
        DecodeFirst(e, queue, 0);
        DecodeNone(first.0, queue[1..]);
      }
    }
  }

  /** A call fills the buffer or empties the queue, leaves at most one event pending, and stops at
      the first read error. */
  lemma {:induction false} ReadLoopStops(e: Enables, queue: seq<Record>, out: seq<Event>, dLen: nat)
    requires |out| <= dLen
    ensures var o := ReadLoop(e, queue, out, dLen);
      && |o.out| <= dLen && |o.pending| <= 1 && (o.pending != [] ==> |o.out| == dLen)
      && o.taken <= |queue|
      && (o.ret >= 0 ==> o.ret == |o.out| && NoFailure(queue[..o.taken]) && (o.taken == |queue| || |o.out| == dLen))
      && (o.ret < 0 ==> o.taken > 0 && o.pending == [] && NoFailure(queue[..o.taken - 1])
                        && queue[o.taken - 1].Failure? && queue[o.taken - 1].errno == -o.ret)
    decreases |queue|
  {
    if |out| < dLen && queue != [] && !queue[0].Failure? {
      var (e', events) := Decode(e, queue[0]);
      if |out + events| <= dLen {
        ReadLoopStops(e', queue[1..], out + events, dLen);
        var o := ReadLoop(e', queue[1..], out + events, dLen);
        assert queue[..o.taken + 1] == [queue[0]] + queue[1..][..o.taken];
        if o.ret < 0 {
          assert queue[..o.taken] == [queue[0]] + queue[1..][..o.taken - 1];
        }
      }
    }
  }

  /** What one call does with at most one event pending before it. */
  lemma ReadAccounts(e: Enables, pending: seq<Event>, queue: seq<Record>, dLen: int)
    requires |pending| <= 1
    ensures var o := Read(e, pending, queue, dLen);
      && o.taken <= |queue| && |o.pending| <= 1 && |o.out| <= (if dLen < 1 then 0 else dLen)
      && DecodeAll(e, queue[..o.taken]).0 == o.on
      && pending + DecodeAll(e, queue[..o.taken]).1 == o.out + o.pending
      && (dLen < 1 ==> o.ret == -22 && o.pending == pending && o.taken == 0)
      && (o.ret >= 0 ==> o.ret == |o.out| && (o.taken == |queue| || |o.out| == dLen))
      && (o.ret < 0 && dLen >= 1 ==> o.taken > 0 && queue[o.taken - 1].Failure? && queue[o.taken - 1].errno == -o.ret)
      && (dLen >= 1 && NoFailure(queue) ==> o.ret >= 0)
  {
    if dLen >= 1 {
      ReadLoopDecodes(e, queue, pending, dLen);
      ReadLoopStops(e, queue, pending, dLen);
    }
  }

  // ----- runs

  datatype Action =
    | Enable(h: Handle, on: bool)
    | Arrive(records: seq<Record>)
    | ReadCall(dLen: int)

  /** What happened, in order: enabling and disabling, and records read. */
  datatype Step = Set(h: Handle, on: bool) | Got(record: Record)

  /** What a call copied into its buffer: returned to the framework, or lost because the call failed. */
  datatype Answer = Answer(lost: bool, events: seq<Event>)

  function Everything(history: seq<Answer>): seq<Event> {
    if history == [] then []
    else Everything(history[..|history| - 1]) + history[|history| - 1].events
  }

  function Delivered(history: seq<Answer>): seq<Event> {
    if history == [] then []
    else
      Delivered(history[..|history| - 1])
      + if history[|history| - 1].lost then [] else history[|history| - 1].events
  }

  datatype World = World(on: Enables, pending: seq<Event>, queue: seq<Record>, history: seq<Answer>, log: seq<Step>)

  function Gots(records: seq<Record>): seq<Step> {
    seq(|records|, i requires 0 <= i < |records| => Got(records[i]))
  }

  /** The events of a call reach the framework only when it does not fail. */
  function Acted(w: World, a: Action): World {
    match a
    case Enable(h, on) => w.(on := EnableSet(w.on, h, on), log := w.log + [Set(h, on)])
    case Arrive(records) => w.(queue := w.queue + records)
    case ReadCall(dLen) =>
      var o := Read(w.on, w.pending, w.queue, dLen);
      if o.taken > |w.queue| then w
      else World(o.on, o.pending, w.queue[o.taken..], w.history + [Answer(o.ret < 0, o.out)],
                 w.log + Gots(w.queue[..o.taken]))
  }

  function Run(w: World, actions: seq<Action>): World
    decreases |actions|
  {
    if actions == [] then w else Run(Acted(w, actions[0]), actions[1..])
  }

  /** The events of a log: every record decoded in its turn. */
  function EventsOf(e: Enables, log: seq<Step>): (d: (Enables, seq<Event>))
    decreases |log|
  {
    if log == [] then (e, [])
    else if log[0].Set? then EventsOf(EnableSet(e, log[0].h, log[0].on), log[1..])
    else
      var (e1, first) := Decode(e, log[0].record);
      var (e2, rest) := EventsOf(e1, log[1..]);
      (e2, first + rest)
  }

  lemma {:induction false} EventsOfJoined(e: Enables, a: seq<Step>, b: seq<Step>)
    ensures var d := EventsOf(e, a); var d' := EventsOf(d.0, b);
      EventsOf(e, a + b) == (d'.0, d.1 + d'.1)
    decreases |a|
  {
    if a == [] {
      assert a + b == b;
      assert [] + EventsOf(e, b).1 == EventsOf(e, b).1;
    } else {
      assert (a + b)[1..] == a[1..] + b;
      if a[0].Set? {
        EventsOfJoined(EnableSet(e, a[0].h, a[0].on), a[1..], b);
      } else {
        var (e1, first) := Decode(e, a[0].record);
        EventsOfJoined(e1, a[1..], b);
        var (e2, rest) := EventsOf(e1, a[1..]);
        assert (first + rest) + EventsOf(e2, b).1 == first + (rest + EventsOf(e2, b).1);
      }
    }
  }

  lemma {:induction false} EventsOfGots(e: Enables, records: seq<Record>)
    ensures EventsOf(e, Gots(records)) == DecodeAll(e, records)
    decreases |records|
  {
    if records != [] {
      assert Gots(records)[1..] == Gots(records[1..]);
      EventsOfGots(Decode(e, records[0]).0, records[1..]);
    }
  }

  function Records(log: seq<Step>): seq<Record> {
    if log == [] then [] else (if log[0].Got? then [log[0].record] else []) + Records(log[1..])
  }

  lemma {:induction false} RecordsJoined(a: seq<Step>, b: seq<Step>)
    ensures Records(a + b) == Records(a) + Records(b)
  {
    if a == [] {
      assert a + b == b;
    } else {
      assert (a + b)[1..] == a[1..] + b;
      var first := if a[0].Got? then [a[0].record] else [];
      RecordsJoined(a[1..], b);
      assert first + (Records(a[1..]) + Records(b)) == (first + Records(a[1..])) + Records(b);
    }
  }

  lemma {:induction false} RecordsOfGots(records: seq<Record>)
    ensures Records(Gots(records)) == records
  {
    if records != [] {
      assert Gots(records)[1..] == Gots(records[1..]);
      RecordsOfGots(records[1..]);
    }
  }

  /** All events copied so far and the pending one are the decoding of the log, the log's records are
      those taken from the queue, and without read errors no call has lost anything. */
  ghost predicate Settled(e: Enables, w: World, arrived: seq<Record>) {
    && |w.pending| <= 1
    && EventsOf(e, w.log) == (w.on, Everything(w.history) + w.pending)
    && Records(w.log) + w.queue == arrived
    && (NoFailure(arrived) ==> Delivered(w.history) == Everything(w.history))
  }

  function Arrived(actions: seq<Action>): seq<Record> {
    if actions == [] then [] else (if actions[0].Arrive? then actions[0].records else []) + Arrived(actions[1..])
  }

  lemma HistoryGrows(history: seq<Answer>, a: Answer)
    ensures Everything(history + [a]) == Everything(history) + a.events
    ensures Delivered(history + [a]) == Delivered(history) + if a.lost then [] else a.events
  {
    assert (history + [a])[..|history|] == history;
  }

  /** A call loses something only to a read error; with an invalid length it has nothing to lose. */
  lemma ReadLoses(w: World, dLen: int)
    requires |w.pending| <= 1
    ensures var o := Read(w.on, w.pending, w.queue, dLen);
      o.taken <= |w.queue| && (o.ret < 0 && NoFailure(w.queue) ==> o.out == [])
  {
    ReadAccounts(w.on, w.pending, w.queue, dLen);
    hide ReadLoop;
  }

  lemma NoFailureTail(all: seq<Record>, before: seq<Record>, queue: seq<Record>)
    requires before + queue == all && NoFailure(all)
    ensures NoFailure(queue)
  {
    assert forall i :: 0 <= i < |queue| ==> queue[i] == all[|before| + i];
  }

  lemma ReadSettled(e: Enables, w: World, arrived: seq<Record>, dLen: int)
    requires Settled(e, w, arrived)
    ensures Settled(e, Acted(w, ReadCall(dLen)), arrived)
  {
    ReadLoses(w, dLen);
    hide Read;
    hide EventsOf;
    hide DecodeAll;
    hide Records;
    hide Gots;
    hide Everything;
    hide Delivered;
    var o := Read(w.on, w.pending, w.queue, dLen);
    ReadAccounts(w.on, w.pending, w.queue, dLen);
    var taken := w.queue[..o.taken];
    EventsOfGots(w.on, taken);
    EventsOfJoined(e, w.log, Gots(taken));
    RecordsJoined(w.log, Gots(taken));
    RecordsOfGots(taken);
    HistoryGrows(w.history, Answer(o.ret < 0, o.out));
    Assoc(Everything(w.history), w.pending, DecodeAll(w.on, taken).1);
    Assoc(Everything(w.history), o.out, o.pending);
    Assoc(Records(w.log), taken, w.queue[o.taken..]);
    assert taken + w.queue[o.taken..] == w.queue;
    if NoFailure(arrived) {
      NoFailureTail(arrived, Records(w.log), w.queue);
    }
  }

  lemma EnableSettled(e: Enables, w: World, arrived: seq<Record>, h: Handle, on: bool)
    requires Settled(e, w, arrived)
    ensures Settled(e, Acted(w, Enable(h, on)), arrived)
  {
    EventsOfJoined(e, w.log, [Set(h, on)]);
    assert [Set(h, on)][1..] == [];
    assert EventsOf(w.on, [Set(h, on)]) == (EnableSet(w.on, h, on), []);
    assert EventsOf(e, w.log).1 + [] == EventsOf(e, w.log).1;
    RecordsJoined(w.log, [Set(h, on)]);
    assert Records([Set(h, on)]) == [];
    hide NoFailure;
  }

  lemma ArriveSettled(e: Enables, w: World, arrived: seq<Record>, records: seq<Record>)
    requires Settled(e, w, arrived)
    ensures Settled(e, Acted(w, Arrive(records)), arrived + records)
  {
    Assoc(Records(w.log), w.queue, records);
    assert NoFailure(arrived + records) ==> NoFailure(arrived) by {
      assert forall i :: 0 <= i < |arrived| ==> (arrived + records)[i] == arrived[i];
    }
    hide EventsOf;
  }

  lemma ActedSettled(e: Enables, w: World, arrived: seq<Record>, a: Action)
    requires Settled(e, w, arrived)
    ensures Settled(e, Acted(w, a), arrived + if a.Arrive? then a.records else [])
  {
    assert arrived + [] == arrived;
    hide Settled;
    hide Acted;
    match a
    case Enable(h, on) => EnableSettled(e, w, arrived, h, on);
    case Arrive(records) => ArriveSettled(e, w, arrived, records);
    case ReadCall(dLen) => ReadSettled(e, w, arrived, dLen);
  }

  /** Over any run, the buffers of all calls so far followed by the pending event are the in-order
      decoding of the records: each is decoded once and none is skipped. The buffers of failed calls
      are lost; without read errors there are none. */
  lemma {:induction false} RunSettled(e: Enables, w: World, arrived: seq<Record>, actions: seq<Action>)
    requires Settled(e, w, arrived)
    ensures Settled(e, Run(w, actions), arrived + Arrived(actions))
    decreases |actions|
  {
    if actions == [] {
      assert arrived + [] == arrived;
    } else {
      ActedSettled(e, w, arrived, actions[0]);
      hide Settled;
      hide Acted;
      var more := if actions[0].Arrive? then actions[0].records else [];
      RunSettled(e, Acted(w, actions[0]), arrived + more, actions[1..]);
      Assoc(arrived, more, Arrived(actions[1..]));
    }
  }

  // ----- one-shot handles

  function IsEventOf(h: Handle, event: Event): bool {
    if h.MotoGlance? then event.MotoGlanceEvent? else event.GlanceEvent?
  }

  function CountEvents(h: Handle, events: seq<Event>): nat {
    if events == [] then 0 else (if IsEventOf(h, events[0]) then 1 else 0) + CountEvents(h, events[1..])
  }

  function CountEnables(h: Handle, log: seq<Step>): nat {
    if log == [] then 0 else (if log[0] == Set(h, true) then 1 else 0) + CountEnables(h, log[1..])
  }

  lemma {:induction false} CountJoined(h: Handle, a: seq<Event>, b: seq<Event>)
    ensures CountEvents(h, a + b) == CountEvents(h, a) + CountEvents(h, b)
  {
    if a == [] {
      assert a + b == b;
    } else {
      assert (a + b)[1..] == a[1..] + b;
      CountJoined(h, a[1..], b);
    }
  }

  lemma CountOne(h: Handle, event: Event)
    ensures CountEvents(h, [event]) == if IsEventOf(h, event) then 1 else 0
  {
    assert [event][1..] == [];
  }

  /** A record makes an event of an enabled handle exactly when it is a glance, and then disables it. */
  lemma DecodeOneShot(e: Enables, r: Record, h: Handle)
    ensures CountEvents(h, Decode(e, r).1) == if r.Glance? && Enabled(e, h) then 1 else 0
    ensures Enabled(Decode(e, r).0, h) == (Enabled(e, h) && !r.Glance?)
  {
    match r
    case Plain(content) => CountOne(h, Other(content));
    case Glance(gesture, timestamp) =>
      CountOne(h, MotoGlanceEvent(gesture, timestamp));
      CountOne(h, GlanceEvent(gesture, timestamp));
      CountJoined(h, if e.moto then [MotoGlanceEvent(gesture, timestamp)] else [],
                  if e.glance then [GlanceEvent(gesture, timestamp)] else []);
    case _ =>
  }

  /** Every handle delivers at most one event per enable. */
  lemma {:induction false} OneEventPerEnable(e: Enables, log: seq<Step>, h: Handle)
    ensures var d := EventsOf(e, log);
      CountEvents(h, d.1) + (if Enabled(d.0, h) then 1 else 0)
      <= CountEnables(h, log) + (if Enabled(e, h) then 1 else 0)
    decreases |log|
  {
    if log != [] {
      if log[0].Set? {
        OneEventPerEnable(EnableSet(e, log[0].h, log[0].on), log[1..], h);
      } else {
        var d := Decode(e, log[0].record);
        DecodeOneShot(e, log[0].record, h);
        OneEventPerEnable(d.0, log[1..], h);
        CountJoined(h, d.1, EventsOf(d.0, log[1..]).1);
      }
    }
  }

  lemma {:induction false} DeliveredCount(h: Handle, history: seq<Answer>)
    ensures CountEvents(h, Delivered(history)) <= CountEvents(h, Everything(history))
  {
    if history != [] {
      var before, last := history[..|history| - 1], history[|history| - 1];
      DeliveredCount(h, before);
      CountJoined(h, Everything(before), last.events);
      CountJoined(h, Delivered(before), if last.lost then [] else last.events);
    }
  }

  /** From power-on, over any run: what was copied, with the event still pending, is the decoding of
      all records read in their order; without read errors all of it was returned; and each handle
      got at most one event for each time it was enabled. */
  lemma PowerOnRun(wake: bool, actions: seq<Action>, h: Handle)
    ensures var e := Enables(false, false, wake); var w := Run(World(e, [], [], [], []), actions);
      && Everything(w.history) + w.pending == EventsOf(e, w.log).1 && |w.pending| <= 1
      && Records(w.log) + w.queue == Arrived(actions)
      && (NoFailure(Arrived(actions)) ==> Delivered(w.history) == Everything(w.history))
      && CountEvents(h, Delivered(w.history)) <= CountEnables(h, w.log)
  {
    var e := Enables(false, false, wake);
    var w := World(e, [], [], [], []);
    assert Everything(w.history) + w.pending == [] && Records(w.log) + w.queue == [];
    assert EventsOf(e, w.log) == (e, []);
    RunSettled(e, w, [], actions);
    var r := Run(w, actions);
    hide Run;
    assert [] + Arrived(actions) == Arrived(actions);
    OneEventPerEnable(e, r.log, h);
    CountJoined(h, Everything(r.history), r.pending);
    DeliveredCount(h, r.history);
  }

  /** Whether a handle is enabled after a log: as it was last set, unless a glance came since. */
  function StillEnabled(before: bool, h: Handle, log: seq<Step>): bool {
    if log == [] then before
    else
      match log[|log| - 1]
      case Set(other, on) => if other == h then on else StillEnabled(before, h, log[..|log| - 1])
      case Got(r) => !r.Glance? && StillEnabled(before, h, log[..|log| - 1])
  }

  /** How many glances of a log found the handle enabled. */
  function GlancesDue(before: bool, h: Handle, log: seq<Step>): nat {
    if log == [] then 0
    else
      var last, earlier := log[|log| - 1], log[..|log| - 1];
      GlancesDue(before, h, earlier)
      + if last.Got? && last.record.Glance? && StillEnabled(before, h, earlier) then 1 else 0
  }

  /** Every handle is enabled exactly as its last setting and the glances since say, and gets exactly
      the glances that find it enabled. */
  lemma {:induction false} GlancesDelivered(e: Enables, log: seq<Step>, h: Handle)
    ensures Enabled(EventsOf(e, log).0, h) == StillEnabled(Enabled(e, h), h, log)
    ensures CountEvents(h, EventsOf(e, log).1) == GlancesDue(Enabled(e, h), h, log)
  {
    if log != [] {
      var last, earlier := log[|log| - 1], log[..|log| - 1];
      GlancesDelivered(e, earlier, h);
      assert log == earlier + [last];
      EventsOfJoined(e, earlier, [last]);
      var d := EventsOf(e, earlier);
      assert [last][1..] == [];
      if last.Set? {
        EnableMeaning(d.0, last.h, last.on, h);
        assert EventsOf(d.0, [last]) == (EnableSet(d.0, last.h, last.on), []);
        assert d.1 + [] == d.1;
      } else {
        var one := Decode(d.0, last.record);
        assert one.1 + [] == one.1;
        assert EventsOf(d.0, [last]) == one;
        DecodeOneShot(d.0, last.record, h);
        CountJoined(h, d.1, one.1);
      }
      hide Decode;
      hide EnableSet;
    }
  }

  // ----- the shared wake bit

  predicate WakeRight(e: Enables) {
    e.wake == (e.moto || e.glance)
  }

  /** From power-on, whatever the hub's wake bit was, it is right after the first enabling or
      disabling of a glance handle: set exactly while one of the two handles is enabled. */
  lemma {:induction false} WakeBit(e: Enables, log: seq<Step>)
    requires WakeRight(e) || (!e.moto && !e.glance)
    ensures (WakeRight(e) || exists i :: 0 <= i < |log| && log[i].Set?) ==> WakeRight(EventsOf(e, log).0)
    ensures WakeRight(EventsOf(e, log).0) || (!EventsOf(e, log).0.moto && !EventsOf(e, log).0.glance)
    decreases |log|
  {
    if log != [] {
      assert (exists i :: 0 <= i < |log| && log[i].Set?) ==>
          log[0].Set? || exists i :: 0 <= i < |log[1..]| && log[1..][i].Set? by {
        if i :| 0 <= i < |log| && log[i].Set? {
          assert i > 0 ==> log[1..][i - 1].Set?;
        }
      }
      if log[0].Set? {
        WakeBit(EnableSet(e, log[0].h, log[0].on), log[1..]);
      } else {
        WakeBit(Decode(e, log[0].record).0, log[1..]);
      }
    }
  }

  // ----- the stateful code

  class HubSensors {
    var on: Enables
    var pendingEvents: seq<Event>
    var nextPendingEvent: nat
    var queue: seq<Record>

    ghost predicate Valid()
      reads this
    {
      nextPendingEvent <= |pendingEvents| && (pendingEvents == [] || nextPendingEvent < |pendingEvents|)
    }

    ghost function Pending(): seq<Event>
      reads this
      requires Valid()
    {
      pendingEvents[nextPendingEvent..]
    }

    constructor (wake: bool)
      ensures Valid() && Pending() == [] && queue == [] && on == Enables(false, false, wake)
    {
      on := Enables(false, false, wake);
      pendingEvents, nextPendingEvent, queue := [], 0, [];
    }

    /** The glance part of `setEnable`. */
    method SetEnable(h: Handle, newState: bool)
      modifies `on
      ensures on == EnableSet(old(on), h, newState)
    {
      var newWake := on.wake;
      var found := false;
      match h {
        case GlanceGesture =>
          if !on.moto {
            newWake := newState;
            found := true;
          }
        case MotoGlance =>
          if !on.glance {
            newWake := newState;
            found := true;
          }
      }
      if found && newWake != on.wake {
        on := on.(wake := newWake);
      }
      if h.GlanceGesture? {
        on := on.(glance := newState);
      } else {
        on := on.(moto := newState);
      }
    }

    /** Moves pending events into the buffer, as far as it goes. */
    method DrainPending(d: array<Event>, dLen: nat) returns (data: nat)
      requires Valid() && 1 <= dLen <= d.Length
      modifies `pendingEvents, `nextPendingEvent, d
      ensures Valid()
      ensures data == (if |old(Pending())| <= dLen then |old(Pending())| else dLen) <= d.Length
      ensures d[..data] == old(Pending())[..data] && Pending() == old(Pending())[data..]
    {
      data := 0;
      ghost var before := Pending();
      if pendingEvents != [] {
        while data < dLen && nextPendingEvent != |pendingEvents|
          invariant 0 <= data <= dLen && data <= |before|
          invariant nextPendingEvent <= |pendingEvents| && (nextPendingEvent == |pendingEvents| ==> pendingEvents == [])
          invariant pendingEvents[nextPendingEvent..] == before[data..]
          invariant d[..data] == before[..data]
          decreases |before| - data
        {
          d[data] := pendingEvents[nextPendingEvent];
          data := data + 1;
          nextPendingEvent := nextPendingEvent + 1;
          if nextPendingEvent == |pendingEvents| {
            pendingEvents := [];
            nextPendingEvent := 0;
          }
        }
      }
    }

    /** Decodes a glance into the buffer, or past its end into the pending queue. */
    method ReadGlance(d: array<Event>, dLen: nat, at: nat, gesture: int, timestamp: int) returns (data: nat)
      requires Valid() && at < dLen <= d.Length && Pending() == []
      modifies `on, `pendingEvents, d
      ensures Valid() && data <= dLen
      ensures on == Decode(old(on), Glance(gesture, timestamp)).0
      ensures d[..data] + Pending() == old(d[..at]) + Decode(old(on), Glance(gesture, timestamp)).1
      ensures Pending() != [] ==> data == dLen
    {
      data := at;
      ghost var before := d[..at];
      ghost var first: seq<Event> := [];
      if on.moto {
        d[data] := MotoGlanceEvent(gesture, timestamp);
        first := [d[data]];
        data := data + 1;
        SetEnable(MotoGlance, false);
      }
      assert d[..data] == before + first;
      if on.glance {
        if data < dLen {
          d[data] := GlanceEvent(gesture, timestamp);
          data := data + 1;
          assert d[..data] == before + first + [GlanceEvent(gesture, timestamp)];
        } else {
          pendingEvents := pendingEvents + [GlanceEvent(gesture, timestamp)];
        }
        SetEnable(GlanceGesture, false);
      }
    }

    /** Decodes one record. */
    method ReadRecord(d: array<Event>, dLen: nat, at: nat, buff: Record) returns (data: nat)
      requires Valid() && at < dLen <= d.Length && Pending() == [] && !buff.Failure?
      modifies `on, `pendingEvents, d
      ensures Valid() && data <= dLen && (Pending() != [] ==> data == dLen)
      ensures on == Decode(old(on), buff).0
      ensures d[..data] + Pending() == old(d[..at]) + Decode(old(on), buff).1
    {
      data := at;
      match buff {
        case Plain(content) =>
          d[data] := Other(content);
          data := data + 1;
        case Glance(gesture, timestamp) =>
          data := ReadGlance(d, dLen, data, gesture, timestamp);
        case _ =>
      }
    }

    /** Fills the buffer from the pending events and then from the hub, until it is full or the hub
        has no more. */
    method ReadEvents(d: array<Event>, dLen: int) returns (ret: int)
      requires Valid() && dLen <= d.Length
      modifies this, d
      ensures Valid()
      ensures var o := Read(old(on), old(Pending()), old(queue), dLen);
        && ret == o.ret && on == o.on && Pending() == o.pending
        && o.taken <= |old(queue)| && queue == old(queue)[o.taken..]
        && |o.out| <= d.Length && d[..|o.out|] == o.out
    {
      hide Decode;
      hide ReadLoop;
      hide DecodeAll;
      if dLen < 1 {
        return -EINVAL;
      }
      ghost var o := Read(on, Pending(), queue, dLen);
      ghost var q0, before := queue, Pending();
      var data: nat := DrainPending(d, dLen);
      ghost var n := 0;
      assert before[..|before|] == before;
      while data < dLen
        invariant Valid() && data <= dLen && n <= |q0| && queue == q0[n..]
        invariant data < dLen ==> Pending() == []
        invariant data <= d.Length && Rest(o, n, on, queue, d[..data], Pending(), dLen)
        decreases |queue|
      {
        ghost var e, q, out := on, queue, d[..data];
        if queue == [] {
          break;
        }
        var buff := queue[0];
        queue := queue[1..];
        if buff.Failure? {
          RestStep(o, n, e, q, out, dLen, d[..data], []);
          return 0 - buff.errno as int;
        }
        n := n + 1;
        data := ReadRecord(d, dLen, data, buff);
        RestStep(o, n - 1, e, q, out, dLen, d[..data], Pending());
      }
      RestEnd(o, n, on, queue, d[..data], Pending(), dLen);
      return data;
    }
  }

  /** A call's outcome, seen after `n` of its records. */
  ghost predicate Rest(o: Outcome, n: nat, e: Enables, queue: seq<Record>, out: seq<Event>, pending: seq<Event>, dLen: nat) {
    o == if pending == [] then Later(n, ReadLoop(e, queue, out, dLen)) else Outcome(dLen, e, out, pending, n)
  }

  lemma RestStep(o: Outcome, n: nat, e: Enables, queue: seq<Record>, out: seq<Event>, dLen: nat,
                 data: seq<Event>, pending: seq<Event>)
    requires |out| < dLen && queue != [] && Rest(o, n, e, queue, out, [], dLen)
    ensures queue[0].Failure? ==> o == Outcome(0 - queue[0].errno as int, e, out, [], n + 1)
    ensures !queue[0].Failure? && data + pending == out + Decode(e, queue[0]).1
            && |data| <= dLen && (pending != [] ==> |data| == dLen)
        ==> Rest(o, n + 1, Decode(e, queue[0]).0, queue[1..], data, pending, dLen)
  {
    var all := data + pending;
    assert all[..|data|] == data && all[|data|..] == pending;
    assert data + [] == data;
  }

  lemma RestEnd(o: Outcome, n: nat, e: Enables, queue: seq<Record>, out: seq<Event>, pending: seq<Event>, dLen: nat)
    requires Rest(o, n, e, queue, out, pending, dLen) && |out| <= dLen
    requires |out| == dLen || queue == []
    requires pending != [] ==> |out| == dLen
    ensures o == Outcome(|out|, e, out, pending, n)
  {}
}
