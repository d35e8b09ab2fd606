/** The circular reader of input events: a ring whose backing array has twice its capacity. */
module EventReader {

  const EINVAL := 22

  /** What the read call delivers: an error, whole events, or events of which the last is torn. */
  datatype ReadResult<Event> =
    | Failed(errno: int)
    | Whole(events: seq<Event>)
    | Torn(events: seq<Event>)

  function Place(capacity: nat, curr: nat, k: nat): int {
    if curr + k < capacity then curr + k else curr + k - capacity
  }

  /** Where the next event goes: behind the queue, with the end of the ring also standing for its start. */
  ghost predicate HeadAt(capacity: nat, curr: nat, count: nat, head: nat) {
    && count <= capacity
    && head <= capacity
    && (curr < capacity || capacity == curr == 0)
    && (head == curr + count || head + capacity == curr + count || (head == capacity && curr + count == 0))
  }

  /** The `count` events of a ring from position `curr` on. */
  ghost function Ring<Event>(buffer: seq<Event>, capacity: nat, curr: nat, count: nat): (q: seq<Event>)
    requires count <= capacity <= |buffer| && (curr < capacity || capacity == curr == 0)
    ensures |q| == count
  {
    seq(count, k requires 0 <= k < count => buffer[Place(capacity, curr, k)])
  }

  /** The buffer after a read at `head` has been folded back into the first half. */
  ghost predicate Folded<Event>(before: seq<Event>, after: seq<Event>, capacity: nat, head: nat, events: seq<Event>)
    requires |before| == |after| == 2 * capacity && head <= capacity && |events| <= capacity
  {
    forall i :: 0 <= i < capacity ==>
      after[i] == if head <= i < head + |events| then events[i - head]
                  else if capacity <= i + capacity < head + |events| then events[i + capacity - head]
                  else before[i]
  }

  /** Reading into the free part of the ring appends to the queue. */
  lemma ReadAppends<Event>(before: seq<Event>, after: seq<Event>, capacity: nat, curr: nat, count: nat, head: nat,
                           events: seq<Event>)
    requires HeadAt(capacity, curr, count, head) && |before| == |after| == 2 * capacity
    requires count + |events| <= capacity && Folded(before, after, capacity, head, events)
    ensures Ring(after, capacity, curr, count + |events|) == Ring(before, capacity, curr, count) + events
    ensures Ring(after, capacity, curr, count) == Ring(before, capacity, curr, count)
  {
    var q := Ring(after, capacity, curr, count + |events|);
    forall k | 0 <= k < count + |events|
      ensures q[k] == (Ring(before, capacity, curr, count) + events)[k]
    {
      var p := Place(capacity, curr, k);
      assert q[k] == after[p];
    }
    forall k | 0 <= k < count
      ensures Ring(after, capacity, curr, count)[k] == Ring(before, capacity, curr, count)[k]
    {
      var p := Place(capacity, curr, k);
      assert after[p] == before[p];
    }
  }

  /** The two forms a read ends in: in place, or folded back when it ran beyond the ring's end. */
  ghost function Delivered<Event>(before: seq<Event>, head: nat, events: seq<Event>): seq<Event>
    requires head + |events| <= |before|
  {
    before[..head] + events + before[head + |events|..]
  }

  ghost function FoldedBack<Event>(s: seq<Event>, capacity: nat, n: nat): seq<Event>
    requires |s| == 2 * capacity && n <= capacity
  {
    s[capacity..capacity + n] + s[n..]
  }

  lemma ReadFolds<Event>(before: seq<Event>, after: seq<Event>, capacity: nat, curr: nat, count: nat, head: nat,
                         events: seq<Event>)
    requires HeadAt(capacity, curr, count, head) && |before| == 2 * capacity
    requires count + |events| <= capacity
    requires var d := Delivered(before, head, events);
      after == if head + |events| > capacity then FoldedBack(d, capacity, head + |events| - capacity) else d
    ensures |after| == |before| && Folded(before, after, capacity, head, events)
    ensures HeadAt(capacity, curr, count + |events|,
                   if head + |events| > capacity then head + |events| - capacity else head + |events|)
  {}

  lemma HeadFits(capacity: nat, curr: nat, count: nat, head: nat)
    requires HeadAt(capacity, curr, count, head)
    ensures head <= capacity
  {}

  lemma TornReadHarmless<Event>(before: seq<Event>, capacity: nat, curr: nat, count: nat,
                                head: nat, events: seq<Event>)
    requires HeadAt(capacity, curr, count, head) && |before| == 2 * capacity && count + |events| <= capacity
    ensures Ring(Delivered(before, head, events), capacity, curr, count) == Ring(before, capacity, curr, count)
  {
    var after := Delivered(before, head, events);
    forall k | 0 <= k < count
      ensures Ring(after, capacity, curr, count)[k] == Ring(before, capacity, curr, count)[k]
    {
      var p := Place(capacity, curr, k);
      assert after[p] == before[p];
    }
  }

  /** Moving the read position by one drops the oldest event. */
  lemma RingTail<Event>(buffer: seq<Event>, capacity: nat, curr: nat, count: nat, head: nat)
    requires HeadAt(capacity, curr, count, head) && 0 < count && |buffer| == 2 * capacity
    ensures var next := if curr + 1 >= capacity then 0 else curr + 1;
      && HeadAt(capacity, next, count - 1, head)
      && Ring(buffer, capacity, curr, count) == [buffer[curr]] + Ring(buffer, capacity, next, count - 1)
  {}

  class InputEventCircularReader<Event(0)> {
    const buffer: array<Event>
    const capacity: nat
    var head: nat
    var curr: nat
    var freeSpace: int

    // Everything ever accepted by Fill, and everything passed over by Next.
    ghost var accepted: seq<Event>
    ghost var consumed: seq<Event>

    ghost predicate Shape()
      reads this
    {
      && buffer.Length == 2 * capacity
      && 0 <= freeSpace <= capacity
      && HeadAt(capacity, curr, capacity - freeSpace, head)
    }

    /** The queued events, oldest first. */
    ghost function Queue(): (q: seq<Event>)
      requires Shape()
      reads this, buffer
      ensures |q| + freeSpace == capacity
    {
      Ring(buffer[..], capacity, curr, capacity - freeSpace)
    }

    /** The ring is well formed and queues exactly what was accepted and not yet consumed. */
    ghost predicate Valid()
      reads this, buffer
    {
      Shape() && accepted == consumed + Queue()
    }

    constructor (numEvents: nat)
      ensures Valid() && fresh(buffer)
      ensures capacity == numEvents && accepted == [] && consumed == []
    {
      capacity := numEvents;
      buffer := new Event[2 * numEvents];
      head, curr, freeSpace := 0, 0, numEvents;
      accepted, consumed := [], [];
    }

    /** Stores events from position `at` on, as the read call does. */
    method Deliver(at: nat, events: seq<Event>)
      requires at + |events| <= buffer.Length
      modifies buffer
      ensures buffer[..] == Delivered(old(buffer[..]), at, events)
    {
      var i := 0;
      while i < |events|
        invariant 0 <= i <= |events|
        invariant forall k :: 0 <= k < i ==> buffer[at + k] == events[k]
        invariant forall k :: 0 <= k < at || at + i <= k < buffer.Length ==> buffer[k] == old(buffer[k])
      {
        buffer[at + i] := events[i];
        i := i + 1;
      }
    }

    /** Copies what lies beyond the ring's end back to its start. */
    method FoldBack(s: nat)
      requires buffer.Length == 2 * capacity && s <= capacity
      modifies buffer
      ensures buffer[..] == FoldedBack(old(buffer[..]), capacity, s)
    {
      var i := 0;
      while i < s
        invariant 0 <= i <= s
        invariant forall k :: 0 <= k < i ==> buffer[k] == old(buffer[capacity + k])
        invariant forall k :: i <= k < buffer.Length ==> buffer[k] == old(buffer[k])
      {
        buffer[i] := buffer[capacity + i];
        i := i + 1;
      }
    }

    /** Reads into the free space; `r` is what the read call delivers, never more than asked for. */
    method Fill(r: ReadResult<Event>) returns (n: int)
      requires Valid()
      requires !r.Failed? ==> |r.events| <= freeSpace
      modifies this`head, this`freeSpace, this`accepted, buffer
      ensures Valid()
      ensures n == if old(freeSpace) == 0 then 0
                   else match r case Failed(e) => -e case Torn(_) => -22 case Whole(es) => |es|
      ensures Queue() == old(Queue()) + (if old(freeSpace) > 0 && r.Whole? then r.events else [])
      ensures accepted == old(accepted) + (if old(freeSpace) > 0 && r.Whole? then r.events else [])
    {
      hide HeadAt;
      hide Ring;
      hide Folded;
      hide Delivered;
      hide FoldedBack;
      if freeSpace == 0 {
        return 0;
      }
      if r.Failed? {
        return -r.errno;
      }
      ghost var before := buffer[..];
      ghost var h, count := head, capacity - freeSpace;
      HeadFits(capacity, curr, count, head);
      Deliver(head, r.events);
      if r.Torn? {
        TornReadHarmless(before, capacity, curr, count, head, r.events);
        return -EINVAL;
      }
      n := |r.events|;
      if n != 0 {
        head := head + n;
        freeSpace := freeSpace - n;
        if head > capacity {
          var s := head - capacity;
          FoldBack(s);
          head := s;
        }
      }
      ReadFolds(before, buffer[..], capacity, curr, count, h, r.events);
      ReadAppends(before, buffer[..], capacity, curr, count, h, r.events);
      accepted := accepted + r.events;
    }

    /** Points at the oldest event; 1 when there is one. */
    method ReadEvent() returns (available: int, event: nat)
      requires Valid()
      ensures available == if Queue() != [] then 1 else 0
      ensures available == 1 ==> event < buffer.Length && buffer[event] == Queue()[0]
    {
      event := curr;
      var count := capacity - freeSpace;
      available := if count != 0 then 1 else 0;
    }

    /** Passes over the oldest event. */
    method Next()
      requires Valid() && Queue() != []
      modifies this`curr, this`freeSpace, this`consumed
      ensures Valid()
      ensures Queue() == old(Queue())[1..]
      ensures consumed == old(consumed) + [old(Queue())[0]]
    {
      hide HeadAt;
      hide Ring;
      RingTail(buffer[..], capacity, curr, capacity - freeSpace, head);
      ghost var q := Queue();
      consumed := consumed + [q[0]];
      curr := curr + 1;
      freeSpace := freeSpace + 1;
      if curr >= capacity {
        curr := 0;
      }
      assert q == [q[0]] + Queue();
    }
  }
}
