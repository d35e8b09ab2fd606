/** Performance locks held for power hints: a linked list of the locks that must be given back. */
module Perflock {

  datatype HintData = HintData(hintId: int, handle: int)

  // ----- the books kept over a run

  /** The locks still listed, newest first, and every handle acquired and released so far. */
  datatype Books = Books(active: seq<HintData>, acquired: seq<int>, released: seq<int>)

  /** What of the client library was found. */
  datatype Client = Client(loaded: bool, canAcquire: bool, canRelease: bool)

  /** A call, with what the library and the allocator answer to it. */
  datatype Call =
    | Perform(hintId: int, handle: int, hasData: bool, hasNode: bool)
    | Undo(hintId: int)

  /** The position of the newest lock of a hint, or the list's length. */
  function First(active: seq<HintData>, hintId: int): (i: nat)
    ensures i <= |active|
    ensures i < |active| ==> active[i].hintId == hintId
    ensures forall k :: 0 <= k < i ==> active[k].hintId != hintId
  {
    if active == [] || active[0].hintId == hintId then 0 else 1 + First(active[1..], hintId)
  }

  /** A sequence without its element at `i`. */
  function Dropped<T>(s: seq<T>, i: nat): (r: seq<T>)
    requires i < |s|
    ensures |r| == |s| - 1
    ensures forall k :: 0 <= k < i ==> r[k] == s[k]
    ensures forall k :: i <= k < |r| ==> r[k] == s[k + 1]
  {
    s[..i] + s[i + 1..]
  }

  lemma DroppedMembers<T>(s: seq<T>, i: nat)
    requires i < |s|
    ensures forall x :: x in Dropped(s, i) ==> x in s
  {}

  predicate Acquires(client: Client, call: Call) {
    client.loaded && client.canAcquire && call.Perform? && call.handle != -1
  }

  function Performed(client: Client, b: Books, call: Call): Books
    requires call.Perform?
  {
    if !Acquires(client, call) then b
    else if call.hasData && call.hasNode then
      b.(active := [HintData(call.hintId, call.handle)] + b.active, acquired := b.acquired + [call.handle])
    else
      b.(acquired := b.acquired + [call.handle],
         released := if client.canRelease then b.released + [call.handle] else b.released)
  }

  function Undone(client: Client, b: Books, hintId: int): Books {
    var i := First(b.active, hintId);
    if !client.loaded || !client.canRelease || i == |b.active| then b
    else b.(active := Dropped(b.active, i), released := b.released + [b.active[i].handle])
  }

  function Called(client: Client, b: Books, call: Call): Books {
    if call.Perform? then Performed(client, b, call) else Undone(client, b, call.hintId)
  }

  function Run(client: Client, b: Books, calls: seq<Call>): Books
    decreases |calls|
  {
    if calls == [] then b else Run(client, Called(client, b, calls[0]), calls[1..])
  }

  /** The locks granted in a run: every answer but -1 of a library that is loaded and can acquire. */
  function Granted(client: Client, calls: seq<Call>): seq<int> {
    if calls == [] then []
    else
      (if client.loaded && client.canAcquire && calls[0].Perform? && calls[0].handle != -1 then [calls[0].handle] else [])
      + Granted(client, calls[1..])
  }

  /** Over any run exactly the locks granted are acquired, in order. */
  lemma {:induction false} AcquiredIsGranted(client: Client, b: Books, calls: seq<Call>)
    ensures Run(client, b, calls).acquired == b.acquired + Granted(client, calls)
    decreases |calls|
  {
    if calls != [] {
      var one := if client.loaded && client.canAcquire && calls[0].Perform? && calls[0].handle != -1 then [calls[0].handle] else [];
      assert Called(client, b, calls[0]).acquired == b.acquired + one;
      AcquiredIsGranted(client, Called(client, b, calls[0]), calls[1..]);
      assert (b.acquired + one) + Granted(client, calls[1..]) == b.acquired + (one + Granted(client, calls[1..]));
    }
  }

  /** One call, in full. A granted lock that can be listed becomes the newest; one that cannot is given
      back at once if that is possible; a refusal, or a library that is not loaded or cannot acquire,
      leaves the books as they were. */
  lemma PerformMeaning(client: Client, b: Books, hintId: int, handle: int, hasData: bool, hasNode: bool)
    ensures var r := Performed(client, b, Perform(hintId, handle, hasData, hasNode));
      && (client.loaded && client.canAcquire && handle != -1 && hasData && hasNode ==>
            r == Books([HintData(hintId, handle)] + b.active, b.acquired + [handle], b.released))
      && (client.loaded && client.canAcquire && handle != -1 && !(hasData && hasNode) ==>
            r == Books(b.active, b.acquired + [handle], if client.canRelease then b.released + [handle] else b.released))
      && (!client.loaded || !client.canAcquire || handle == -1 ==> r == b)
  {}

  /** An undo touches the books only if the library is loaded and can release, and the hint has a lock. */
  lemma UndoMeaning(client: Client, b: Books, hintId: int)
    ensures var r := Undone(client, b, hintId);
      if client.loaded && client.canRelease && exists k :: 0 <= k < |b.active| && b.active[k].hintId == hintId then
        exists k :: 0 <= k < |b.active| && b.active[k].hintId == hintId
          && (forall j :: 0 <= j < k ==> b.active[j].hintId != hintId)
          && r == Books(b.active[..k] + b.active[k + 1..], b.acquired, b.released + [b.active[k].handle])
      else r == b
  {
    var i := First(b.active, hintId);
    assert i == |b.active| ==> forall k :: 0 <= k < |b.active| ==> b.active[k].hintId != hintId;
  }

  // ----- conservation

  function Handles(active: seq<HintData>): seq<int> {
    if active == [] then [] else [active[0].handle] + Handles(active[1..])
  }

  /** Locks acquired that could neither be listed nor given back. */
  function Lost(client: Client, calls: seq<Call>): seq<int> {
    if calls == [] then []
    else
      var rest := Lost(client, calls[1..]);
      if Acquires(client, calls[0]) && !(calls[0].hasData && calls[0].hasNode) && !client.canRelease
      then [calls[0].handle] + rest else rest
  }

  /** Every lock acquired is accounted for, as often as it was acquired. */
  predicate Balanced(b: Books, lost: multiset<int>) {
    multiset(b.acquired) == multiset(b.released) + multiset(Handles(b.active)) + lost
  }

  lemma {:induction false} HandlesWithout(active: seq<HintData>, i: nat)
    requires i < |active|
    ensures multiset(Handles(active)) == multiset(Handles(Dropped(active, i))) + multiset{active[i].handle}
  {
    if i == 0 {
      assert active[..0] + active[1..] == active[1..];
    } else {
      var shorter := Dropped(active, i);
      assert shorter[1..] == active[1..][..i - 1] + active[1..][i..];
      HandlesWithout(active[1..], i - 1);
    }
  }

  lemma PerformedBalanced(client: Client, b: Books, call: Call, lost: multiset<int>)
    requires Balanced(b, lost) && call.Perform?
    ensures Balanced(Performed(client, b, call), lost + multiset(Lost(client, [call])))
  {
    assert Lost(client, [call][1..]) == [];
    var entry := HintData(call.hintId, call.handle);
    assert ([entry] + b.active)[1..] == b.active;
    assert Handles([entry] + b.active) == [call.handle] + Handles(b.active);
  }

  lemma UndoneBalanced(client: Client, b: Books, hintId: int, lost: multiset<int>)
    requires Balanced(b, lost)
    ensures Balanced(Undone(client, b, hintId), lost)
  {
    if First(b.active, hintId) < |b.active| {
      HandlesWithout(b.active, First(b.active, hintId));
    }
  }

  lemma CalledBalanced(client: Client, b: Books, call: Call, lost: multiset<int>)
    requires Balanced(b, lost)
    ensures Balanced(Called(client, b, call), lost + multiset(Lost(client, [call])))
  {
    hide Balanced;
    hide Performed;
    hide Undone;
    if call.Perform? {
      PerformedBalanced(client, b, call, lost);
    } else {
      UndoneBalanced(client, b, call.hintId, lost);
      assert Lost(client, [call][1..]) == [];
      assert lost + multiset{} == lost;
    }
  }

  /** Over any run of calls, whatever fails in it, no lock is lost or given back twice: the locks
      acquired and not yet released are those in the list and the ones that could not be kept. */
  lemma {:induction false} RunBalanced(client: Client, b: Books, calls: seq<Call>, lost: multiset<int>)
    requires Balanced(b, lost)
    ensures Balanced(Run(client, b, calls), lost + multiset(Lost(client, calls)))
    decreases |calls|
  {
    if calls == [] {
    } else {
      var next := lost + multiset(Lost(client, [calls[0]]));
      CalledBalanced(client, b, calls[0], lost);
      RunBalanced(client, Called(client, b, calls[0]), calls[1..], next);
      LostSplits(client, calls);
      assert lost + multiset(Lost(client, calls)) == next + multiset(Lost(client, calls[1..]));
    }
  }

  lemma LostSplits(client: Client, calls: seq<Call>)
    requires calls != []
    ensures Lost(client, calls) == Lost(client, [calls[0]]) + Lost(client, calls[1..])
  {
    assert Lost(client, [calls[0]][1..]) == [];
  }

  /** Something is lost exactly when the library cannot release and an acquired lock could not be
      listed for want of memory. */
  lemma {:induction false} NothingLost(client: Client, calls: seq<Call>)
    ensures Lost(client, calls) == [] <==> (client.canRelease
      || forall k :: 0 <= k < |calls| && Acquires(client, calls[k]) ==> calls[k].hasData && calls[k].hasNode)
  {
    if calls != [] {
      NothingLost(client, calls[1..]);
      assert forall k :: 0 <= k < |calls[1..]| ==> calls[1..][k] == calls[k + 1];
      assert forall k :: 1 <= k < |calls| ==> calls[k] == calls[1..][k - 1];
    }
  }

  /** With a library that can release, the list is exactly the locks still held. */
  lemma HeldIsListed(client: Client, calls: seq<Call>)
    requires client.canRelease
    ensures var b := Run(client, Books([], [], []), calls);
      multiset(b.acquired) == multiset(b.released) + multiset(Handles(b.active))
  {
    var b := Books([], [], []);
    RunBalanced(client, b, calls, multiset{});
    NothingLost(client, calls);
  }

  // ----- each hint's locks are a stack of their own

  /** The locks of one hint, newest first. */
  function Of(active: seq<HintData>, hintId: int): seq<int> {
    if active == [] then []
    else if active[0].hintId == hintId then [active[0].handle] + Of(active[1..], hintId)
    else Of(active[1..], hintId)
  }

  /** A stack of locks, as if no other hint existed. */
  function StackRun(client: Client, stack: seq<int>, hintId: int, calls: seq<Call>): seq<int>
    decreases |calls|
  {
    if calls == [] then stack
    else
      var call := calls[0];
      var next :=
        if call.hintId != hintId then stack
        else if call.Undo? then
          if client.loaded && client.canRelease && stack != [] then stack[1..] else stack
        else if Acquires(client, call) && call.hasData && call.hasNode then [call.handle] + stack
        else stack;
      StackRun(client, next, hintId, calls[1..])
  }

  lemma {:induction false} OfWithout(active: seq<HintData>, i: nat, hintId: int)
    requires i < |active| && i == First(active, active[i].hintId)
    ensures active[i].hintId == hintId ==> Of(active, hintId) != [] && Of(active, hintId)[0] == active[i].handle
    ensures Of(Dropped(active, i), hintId)
         == if active[i].hintId == hintId then Of(active, hintId)[1..] else Of(active, hintId)
  {
    var shorter := Dropped(active, i);
    if i == 0 {
      assert shorter == active[1..];
    } else {
      assert shorter[0] == active[0];
      assert shorter[1..] == active[1..][..i - 1] + active[1..][i..];
      assert active[1..][i - 1] == active[i];
      OfWithout(active[1..], i - 1, hintId);
    }
  }

  lemma {:induction false} OfNone(active: seq<HintData>, hintId: int)
    ensures Of(active, hintId) == [] <==> First(active, hintId) == |active|
  {
    if active != [] {
      OfNone(active[1..], hintId);
    }
  }

  /** Over any run, undoing gives back the newest lock of its hint and disturbs no other hint. */
  lemma {:induction false} StackPerHint(client: Client, b: Books, calls: seq<Call>, hintId: int)
    ensures Of(Run(client, b, calls).active, hintId) == StackRun(client, Of(b.active, hintId), hintId, calls)
    decreases |calls|
  {
    if calls != [] {
      var call := calls[0];
      var next := Called(client, b, call);
      if call.Perform? {
        var entry := HintData(call.hintId, call.handle);
        assert ([entry] + b.active)[1..] == b.active;
      } else {
        OfNone(b.active, call.hintId);
        if First(b.active, call.hintId) < |b.active| {
          OfWithout(b.active, First(b.active, call.hintId), hintId);
        }
      }
      StackPerHint(client, next, calls[1..], hintId);
    }
  }

  /** What an undo releases is the top of its hint's stack, and nothing when the stack is empty. */
  lemma UndoReleasesNewest(client: Client, b: Books, hintId: int)
    requires client.loaded && client.canRelease
    ensures Undone(client, b, hintId).released
         == if Of(b.active, hintId) == [] then b.released else b.released + [Of(b.active, hintId)[0]]
  {
    OfNone(b.active, hintId);
    if First(b.active, hintId) < |b.active| {
      OfWithout(b.active, First(b.active, hintId), hintId);
    }
  }

  // ----- the list

  class ListNode {
    var next: ListNode?
    var data: HintData
    var compares: bool

    constructor (data: HintData, compares: bool)
      ensures next == null && this.data == data && this.compares == compares
    {
      this.data, this.compares, next := data, compares, null;
    }
  }

  ghost function Entries(nodes: seq<ListNode>): (r: seq<HintData>)
    reads nodes`data
    ensures |r| == |nodes| && forall i :: 0 <= i < |nodes| ==> r[i] == nodes[i].data
  {
    if nodes == [] then [] else [nodes[0].data] + Entries(nodes[1..])
  }

  lemma EntriesDropped(nodes: seq<ListNode>, i: nat)
    requires i < |nodes|
    ensures Entries(Dropped(nodes, i)) == Dropped(Entries(nodes), i)
  {
    hide Dropped;
    var a, b := Entries(Dropped(nodes, i)), Dropped(Entries(nodes), i);
    forall k | 0 <= k < |nodes| - 1 ensures a[k] == b[k] {
      assert a[k] == Dropped(nodes, i)[k].data;
    }
  }

  ghost function Link(nodes: seq<ListNode>, i: nat): ListNode? {
    if i < |nodes| then nodes[i] else null
  }

  /** The chain from the head is `nodes` and ends: it has no cycle and no node twice. */
  ghost predicate Chain(head: ListNode, nodes: seq<ListNode>)
    reads head`next, nodes`next, nodes`compares
  {
    && (forall i :: 0 <= i < |nodes| ==> nodes[i] != head && nodes[i].compares)
    && (forall i, j :: 0 <= i < j < |nodes| ==> nodes[i] != nodes[j])
    && head.next == Link(nodes, 0)
    && (forall i :: 0 <= i < |nodes| ==> nodes[i].next == Link(nodes, i + 1))
  }

  /** Puts a new node in front; `null` when there is no memory. */
  method AddListNode(head: ListNode, data: HintData, allocates: bool, ghost nodes: seq<ListNode>)
    returns (n: ListNode?)
    requires Chain(head, nodes) && head.compares
    modifies head`next
    ensures n == null <==> !allocates
    ensures n == null ==> Chain(head, nodes)
    ensures n != null ==> fresh(n) && n.data == data && Chain(head, [n] + nodes)
  {
    if !allocates {
      return null;
    }
    var newNode := new ListNode(data, head.compares);
    newNode.next := head.next;
    head.next := newNode;
    return newNode;
  }

  /** The first node of a hint. */
  method FindNode(head: ListNode, hintId: int, ghost nodes: seq<ListNode>) returns (n: ListNode?)
    requires Chain(head, nodes)
    ensures n == Link(nodes, First(Entries(nodes), hintId))
  {
    ghost var i := 0;
    n := head.next;
    while n != null
      invariant i <= |nodes| && n == Link(nodes, i)
      invariant forall k :: 0 <= k < i ==> nodes[k].data.hintId != hintId
      decreases |nodes| - i
    {
      if n.compares {
        if n.data.hintId == hintId {
          return n;
        }
      }
      n := n.next;
      i := i + 1;
    }
  }

  method Unlink(head: ListNode, saved: ListNode, current: ListNode, ghost nodes: seq<ListNode>, ghost at: nat)
    requires Chain(head, nodes) && at < |nodes| && current == nodes[at]
    requires saved == if at == 0 then head else nodes[at - 1]
    modifies saved`next
    ensures Chain(head, Dropped(nodes, at))
  {
    hide Dropped;
    ghost var rest := Dropped(nodes, at);
    saved.next := current.next;
    hide Dropped;
    forall k | 0 <= k < |rest| ensures rest[k].next == Link(rest, k + 1) {
      assert rest[k] == saved <==> k == at - 1;
    }
    assert head.next == Link(rest, 0);
  }

  /** Unlinks a node; -1 when it is not in the list. */
  method RemoveListNode(head: ListNode, del: ListNode, ghost nodes: seq<ListNode>, ghost at: nat) returns (ret: int)
    requires Chain(head, nodes)
    requires at <= |nodes| && if at < |nodes| then nodes[at] == del else del !in nodes
    modifies head`next, nodes`next
    ensures ret == if at < |nodes| then 0 else -1
    ensures Chain(head, if ret == 0 then Dropped(nodes, at) else nodes)
  {
    if head.next == null {
      return -1;
    }
    var current, saved := head.next, head;
    ghost var i := 0;
    while current != null && current != del
      invariant i <= at && current == Link(nodes, i)
      invariant saved == if i == 0 then head else nodes[i - 1]
      decreases at - i
    {
      saved := current;
      current := current.next;
      i := i + 1;
    }
    if current == null {
      return -1;
    }
    Unlink(head, saved, current, nodes, at);
    return 0;
  }

  class ActiveHints {
    const head: ListNode
    ghost var nodes: seq<ListNode>
    const client: Client
    var acquired: seq<int>
    var released: seq<int>

    ghost predicate Valid()
      reads this, head, nodes
    {
      Chain(head, nodes)
    }

    ghost function Value(): Books
      reads this, nodes
    {
      Books(Entries(nodes), acquired, released)
    }

    constructor (client: Client)
      ensures Valid() && Value() == Books([], [], []) && this.client == client && fresh(head)
    {
      this.client := client;
      head := new ListNode(HintData(0, 0), false);
      nodes, acquired, released := [], [], [];
    }

    /** The list's comparison is set before its first node is added. */
    method EnableCompare()
      requires Valid()
      modifies head`compares
      ensures Valid() && head.compares && Entries(nodes) == old(Entries(nodes))
    {
      if !head.compares {
        head.compares := true;
      }
    }

    /** Lists a lock; says whether there was memory for it. */
    method Track(data: HintData, hasNode: bool) returns (tracked: bool)
      requires Valid() && head.compares
      modifies head`next, `nodes
      ensures Valid() && tracked == hasNode
      ensures Entries(nodes) == if tracked then [data] + old(Entries(nodes)) else old(Entries(nodes))
      ensures forall n :: n in nodes ==> n in old(nodes) || fresh(n)
    {
      ghost var before := Entries(nodes);
      var n := AddListNode(head, data, hasNode, nodes);
      if n == null {
        return false;
      }
      nodes := [n] + nodes;
      assert Entries(nodes) == [data] + before;
      return true;
    }

    /** Takes a lock for a hint and lists it; a lock that cannot be listed is given back at once. */
    method PerformHintAction(hintId: int, handle: int, hasData: bool, hasNode: bool)
      requires Valid()
      modifies this, head
      ensures Valid()
      ensures Value() == Performed(client, old(Value()), Perform(hintId, handle, hasData, hasNode))
      ensures forall n :: n in nodes ==> n in old(nodes) || fresh(n)
    {
      hide Chain;
      if client.loaded {
        if client.canAcquire {
          if handle != -1 {
            acquired := acquired + [handle];
            if hasData {
              EnableCompare();
              var tracked := Track(HintData(hintId, handle), hasNode);
              if !tracked {
                if client.canRelease {
                  released := released + [handle];
                }
              }
            } else {
              if client.canRelease {
                released := released + [handle];
              }
            }
          }
        }
      }
    }

    /** Unlists the newest lock of a hint, if there is one. */
    method Untrack(found: ListNode, ghost i: nat)
      requires Valid() && i < |nodes| && found == nodes[i]
      modifies head`next, nodes`next, `nodes
      ensures Valid() && nodes == Dropped(old(nodes), i)
      ensures Entries(nodes) == Dropped(old(Entries(nodes)), i)
      ensures forall n :: n in nodes ==> n in old(nodes)
    {
      hide Dropped;
      hide Chain;
      hide Entries;
      EntriesDropped(nodes, i);
      DroppedMembers(nodes, i);
      var _ := RemoveListNode(head, found, nodes, i);
      nodes := Dropped(nodes, i);
    }

    /** Gives back the newest lock of a hint and unlists it, whether or not the release succeeds. */
    method UndoHintAction(hintId: int)
      requires Valid()
      modifies this, head, nodes`next
      ensures Valid()
      ensures Value() == Undone(client, old(Value()), hintId)
      ensures forall n :: n in nodes ==> n in old(nodes)
    {
      hide Chain;
      hide Dropped;
      hide Entries;
      if client.loaded {
        if client.canRelease {
          var found := FindNode(head, hintId, nodes);
          if found != null {
            released := released + [found.data.handle];
            Untrack(found, First(Entries(nodes), hintId));
          }
        }
      }
    }
  }
}
