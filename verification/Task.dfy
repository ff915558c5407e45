/** A task's shared record: a one-slot inbox with many senders and one receiver, and the
    reference count that decides when the record is freed. Every action below is one critical
    section under the record's lock. */
module Tasks {
  import opened Options

  /** A packed message; `stamp` numbers the messages in the order in which they were packed. */
  datatype Message = Message(sender: nat, stamp: nat)

  /** The record: the flags that matter here, the count, the inbox, whether the memory is still
      there, and whether someone returned without giving the lock back. */
  datatype Shared = Shared(full: bool, done: bool, refs: nat, inbox: Option<Message>, inMemory: bool, locked: bool)

  /** Put a message into the inbox and raise the flag. */
  function Deposit(t: Shared, m: Message): Shared {
    t.(inbox := Some(m), full := true)
  }

  function TakeOut(t: Shared): Shared {
    t.(inbox := None, full := false)
  }

  /** chimp_task_unref: the last reference frees the record. */
  function Unref(t: Shared): Shared {
    if t.refs == 0 then t
    else if t.refs == 1 then t.(refs := 0, inMemory := false)
    else t.(refs := t.refs - 1)
  }

  /** The end of a task's thread: the inbox is freed but the flag stays as it is. */
  function ThreadEnd(t: Shared): Shared {
    var u := t.(inbox := None);
    if u.refs == 1 then Unref(u) else Unref(u).(done := true)
  }

  class TaskRecord {
    var full: bool
    var done: bool
    var refs: nat
    var inbox: Option<Message>
    ghost var inMemory: bool
    ghost var locked: bool

    ghost function View(): Shared
      reads this
    {
      Shared(full, done, refs, inbox, inMemory, locked)
    }

    /** A record for a new task: its creator's handle, the thread's own reference and the
        thread's local handle. */
    constructor ()
      ensures View() == Shared(false, false, 3, None, true, false)
    {
      full, done, refs, inbox, inMemory, locked := false, false, 3, None, true, false;
    }

    /** The part of a send under the lock, up to the point where it has to wait: a finished
        task refuses the message, and the lock is not released. */
    method Send(m: Message) returns (sent: bool, wait: bool)
      modifies this
      ensures sent == (!old(done) && !old(full)) && wait == (!old(done) && old(full))
      ensures View() == if old(done) then old(View()).(locked := true) else if old(full) then old(View()) else Deposit(old(View()), m)
    {
      if done {
        locked := true;
        return false, false;
      }
      if full { return false, true; }
      inbox, full := Some(m), true;
      return true, false;
    }

    /** A sender that waited goes on once the inbox is empty; it does not look at the done
        flag again. */
    method Resume(m: Message)
      requires !full
      modifies this
      ensures View() == Deposit(old(View()), m)
    {
      inbox, full := Some(m), true;
    }

    method Receive() returns (m: Option<Message>)
      requires full && !done
      modifies this
      ensures m == old(inbox) && View() == TakeOut(old(View()))
    {
      m := inbox;
      inbox, full := None, false;
    }

    method AddRef()
      modifies this
      ensures View() == old(View()).(refs := old(refs) + 1)
    {
      refs := refs + 1;
    }

    method DropRef() returns (freed: bool)
      modifies this
      ensures View() == Unref(old(View())) && freed == (old(refs) == 1)
    {
      freed := false;
      if refs > 0 {
        refs := refs - 1;
        if refs == 0 {
          freed := true;
          inMemory := false;
        }
      }
    }

    method EndThread()
      requires refs > 0
      modifies this
      ensures View() == ThreadEnd(old(View()))
    {
      inbox := None;
      var freed := DropRef();
      if !freed {
        done := true;
      }
    }
  }

  // ---------- all interleavings ----------

  /** A sender at work; one that is not in the system's map is idle. */
  datatype Sender = Packed(m: Message) | Waiting(m: Message)

  /** The record with everything that can act on it: senders, live handle objects, encoded
      handles in messages that have not been decoded, the thread's own reference, and the
      history of committed sends and received messages. */
  datatype System = System(
    t: Shared, senders: map<nat, Sender>, handles: nat, cells: nat, thread: bool,
    stamp: nat, sent: seq<Message>, received: seq<Message>
  )

  datatype Action =
    | Pack(i: nat) | Enter(i: nat) | Wake(i: nat) | Receive
    | Encode | DecodeNew | DecodeDrop | DropHandle | FreeCell
    | Finish | Fail

  function Commit(s: System, i: nat, m: Message): System {
    s.(t := Deposit(s.t, m), senders := s.senders - {i}, sent := s.sent + [m])
  }

  /** One action; an action that is not possible changes nothing. A sender holds a handle while
      it sends, so a handle can be dropped only if more are left than senders are busy. */
  function Apply(s: System, a: Action): System {
    if s.t.locked then s else
    match a
    case Pack(i) =>
      if i in s.senders || |s.senders| >= s.handles then s
      else s.(senders := s.senders[i := Packed(Message(i, s.stamp))], stamp := s.stamp + 1)
    case Enter(i) =>
      if i !in s.senders || s.senders[i].Waiting? then s
      else if s.t.done then s.(t := s.t.(locked := true), senders := s.senders - {i})
      else if s.t.full then s.(senders := s.senders[i := Waiting(s.senders[i].m)])
      else Commit(s, i, s.senders[i].m)
    case Wake(i) =>
      if i !in s.senders || s.senders[i].Packed? || s.t.full then s
      else Commit(s, i, s.senders[i].m)
    case Receive =>
      if !s.thread || s.t.done || !s.t.full then s
      else (match s.t.inbox
            case None => s
            case Some(m) => s.(t := TakeOut(s.t), received := s.received + [m]))
    case Encode => if s.handles == 0 then s else s.(t := s.t.(refs := s.t.refs + 1), cells := s.cells + 1)
    case DecodeNew => if s.cells == 0 then s else s.(t := s.t.(refs := s.t.refs + 1), handles := s.handles + 1)
    case DecodeDrop => if s.cells == 0 then s else s.(t := Unref(s.t), cells := s.cells - 1)
    case DropHandle => if s.handles <= |s.senders| then s else s.(t := Unref(s.t), handles := s.handles - 1)
    case FreeCell => if s.cells == 0 then s else s.(cells := s.cells - 1)
    case Finish => if !s.thread then s else s.(t := ThreadEnd(s.t), thread := false)
    case Fail => if !s.thread then s else s.(t := Unref(s.t), thread := false)
  }

  function Run(s: System, actions: seq<Action>): System
    decreases |actions|
  {
    if actions == [] then s else Apply(Run(s, actions[..|actions| - 1]), actions[|actions| - 1])
  }

  /** A task that is ready: two handles (the creator's and the local one) and the thread. */
  function Start(): System {
    System(Shared(false, false, 3, None, true, false), map[], 2, 0, true, 0, [], [])
  }

  function Held(t: Shared): seq<Message> {
    match t.inbox case None => [] case Some(m) => [m]
  }

  // ---------- invariants ----------

  ghost predicate Counted(s: System) {
    && |s.senders| <= s.handles
    && (s.t.inMemory ==> s.t.refs >= 1 && s.t.refs >= s.handles + s.cells + if s.thread then 1 else 0)
    && (!s.t.inMemory ==> s.handles == 0 && s.cells == 0 && !s.thread)
  }

  ghost predicate Ordered(s: System) {
    && s.received <= s.sent
    && (s.thread ==> !s.t.done && s.sent == s.received + Held(s.t) && (s.t.full <==> s.t.inbox.Some?))
  }

  /** Messages are distinct, and those of one sender keep their order. */
  ghost predicate InOrder(sent: seq<Message>, stamp: nat) {
    && (forall k :: 0 <= k < |sent| ==> sent[k].stamp < stamp)
    && (forall j, k :: 0 <= j < k < |sent| ==> sent[j].stamp != sent[k].stamp)
    && (forall j, k :: 0 <= j < k < |sent| && sent[j].sender == sent[k].sender ==> sent[j].stamp < sent[k].stamp)
  }

  /** Every message in flight is younger than those its sender has committed. */
  ghost predicate Flying(senders: map<nat, Sender>, sent: seq<Message>, stamp: nat) {
    && (forall i :: i in senders ==> senders[i].m.sender == i && senders[i].m.stamp < stamp)
    && (forall i, k :: i in senders && 0 <= k < |sent| ==> sent[k].stamp != senders[i].m.stamp)
    && (forall i, k :: i in senders && 0 <= k < |sent| && sent[k].sender == i ==> sent[k].stamp < senders[i].m.stamp)
    && (forall i, j :: i in senders && j in senders && i != j ==> senders[i].m.stamp != senders[j].m.stamp)
  }

  ghost predicate Stamped(s: System) {
    InOrder(s.sent, s.stamp) && Flying(s.senders, s.sent, s.stamp)
  }

  lemma {:induction false} SizeAfter(senders: map<nat, Sender>, i: nat, x: Sender)
    ensures |senders - {i}| <= |senders|
    ensures |senders[i := x]| == if i in senders then |senders| else |senders| + 1
  {
    assert (senders - {i}).Keys == senders.Keys - {i};
    assert senders[i := x].Keys == senders.Keys + {i};
    if i in senders { assert senders.Keys + {i} == senders.Keys; }
  }

  lemma {:induction false} CountedStep(s: System, a: Action)
    requires Counted(s)
    ensures Counted(Apply(s, a))
  {
    if a.Pack? || a.Enter? || a.Wake? {
      CountedSender(s, a);
    }
  }

  lemma {:induction false} CountedSender(s: System, a: Action)
    requires Counted(s) && (a.Pack? || a.Enter? || a.Wake?)
    ensures Counted(Apply(s, a))
  {
    SizeAfter(s.senders, a.i, Packed(Message(a.i, s.stamp)));
    if a.i in s.senders { SizeAfter(s.senders, a.i, Waiting(s.senders[a.i].m)); }
  }

  lemma {:induction false} OrderedStep(s: System, a: Action)
    requires Ordered(s)
    ensures Ordered(Apply(s, a))
  {
    match a
    case Receive =>
      if s.t.inbox.Some? { assert s.received + [s.t.inbox.value] + [] == s.received + [s.t.inbox.value]; }
    case Enter(_) => assert s.thread && !s.t.full ==> s.received + [] == s.received;
    case Wake(_) => assert s.thread && !s.t.full ==> s.received + [] == s.received;
    case _ =>
  }

  lemma {:induction false} FlyingPack(senders: map<nat, Sender>, sent: seq<Message>, stamp: nat, i: nat)
    requires InOrder(sent, stamp) && Flying(senders, sent, stamp)
    ensures InOrder(sent, stamp + 1) && Flying(senders[i := Packed(Message(i, stamp))], sent, stamp + 1)
  {
  }

  lemma {:induction false} FlyingCommit(senders: map<nat, Sender>, sent: seq<Message>, stamp: nat, i: nat, m: Message)
    requires InOrder(sent, stamp) && Flying(senders, sent, stamp)
    requires i in senders && m == senders[i].m
    ensures InOrder(sent + [m], stamp) && Flying(senders - {i}, sent + [m], stamp)
  {
    var longer := sent + [m];
    forall k | 0 <= k < |longer| ensures longer[k] == m || (k < |sent| && longer[k] == sent[k]) {}
  }

  lemma {:induction false} FlyingLess(senders: map<nat, Sender>, sent: seq<Message>, stamp: nat, i: nat)
    requires Flying(senders, sent, stamp)
    ensures Flying(senders - {i}, sent, stamp)
  {
  }

  lemma {:induction false} FlyingWaits(senders: map<nat, Sender>, sent: seq<Message>, stamp: nat, i: nat)
    requires Flying(senders, sent, stamp) && i in senders
    ensures Flying(senders[i := Waiting(senders[i].m)], sent, stamp)
  {
  }

  lemma {:induction false} StampedStep(s: System, a: Action)
    requires Stamped(s)
    ensures Stamped(Apply(s, a))
  {
    hide InOrder, Flying;
    if s.t.locked {
    } else if a.Pack? {
      FlyingPack(s.senders, s.sent, s.stamp, a.i);
    } else if (a.Enter? || a.Wake?) && a.i in s.senders {
      FlyingCommit(s.senders, s.sent, s.stamp, a.i, s.senders[a.i].m);
      FlyingLess(s.senders, s.sent, s.stamp, a.i);
      FlyingWaits(s.senders, s.sent, s.stamp, a.i);
    }
  }

  lemma {:induction false} RunKeeps(actions: seq<Action>)
    ensures var s := Run(Start(), actions); Counted(s) && Ordered(s) && Stamped(s)
    decreases |actions|
  {
    if actions != [] {
      var init, a := actions[..|actions| - 1], actions[|actions| - 1];
      RunKeeps(init);
      CountedStep(Run(Start(), init), a);
      OrderedStep(Run(Start(), init), a);
      StampedStep(Run(Start(), init), a);
    }
  }

  // ---------- the record in a run ----------

  /** One action of a run, carried out on the record. */
  method Act(t: TaskRecord, s: System, a: Action) returns (s': System)
    requires t.View() == s.t && Counted(s) && (s.t.full && s.thread ==> s.t.inbox.Some?)
    modifies t
    ensures s' == Apply(s, a) && t.View() == s'.t
  {
    s' := Apply(s, a);
    if s.t.locked { return; }
    match a {
      case Pack(_) =>
      case Enter(i) =>
        if i in s.senders && s.senders[i].Packed? {
          var sent, wait := t.Send(s.senders[i].m);
        }
      case Wake(i) =>
        if i in s.senders && s.senders[i].Waiting? && !t.full { t.Resume(s.senders[i].m); }
      case Receive =>
        if s.thread && !t.done && t.full { var m := t.Receive(); }
      case Encode =>
        if s.handles > 0 { t.AddRef(); }
      case DecodeNew =>
        if s.cells > 0 { t.AddRef(); }
      case DecodeDrop =>
        if s.cells > 0 { var freed := t.DropRef(); }
      case DropHandle =>
        if s.handles > |s.senders| { var freed := t.DropRef(); }
      case FreeCell =>
      case Finish =>
        if s.thread { t.EndThread(); }
      case Fail =>
        if s.thread { var freed := t.DropRef(); }
    }
  }

  /** The record goes through every run as the system says, so what is proved of all runs holds
      of it. */
  method Replay(actions: seq<Action>) returns (t: TaskRecord, s: System)
    ensures s == Run(Start(), actions) && t.View() == s.t
  {
    t := new TaskRecord();
    s := Start();
    var i := 0;
    while i < |actions|
      invariant i <= |actions| && s == Run(Start(), actions[..i]) && t.View() == s.t && fresh(t)
    {
      RunKeeps(actions[..i]);
      assert actions[..i + 1][..i] == actions[..i] && actions[..i + 1][i] == actions[i];
      s := Act(t, s, actions[i]);
      i := i + 1;
    }
    assert actions[..i] == actions;
  }

  /** In every run, what a task has received is the beginning of what was sent, in order, and
      while its thread runs at most the one message in the inbox is missing: none is lost,
      overwritten or duplicated. The flag says whether the inbox holds a message. */
  lemma {:induction false} Delivery(actions: seq<Action>)
    ensures var s := Run(Start(), actions);
      && s.received <= s.sent
      && (s.thread ==> s.sent == s.received + Held(s.t) && (s.t.full <==> s.t.inbox.Some?) && |s.sent| <= |s.received| + 1)
      && (forall j, k :: 0 <= j < k < |s.sent| ==> s.sent[j] != s.sent[k])
  {
    RunKeeps(actions);
  }

  /** In every run, each sender's messages are committed in the order in which it packed them. */
  lemma {:induction false} SenderOrder(actions: seq<Action>, j: nat, k: nat)
    requires var s := Run(Start(), actions); j < k < |s.sent| && s.sent[j].sender == s.sent[k].sender
    ensures Run(Start(), actions).sent[j].stamp < Run(Start(), actions).sent[k].stamp
  {
    RunKeeps(actions);
  }

  /** In every run, while the record is in memory, its count is at least the handles, the encoded
      handles and the thread that may use it; once it is freed there is none of them. Every
      sender at work has a handle. */
  lemma {:induction false} NeverFreedInUse(actions: seq<Action>)
    ensures var s := Run(Start(), actions);
      && |s.senders| <= s.handles
      && (s.t.inMemory ==> s.t.refs >= 1 && s.t.refs >= s.handles + s.cells + if s.thread then 1 else 0)
      && (!s.t.inMemory ==> s.handles == 0 && s.cells == 0 && !s.thread && s.senders == map[])
  {
    RunKeeps(actions);
  }

  /** A message that is still in the inbox when the thread ends is lost, although the flag
      still says that the inbox is full. */
  lemma {:induction false} LostAtTheEnd()
    ensures var s := Run(Start(), [Pack(0), Enter(0), Finish]);
      s.t.full && s.t.inbox == None && |s.sent| == 1 && s.received == []
  {
    var a, b, c := [Pack(0)], [Pack(0), Enter(0)], [Pack(0), Enter(0), Finish];
    assert a[..0] == [] && b[..1] == a && c[..2] == b;
    var m := Message(0, 0);
    var s1 := Run(Start(), a);
    assert s1 == Start().(senders := map[0 := Packed(m)], stamp := 1);
    var s2 := Run(Start(), b);
    assert s2.sent == [m] && s2.t.full && s2.thread;
  }

  // ---------- progress ----------

  lemma {:induction false} RunMore(actions: seq<Action>, a: Action)
    ensures Run(Start(), actions + [a]) == Apply(Run(Start(), actions), a)
  {
    assert (actions + [a])[..|actions|] == actions;
  }

  /** What makes room for the message of sender `i`, sends it and receives it. */
  function Serve(s: System, i: nat): seq<Action>
    requires i in s.senders
  {
    (if s.t.full then [Receive] else []) + [if s.senders[i].Packed? then Enter(i) else Wake(i), Receive]
  }

  lemma {:induction false} MakesRoom(s: System)
    requires s.thread && !s.t.locked && Ordered(s)
    ensures var r := if s.t.full then Apply(s, Receive) else s;
      r.received == s.sent && r.sent == s.sent && r.senders == s.senders && !r.t.full && !r.t.locked && !r.t.done && r.thread
  {
    assert s.received + [] == s.received;
  }

  lemma {:induction false} Delivers(s: System, i: nat)
    requires s.thread && !s.t.locked && !s.t.done && !s.t.full && i in s.senders && s.received == s.sent
    ensures Apply(Apply(s, if s.senders[i].Packed? then Enter(i) else Wake(i)), Receive).received == s.sent + [s.senders[i].m]
  {
  }

  /** While the thread runs and the lock is free, no sender is stuck: at most three actions from
      any state of any run, all that was sent before has been received and its message after it. */
  lemma {:induction false} NobodyStuck(actions: seq<Action>, i: nat)
    requires var s := Run(Start(), actions); s.thread && !s.t.locked && i in s.senders
    ensures var s := Run(Start(), actions); Run(Start(), actions + Serve(s, i)).received == s.sent + [s.senders[i].m]
  {
    hide Counted, Ordered, Stamped, Apply, Run;
    RunKeeps(actions);
    var s := Run(Start(), actions);
    MakesRoom(s);
    var more := if s.t.full then actions + [Receive] else actions;
    RunMore(actions, Receive);
    Delivers(Run(Start(), more), i);
    var send := if s.senders[i].Packed? then Enter(i) else Wake(i);
    RunMore(more, send);
    RunMore(more + [send], Receive);
    assert more + [send] + [Receive] == actions + Serve(s, i);
  }

  // ---------- when the record is freed ----------

  /** Encoded handles that were thrown away with their message, without giving their reference
      back. */
  function Leaked(actions: seq<Action>): nat
    decreases |actions|
  {
    if actions == [] then 0
    else
      var front, a := actions[..|actions| - 1], actions[|actions| - 1];
      Leaked(front) + Leaks(Run(Start(), front), a)
  }

  function Leaks(s: System, a: Action): nat {
    if a.FreeCell? && s.cells > 0 && !s.t.locked then 1 else 0
  }

  ghost predicate ExactlyCounted(s: System, leaked: nat) {
    s.t.refs == s.handles + s.cells + leaked + (if s.thread then 1 else 0) && (s.t.inMemory <==> s.t.refs > 0)
  }

  lemma {:induction false} ExactlyCountedStep(s: System, a: Action, leaked: nat)
    requires ExactlyCounted(s, leaked)
    ensures ExactlyCounted(Apply(s, a), leaked + Leaks(s, a))
  {
  }

  /** In every run the count is exactly the number of handles, of encoded handles, of those that
      leaked and of the thread; the record is freed exactly when there is none. */
  lemma {:induction false} CountExact(actions: seq<Action>)
    ensures var s := Run(Start(), actions);
      s.t.refs == s.handles + s.cells + Leaked(actions) + (if s.thread then 1 else 0) && (s.t.inMemory <==> s.t.refs > 0)
    decreases |actions|
  {
    hide Apply, Leaks;
    if actions != [] {
      var front := actions[..|actions| - 1];
      CountExact(front);
      ExactlyCountedStep(Run(Start(), front), actions[|actions| - 1], Leaked(front));
    }
  }
}
