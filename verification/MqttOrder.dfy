/** In which order the messages reach the message callback. The next read is started before the callback, so a
    second io thread may overtake; a run is followed here with the position of each packet among those received. */
module MqttOrder {
  import opened Bytes
  import opened MqttFraming
  import opened MqttReadPump
  import opened MqttDuties
  import opened MqttRuns

  /** What task `i` has still to do; nothing, if there is no such task. */
  function DutyAt(tasks: seq<Task>, i: nat): Duty {
    if i < |tasks| then StillTo(tasks[i]) else Nothing
  }

  /** Task `i` has a message that it has not delivered. */
  predicate Holds(s: State, i: nat) {
    DutyAt(s.tasks, i).Deliver?
  }

  /** The pump with, for its tasks, where their packets stand in `received`, the positions of the messages
      delivered, in the order of delivery, and whether one has overtaken an earlier one. */
  datatype Tracked = Tracked(pump: State, at: map<nat, nat>, order: seq<nat>, overtook: bool)

  function Position(at: map<nat, nat>, i: nat): nat {
    if i in at then at[i] else 0
  }

  function Actor(a: Action): nat {
    if a.Send? then 0 else a.i
  }

  predicate Delivers(s: State, s': State, i: nat) {
    Holds(s, i) && |s'.done| > |s.done|
  }

  /** An earlier message is held by another task. */
  predicate Overtakes(s: State, at: map<nat, nat>, i: nat) {
    exists j: nat :: j < |s.tasks| && Holds(s, j) && Position(at, j) < Position(at, i)
  }

  function Track(t: Tracked, s': State, i: nat): Tracked {
    var delivers := Delivers(t.pump, s', i);
    Tracked(s', if |s'.received| > |t.pump.received| then t.at[i := |t.pump.received|] else t.at,
            if delivers then t.order + [Position(t.at, i)] else t.order,
            t.overtook || (delivers && Overtakes(t.pump, t.at, i)))
  }

  function TrackNext(t: Tracked, a: Action): Tracked {
    Track(t, Next(t.pump, a), Actor(a))
  }

  function TrackRun(t: Tracked, actions: seq<Action>): Tracked
    decreases actions
  {
    if actions == [] then t else TrackRun(TrackNext(t, actions[0]), actions[1..])
  }

  function Start(connect: seq<byte>): Tracked {
    Tracked(Init(connect), map[], [], false)
  }

  /** Following a run does not change it. */
  lemma {:induction false} TrackedIsRun(t: Tracked, actions: seq<Action>)
    ensures TrackRun(t, actions).pump == Run(t.pump, actions)
    decreases actions
  {
    hide Next;
    if actions != [] {
      TrackedIsRun(TrackNext(t, actions[0]), actions[1..]);
    }
  }

  // ---- what a step does to the duties

  /** Only task `i` takes up a duty, or does one; any other keeps what it has. */
  ghost predicate Moved(s: State, s': State, i: nat) {
    && (forall j: nat :: j != i ==> DutyAt(s'.tasks, j) == DutyAt(s.tasks, j))
    && (|| (s'.received == s.received && s'.done == s.done && DutyAt(s'.tasks, i) == DutyAt(s.tasks, i))
        || (|s'.received| == |s.received| + 1 && s'.received[..|s.received|] == s.received && s'.done == s.done
            && DutyAt(s.tasks, i) == Nothing && DutyAt(s'.tasks, i) == DutyOf(s'.received[|s.received|]))
        || (s'.received == s.received && s'.done == s.done + [DutyAt(s.tasks, i)] && DutyAt(s'.tasks, i) == Nothing))
  }

  lemma EffectMoves(s: State, i: nat, e: Effect, input: seq<byte>)
    requires i < |s.tasks| && Dutiful(s, i, e)
    ensures Moved(s, Apply(s, i, e).(input := input), i)
  {
    hide StillTo, DutyOf;
  }

  lemma NextMoves(s: State, a: Action)
    requires Inv(s)
    ensures Moved(s, Next(s, a), Actor(a))
  {
    hide Inv, Dutiful, StillTo, DutyOf, Apply;
    if a.Send? {
      NoDuty(s.unused, a.bytes);
    } else {
      SomeEffect(s, a);
    }
  }

  lemma NoDuty(b: nat, bytes: seq<byte>)
    ensures StillTo(Writing(b, bytes)) == Nothing
  {
  }

  lemma SomeEffect(s: State, a: Action)
    requires Inv(s) && !a.Send?
    ensures Moved(s, Next(s, a), a.i)
  {
    hide Inv, Dutiful, StillTo, DutyOf, Apply, Next;
    NextSteps(s, a);
    if Next(s, a) != s {
      var e: Effect :| Dutiful(s, a.i, e) && Next(s, a) == Apply(s, a.i, e).(input := Next(s, a).input);
      EffectMoves(s, a.i, e, Next(s, a).input);
    }
  }

  // ---- positions

  predicate IsMessage(received: seq<seq<byte>>, p: nat) {
    p < |received| && DutyOf(received[p]).Deliver?
  }

  /** A task's position is that of the message it holds. */
  ghost predicate Placed(t: Tracked) {
    forall i: nat :: Holds(t.pump, i) ==>
      && IsMessage(t.pump.received, Position(t.at, i))
      && DutyAt(t.pump.tasks, i) == DutyOf(t.pump.received[Position(t.at, i)])
  }

  /** No two tasks hold the same message, and none holds one that has been delivered. */
  ghost predicate Apart(t: Tracked) {
    && (forall i: nat, j: nat :: i != j && Holds(t.pump, i) && Holds(t.pump, j) ==>
          Position(t.at, i) != Position(t.at, j))
    && (forall i: nat :: Holds(t.pump, i) ==> Position(t.at, i) !in t.order)
    && (forall k, l :: 0 <= k < l < |t.order| ==> t.order[k] != t.order[l])
  }

  ghost predicate Held(t: Tracked, p: nat) {
    exists i: nat :: Holds(t.pump, i) && Position(t.at, i) == p
  }

  /** Every message has been delivered or is held. */
  ghost predicate Complete(t: Tracked) {
    forall p: nat :: IsMessage(t.pump.received, p) ==> p in t.order || Held(t, p)
  }

  /** The messages delivered are those at the positions noted. */
  ghost predicate Noted(t: Tracked) {
    && |Messages(t.pump.done)| == |t.order|
    && forall k :: 0 <= k < |t.order| ==>
         IsMessage(t.pump.received, t.order[k]) && Messages(t.pump.done)[k] == t.pump.received[t.order[k]]
  }

  /** Before each message delivered all earlier ones have been. */
  ghost predicate InOrder(t: Tracked) {
    forall k, p: nat :: 0 <= k < |t.order| && p < t.order[k] && IsMessage(t.pump.received, p) ==> p in t.order[..k]
  }

  ghost predicate Followed(t: Tracked) {
    Inv(t.pump) && Placed(t) && Apart(t) && Complete(t) && Noted(t) && (InOrder(t) <==> !t.overtook)
  }

  // ---- one step

  /** What has been received stays where it is. */
  lemma StillMessage(s: State, s': State, i: nat, p: nat)
    requires Moved(s, s', i)
    ensures |s.received| <= |s'.received|
    ensures p < |s.received| ==>
      s'.received[p] == s.received[p] && IsMessage(s'.received, p) == IsMessage(s.received, p)
    ensures IsMessage(s'.received, p) && p >= |s.received| ==>
      p == |s.received| && DutyAt(s'.tasks, i) == DutyOf(s'.received[p]) && DutyAt(s.tasks, i) == Nothing
  {
    hide DutyAt, DutyOf;
    assert p < |s.received| <= |s'.received| ==> s'.received[..|s.received|][p] == s'.received[p];
  }

  lemma PlacedKept(t: Tracked, s': State, i: nat)
    requires Placed(t) && Moved(t.pump, s', i)
    ensures Placed(Track(t, s', i))
  {
    hide DutyAt, DutyOf, Overtakes, Delivers;
    var t' := Track(t, s', i);
    forall j: nat | Holds(s', j)
      ensures IsMessage(s'.received, Position(t'.at, j))
      ensures DutyAt(s'.tasks, j) == DutyOf(s'.received[Position(t'.at, j)])
    {
      if Holds(t.pump, j) {
        StillMessage(t.pump, s', i, Position(t.at, j));
      }
    }
  }

  lemma ApartKept(t: Tracked, s': State, i: nat)
    requires Placed(t) && Apart(t) && Noted(t) && Moved(t.pump, s', i)
    ensures Apart(Track(t, s', i))
  {
    hide DutyAt, DutyOf, Overtakes, Messages;
    var t' := Track(t, s', i);
  }

  lemma CompleteKept(t: Tracked, s': State, i: nat)
    requires Placed(t) && Complete(t) && Moved(t.pump, s', i)
    ensures Complete(Track(t, s', i))
  {
    hide DutyAt, DutyOf, Overtakes;
    var t' := Track(t, s', i);
    forall p: nat | IsMessage(s'.received, p)
      ensures p in t'.order || Held(t', p)
    {
      StillMessage(t.pump, s', i, p);
      if p >= |t.pump.received| {
        assert Holds(s', i) && Position(t'.at, i) == p;
      } else if p !in t.order {
        var j: nat :| Holds(t.pump, j) && Position(t.at, j) == p;
        assert Holds(s', j) || p in t'.order;
      }
    }
  }

  lemma {:induction false} MessagesConcat(p: seq<Duty>, q: seq<Duty>)
    ensures Messages(p + q) == Messages(p) + Messages(q)
  {
    if p == [] {
      assert p + q == q;
    } else {
      assert (p + q)[1..] == p[1..] + q;
      MessagesConcat(p[1..], q);
    }
  }

  lemma MessagesOne(d: Duty)
    ensures Messages([d]) == if d.Deliver? then [d.m] else []
  {
    assert [d][1..] == [];
  }

  lemma DutyHasMessage(m: seq<byte>)
    requires DutyOf(m).Deliver?
    ensures DutyOf(m) == Deliver(m)
  {
    hide BodyOffset;
  }

  lemma NotedKept(t: Tracked, s': State, i: nat)
    requires Placed(t) && Noted(t) && Moved(t.pump, s', i)
    ensures Noted(Track(t, s', i))
  {
    hide DutyAt, DutyOf, Overtakes, Messages;
    var t' := Track(t, s', i);
    var d := DutyAt(t.pump.tasks, i);
    MessagesConcat(t.pump.done, [d]);
    MessagesOne(d);
    if Holds(t.pump, i) {
      DutyHasMessage(t.pump.received[Position(t.at, i)]);
    }
    forall k | 0 <= k < |t.order|
      ensures IsMessage(s'.received, t.order[k]) && s'.received[t.order[k]] == t.pump.received[t.order[k]]
    {
      StillMessage(t.pump, s', i, t.order[k]);
    }
  }

  /** Every message before position `x` has been delivered. */
  ghost predicate AllBefore(t: Tracked, x: nat) {
    forall p: nat :: p < x && IsMessage(t.pump.received, p) ==> p in t.order
  }

  lemma OvertakesIff(t: Tracked, i: nat)
    requires Placed(t) && Apart(t) && Complete(t)
    ensures AllBefore(t, Position(t.at, i)) <==> !Overtakes(t.pump, t.at, i)
  {
    hide IsMessage, StillTo, Position;
    var x := Position(t.at, i);
    if p: nat :| p < x && IsMessage(t.pump.received, p) && p !in t.order {
      var j: nat :| Holds(t.pump, j) && Position(t.at, j) == p;
      assert j < |t.pump.tasks|;
    }
  }

  lemma InOrderAppended(t: Tracked, t': Tracked, x: nat)
    requires t'.order == t.order + [x] && t'.pump.received == t.pump.received
    ensures InOrder(t') <==> InOrder(t) && AllBefore(t, x)
  {
    hide IsMessage;
    var n := |t.order|;
    forall k | 0 <= k < n
      ensures t'.order[k] == t.order[k] && t'.order[..k] == t.order[..k]
    {
    }
    assert t'.order[..n] == t.order && t'.order[n] == x;
    if InOrder(t') {
      forall k, p: nat | 0 <= k < n && p < t.order[k] && IsMessage(t.pump.received, p)
        ensures p in t.order[..k]
      {
        assert p in t'.order[..k];
      }
    }
  }

  lemma InOrderKept(t: Tracked, s': State, i: nat)
    requires Noted(t) && Moved(t.pump, s', i) && !Delivers(t.pump, s', i)
    ensures InOrder(Track(t, s', i)) <==> InOrder(t)
  {
    hide Moved, Delivers, Messages, Overtakes;
    forall k, p: nat | 0 <= k < |t.order| && p < t.order[k]
      ensures IsMessage(s'.received, p) == IsMessage(t.pump.received, p)
    {
      StillMessage(t.pump, s', i, p);
    }
  }

  /** A step keeps the order exactly if it does not deliver past a message held. */
  lemma OrderKeptIff(t: Tracked, s': State, i: nat)
    requires Placed(t) && Apart(t) && Complete(t) && Noted(t) && Moved(t.pump, s', i)
    requires InOrder(t) <==> !t.overtook
    ensures var t' := Track(t, s', i); InOrder(t') <==> !t'.overtook
  {
    hide Placed, Apart, Complete, Noted, InOrder, AllBefore, Overtakes, DutyAt;
    var t' := Track(t, s', i);
    if Delivers(t.pump, s', i) {
      OvertakesIff(t, i);
      InOrderAppended(t, t', Position(t.at, i));
    } else {
      InOrderKept(t, s', i);
    }
  }

  lemma TrackNextFollowed(t: Tracked, a: Action)
    requires Followed(t)
    ensures Followed(TrackNext(t, a))
  {
    hide Inv, Next, Placed, Apart, Complete, Noted, InOrder, Track, Moved;
    var s' := Next(t.pump, a);
    NextKeeps(t.pump, a);
    NextMoves(t.pump, a);
    PlacedKept(t, s', Actor(a));
    ApartKept(t, s', Actor(a));
    CompleteKept(t, s', Actor(a));
    NotedKept(t, s', Actor(a));
    OrderKeptIff(t, s', Actor(a));
    TracksPump(t, s', Actor(a));
  }

  lemma TracksPump(t: Tracked, s': State, i: nat)
    ensures Track(t, s', i).pump == s'
  {
  }

  lemma {:induction false} TrackRunFollowed(t: Tracked, actions: seq<Action>)
    requires Followed(t)
    ensures Followed(TrackRun(t, actions))
    decreases actions
  {
    hide Followed, TrackNext;
    if actions != [] {
      TrackNextFollowed(t, actions[0]);
      TrackRunFollowed(TrackNext(t, actions[0]), actions[1..]);
    }
  }

  lemma StartFollowed(connect: seq<byte>)
    ensures Followed(Start(connect))
  {
    hide Inv;
    InitInv(connect);
  }

  // ---- the order of delivery

  /** The positions of the PUBLISH packets received, rising. */
  function MessagesAt(received: seq<seq<byte>>): seq<nat> {
    if received == [] then []
    else MessagesAt(received[..|received| - 1])
         + if IsMessage(received, |received| - 1) then [|received| - 1] else []
  }

  lemma {:induction false} MessagesAtRise(received: seq<seq<byte>>)
    ensures forall k :: 0 <= k < |MessagesAt(received)| ==> IsMessage(received, MessagesAt(received)[k])
    ensures forall k, l :: 0 <= k < l < |MessagesAt(received)| ==> MessagesAt(received)[k] < MessagesAt(received)[l]
    ensures forall p: nat :: IsMessage(received, p) ==> p in MessagesAt(received)
  {
    hide DutyOf;
    if received != [] {
      var before := received[..|received| - 1];
      MessagesAtRise(before);
      forall p: nat | p < |before|
        ensures IsMessage(before, p) == IsMessage(received, p)
      {
      }
    }
  }

  lemma {:induction false} MessagesAre(received: seq<seq<byte>>)
    ensures |Messages(Duties(received))| == |MessagesAt(received)|
    ensures forall k :: 0 <= k < |MessagesAt(received)| ==>
      MessagesAt(received)[k] < |received| && Messages(Duties(received))[k] == received[MessagesAt(received)[k]]
  {
    hide DutyOf, Messages, Duties;
    if received == [] {
      assert Messages(Duties([])) == [] by {
        DutiesOne([]);
        NoMessages();
      }
    } else {
      var n := |received| - 1;
      var before, d := received[..n], DutyOf(received[n]);
      assert received == before + [received[n]];
      MessagesAre(before);
      DutiesConcat(before, [received[n]]);
      DutiesOne(received[n]);
      MessagesConcat(Duties(before), [d]);
      MessagesOne(d);
      if d.Deliver? {
        DutyHasMessage(received[n]);
      }
    }
  }

  lemma NoMessages()
    ensures Messages([]) == []
  {
  }

  lemma PrefixInOrder(t: Tracked)
    requires t.order <= MessagesAt(t.pump.received)
    ensures InOrder(t)
  {
    hide IsMessage, MessagesAt;
    var all := MessagesAt(t.pump.received);
    MessagesAtRise(t.pump.received);
    forall k, p: nat | 0 <= k < |t.order| && p < t.order[k] && IsMessage(t.pump.received, p)
      ensures p in t.order[..k]
    {
      var l :| 0 <= l < |all| && all[l] == p;
      assert l < k && t.order[..k][l] == p;
    }
  }

  /** The next of the rising `all` behind a prefix `done` of it is the one before which all is in `done`. */
  lemma NextOfRising(all: seq<nat>, done: seq<nat>, l: nat)
    requires forall k, l :: 0 <= k < l < |all| ==> all[k] < all[l]
    requires l < |all| && done <= all && all[l] !in done
    requires forall p: nat :: p in all && p < all[l] ==> p in done
    ensures done + [all[l]] <= all
  {
    var n := |done|;
    assert forall k :: 0 <= k < n ==> done[k] == all[k];
    assert l >= n && all[n] in all;
    assert all[n] !in done;
  }

  lemma {:induction false} InOrderPrefix(t: Tracked, n: nat)
    requires InOrder(t) && Apart(t) && Noted(t) && n <= |t.order|
    ensures t.order[..n] <= MessagesAt(t.pump.received)
  {
    hide IsMessage, MessagesAt, Messages, Apart, InOrder, Noted;
    if n > 0 {
      InOrderPrefix(t, n - 1);
      var l := InOrderNext(t, n - 1);
      NextOfRising(MessagesAt(t.pump.received), t.order[..n - 1], l);
      assert t.order[..n] == t.order[..n - 1] + [t.order[n - 1]];
    }
  }

  lemma InOrderNext(t: Tracked, k: nat) returns (l: nat)
    requires InOrder(t) && Apart(t) && Noted(t) && k < |t.order|
    ensures var all := MessagesAt(t.pump.received);
      && l < |all| && all[l] == t.order[k] && t.order[k] !in t.order[..k]
      && (forall k, l :: 0 <= k < l < |all| ==> all[k] < all[l])
      && forall p: nat :: p in all && p < all[l] ==> p in t.order[..k]
  {
    hide IsMessage, MessagesAt, Messages;
    var all := MessagesAt(t.pump.received);
    MessagesAtRise(t.pump.received);
    assert IsMessage(t.pump.received, t.order[k]) && t.order[k] in all;
    l :| 0 <= l < |all| && all[l] == t.order[k];
  }

  /** Over all runs: the messages delivered are the first ones received, in their order, if and only if no delivery
      has overtaken an earlier message still held. */
  lemma DeliveredInOrderIff(connect: seq<byte>, actions: seq<Action>)
    ensures var t := TrackRun(Start(connect), actions); var s := Run(Init(connect), actions);
      && t.pump == s && |Messages(s.done)| == |t.order|
      && (forall k :: 0 <= k < |t.order| ==> t.order[k] < |s.received| && Messages(s.done)[k] == s.received[t.order[k]])
      && (t.order <= MessagesAt(s.received) <==> !t.overtook)
      && (!t.overtook ==> Messages(s.done) <= Messages(Duties(s.received)))
  {
    hide Run, Init, TrackRun, MessagesAt, Messages, Duties, Inv, Placed, Complete;
    var t := TrackRun(Start(connect), actions);
    TrackedIsRun(Start(connect), actions);
    StartFollowed(connect);
    TrackRunFollowed(Start(connect), actions);
    if t.order <= MessagesAt(t.pump.received) {
      PrefixInOrder(t);
    }
    if !t.overtook {
      InOrderPrefix(t, |t.order|);
      assert t.order[..|t.order|] == t.order;
      MessagesAre(t.pump.received);
    }
  }

  // ---- when that is certain

  /** At most one message is under way to the callback. */
  ghost predicate Alone(s: State) {
    forall i: nat, j: nat :: Holds(s, i) && Holds(s, j) ==> i == j
  }

  ghost predicate AlwaysAlone(s: State, actions: seq<Action>)
    decreases actions
  {
    Alone(s) && (actions == [] || AlwaysAlone(Next(s, actions[0]), actions[1..]))
  }

  lemma AloneStep(t: Tracked, a: Action)
    requires Alone(t.pump) && !t.overtook
    ensures !TrackNext(t, a).overtook
  {
    hide Next, Holds;
    var s, i := t.pump, Actor(a);
    if Holds(s, i) {
      forall j: nat | Holds(s, j)
        ensures j == i
      {
      }
    }
  }

  lemma {:induction false} AloneRun(t: Tracked, actions: seq<Action>)
    requires AlwaysAlone(t.pump, actions) && !t.overtook
    ensures !TrackRun(t, actions).overtook
    decreases actions
  {
    hide Next, Alone;
    if actions != [] {
      AloneStep(t, actions[0]);
      AloneRun(TrackNext(t, actions[0]), actions[1..]);
    }
  }

  /** The messages on their way. */
  function HeldMessages(tasks: seq<Task>): seq<seq<byte>> {
    if tasks == [] then []
    else (if StillTo(tasks[0]).Deliver? then [StillTo(tasks[0]).m] else []) + HeldMessages(tasks[1..])
  }

  lemma {:induction false} CountHeld(tasks: seq<Task>, m: seq<byte>)
    ensures Times(HeldMessages(tasks), m) == Pending(tasks, Deliver(m))
  {
    hide Times, StillTo;
    if tasks == [] {
      TimesNone(m);
    } else {
      CountHeld(tasks[1..], m);
      if StillTo(tasks[0]).Deliver? {
        TimesConcat([StillTo(tasks[0]).m], HeldMessages(tasks[1..]), m);
        TimesOne(StillTo(tasks[0]).m, m);
      } else {
        assert HeldMessages(tasks) == HeldMessages(tasks[1..]);
      }
    }
  }

  lemma {:induction false} AtMostOneHeld(tasks: seq<Task>)
    requires forall i, j :: 0 <= i < j < |tasks| ==> !(StillTo(tasks[i]).Deliver? && StillTo(tasks[j]).Deliver?)
    ensures |HeldMessages(tasks)| <= 1
    ensures (forall i :: 0 <= i < |tasks| ==> !StillTo(tasks[i]).Deliver?) ==> HeldMessages(tasks) == []
  {
    hide StillTo;
    if tasks != [] {
      var rest := tasks[1..];
      assert forall i :: 0 <= i < |rest| ==> rest[i] == tasks[i + 1];
      AtMostOneHeld(rest);
    }
  }

  lemma {:induction false} AlwaysAloneEnds(s: State, actions: seq<Action>)
    requires AlwaysAlone(s, actions)
    ensures Alone(Run(s, actions))
    decreases actions
  {
    hide Next, Alone;
    if actions != [] {
      AlwaysAloneEnds(Next(s, actions[0]), actions[1..]);
    }
  }

  /** In a run in whose every state at most one message is on its way to the callback, those delivered and the one on
      its way are the messages received, in their order. */
  lemma AloneKeepsOrder(connect: seq<byte>, actions: seq<Action>)
    requires AlwaysAlone(Init(connect), actions)
    ensures var s := Run(Init(connect), actions);
      Messages(s.done) + HeldMessages(s.tasks) == Messages(Duties(s.received))
  {
    hide AlwaysAlone, Run, TrackRun, Init, Messages, Duties, MessagesAt, HeldMessages, Alone, Times;
    AloneRun(Start(connect), actions);
    DeliveredInOrderIff(connect, actions);
    AlwaysAloneEnds(Init(connect), actions);
    var s := Run(Init(connect), actions);
    AloneHoldsOne(s);
    var all, held := Messages(Duties(s.received)), HeldMessages(s.tasks);
    var rest := all[|Messages(s.done)|..];
    assert all == Messages(s.done) + rest;
    forall m: seq<byte>
      ensures Times(rest, m) == Times(held, m)
    {
      EveryDutyOnce(connect, actions, Deliver(m));
      CountMessages(s.done, m);
      CountMessages(Duties(s.received), m);
      CountHeld(s.tasks, m);
      TimesConcat(Messages(s.done), rest, m);
    }
    SameIfOne(rest, held);
  }

  lemma AloneHoldsOne(s: State)
    requires Alone(s)
    ensures |HeldMessages(s.tasks)| <= 1
  {
    hide HeldMessages, StillTo;
    forall i, j | 0 <= i < j < |s.tasks|
      ensures !(StillTo(s.tasks[i]).Deliver? && StillTo(s.tasks[j]).Deliver?)
    {
      assert Holds(s, i) && Holds(s, j) ==> i == j;
    }
    AtMostOneHeld(s.tasks);
  }

  lemma SameIfOne<T(!new)>(p: seq<T>, q: seq<T>)
    requires |q| <= 1 && forall x: T :: Times(p, x) == Times(q, x)
    ensures p == q
  {
    forall x: T
      ensures multiset(p)[x] == multiset(q)[x]
    {
      assert Times(p, x) == Times(q, x);
    }
    assert multiset(p) == multiset(q);
    assert |p| == |multiset(p)| == |multiset(q)| == |q|;
    if |q| == 1 {
      assert q[0] in multiset(p);
    }
  }

  /** A completion handler is under way. */
  predicate InHandler(t: Task) {
    t.Handling? || t.Ending?
  }

  /** One io thread, or a strand: no read completes into its handler while another handler is under way. */
  ghost predicate OneThread(s: State, actions: seq<Action>)
    decreases actions
  {
    actions == []
    || ((actions[0].Arrive? ==> forall t :: t in s.tasks ==> !InHandler(t))
        && OneThread(Next(s, actions[0]), actions[1..]))
  }

  ghost predicate OneHandler(s: State) {
    forall i, j :: 0 <= i < j < |s.tasks| ==> !(InHandler(s.tasks[i]) && InHandler(s.tasks[j]))
  }

  lemma OneHandlerKept(s: State, a: Action)
    requires OneHandler(s) && (a.Arrive? ==> forall t :: t in s.tasks ==> !InHandler(t))
    ensures OneHandler(Next(s, a))
  {
    hide MessageType, IdAt, IsAck, TakenAsAccepted, Value, More, Reply;
  }

  lemma OneHandlerAlone(s: State)
    requires OneHandler(s)
    ensures Alone(s)
  {
    hide DutyOf;
    forall i: nat, j: nat | Holds(s, i) && Holds(s, j)
      ensures i == j
    {
      assert InHandler(s.tasks[i]) && InHandler(s.tasks[j]);
    }
  }

  lemma {:induction false} OneThreadAlone(s: State, actions: seq<Action>)
    requires OneHandler(s) && OneThread(s, actions)
    ensures AlwaysAlone(s, actions)
    decreases actions
  {
    hide Next, Alone, OneHandler, InHandler;
    OneHandlerAlone(s);
    if actions != [] {
      OneHandlerKept(s, actions[0]);
      OneThreadAlone(Next(s, actions[0]), actions[1..]);
    }
  }

  /** With one io thread or a strand the messages are delivered in the order they came. */
  lemma OneThreadKeepsOrder(connect: seq<byte>, actions: seq<Action>)
    requires OneThread(Init(connect), actions)
    ensures var s := Run(Init(connect), actions);
      Messages(s.done) + HeldMessages(s.tasks) == Messages(Duties(s.received))
  {
    hide OneThread, AlwaysAlone, Run, Messages, Duties, HeldMessages;
    OneThreadAlone(Init(connect), actions);
    AloneKeepsOrder(connect, actions);
  }

  // ---- and when it is not

  /** The steps after which the handler of a message has called the callback. */
  function Goes(s: State, i: nat): seq<Action>
    requires i < |s.tasks|
  {
    if s.tasks[i].Handling? && s.tasks[i].pc.Dispatch? then [Go(i), Go(i)] else [Go(i)]
  }

  /** Task `i` has delivered `d`, and for the others nothing has changed. */
  ghost predicate HasDelivered(s: State, s': State, i: nat, d: Duty) {
    && s'.done == s.done + [d] && s'.received == s.received && |s.tasks| <= |s'.tasks|
    && forall j :: 0 <= j < |s.tasks| && j != i ==> s'.tasks[j] == s.tasks[j]
  }

  lemma HolderBuffer(s: State, i: nat)
    requires Inv(s) && Holds(s, i)
    ensures i < |s.tasks| && s.tasks[i].Handling? && (s.tasks[i].pc.Dispatch? || s.tasks[i].pc.Parse?)
    ensures var t := s.tasks[i];
      && t.buf in s.mem && s.mem[t.buf] == t.seen != [] && MessageType(t.seen[0]) == 3
      && StillTo(t) == Deliver(t.seen)
  {
    hide Inv, Whole, MessageType, IdAt, BodyOffset;
    ItsIntact(s, i);
  }

  lemma DispatchGoes(s: State, i: nat)
    requires Inv(s) && Holds(s, i) && s.tasks[i].Handling? && s.tasks[i].pc.Dispatch?
    ensures var s' := Next(s, Go(i)); var t := s.tasks[i];
      && i < |s.tasks| <= |s'.tasks| && s'.done == s.done && s'.received == s.received
      && s'.tasks[i] == t.(pc := Parse(t.pc.lengthOffset)) && DutyAt(s'.tasks, i) == DutyAt(s.tasks, i)
      && forall j :: 0 <= j < |s.tasks| && j != i ==> s'.tasks[j] == s.tasks[j]
  {
    hide Inv, MessageType, BodyOffset, IdAt;
    HolderBuffer(s, i);
  }

  lemma ParseGoes(s: State, i: nat)
    requires Inv(s) && Holds(s, i) && s.tasks[i].Handling? && s.tasks[i].pc.Parse?
    ensures HasDelivered(s, Next(s, Go(i)), i, DutyAt(s.tasks, i))
  {
    hide Inv, MessageType, BodyOffset, IdAt, Reply;
    HolderBuffer(s, i);
  }

  lemma GoesDeliver(s: State, i: nat)
    requires Inv(s) && Holds(s, i)
    ensures i < |s.tasks| && HasDelivered(s, Run(s, Goes(s, i)), i, DutyAt(s.tasks, i))
    ensures Inv(Run(s, Goes(s, i)))
  {
    hide Inv, Next, StillTo;
    HolderBuffer(s, i);
    RunKeeps(s, Goes(s, i));
    var s1 := Next(s, Go(i));
    if s.tasks[i].pc.Dispatch? {
      DispatchGoes(s, i);
      NextKeeps(s, Go(i));
      ParseGoes(s1, i);
      TwoSteps(s, Go(i), Go(i));
    } else {
      ParseGoes(s, i);
      RunsOn(s, Go(i), []);
      assert [Go(i)] + [] == [Go(i)];
    }
  }

  /** From every reachable state in which two tasks hold a message, either can be delivered first, by steps of
      their handlers alone. */
  lemma EitherOrder(connect: seq<byte>, actions: seq<Action>, i: nat, j: nat)
    requires var s := Run(Init(connect), actions); i != j && Holds(s, i) && Holds(s, j)
    ensures var s := Run(Init(connect), actions);
      && i < |s.tasks| && j < |s.tasks|
      && var s' := Run(s, Goes(s, i) + Goes(s, j));
      s'.received == s.received && s'.done == s.done + [DutyAt(s.tasks, i), DutyAt(s.tasks, j)]
  {
    hide Inv, Run, Init, StillTo;
    var s := Run(Init(connect), actions);
    Reachable(connect, actions);
    GoesDeliver(s, i);
    var s1 := Run(s, Goes(s, i));
    HolderBuffer(s, j);
    GoesDeliver(s1, j);
    RunConcat(s, Goes(s, i), Goes(s, j));
    assert s.done + [DutyAt(s.tasks, i)] + [DutyAt(s.tasks, j)] == s.done + [DutyAt(s.tasks, i), DutyAt(s.tasks, j)];
  }

  /** Such a state is reached: two messages received one after the other, delivered in the other order. */
  lemma OrderNotKept(connect: seq<byte>, c: byte, d: byte)
    ensures var s := Run(Init(connect), ReadsPublish(0, c) + ReadsPublish(1, d) + ([Go(1)] + [Go(0)]));
      && s.received == [PublishOf(c), PublishOf(d)]
      && s.done == [Deliver(PublishOf(d)), Deliver(PublishOf(c))]
  {
    hide Run, PublishOf, ReadsPublish, StillTo;
    var first, actions := ReadsPublish(0, c), ReadsPublish(0, c) + ReadsPublish(1, d);
    PublishRead(Init(connect), 0, c);
    PublishRead(Run(Init(connect), first), 1, d);
    RunConcat(Init(connect), first, ReadsPublish(1, d));
    var s := Run(Init(connect), actions);
    HoldsPublish(s, 0, c);
    HoldsPublish(s, 1, d);
    EitherOrder(connect, actions, 1, 0);
    RunConcat(Init(connect), actions, [Go(1)] + [Go(0)]);
    assert s.received == [] + [PublishOf(c)] + [PublishOf(d)];
    assert s.done + [Deliver(PublishOf(d)), Deliver(PublishOf(c))] == [Deliver(PublishOf(d)), Deliver(PublishOf(c))];
  }

  lemma HoldsPublish(s: State, i: nat, c: byte)
    requires i < |s.tasks| && s.tasks[i].Handling? && s.tasks[i].pc.Parse? && s.tasks[i].seen == PublishOf(c)
    ensures Holds(s, i) && DutyAt(s.tasks, i) == Deliver(PublishOf(c)) && Goes(s, i) == [Go(i)]
  {
    hide DutyOf, PublishOf;
    PublishFacts(c);
  }

  lemma AloneKept(s: State, a: Action)
    requires Inv(s) && Alone(s)
    ensures |Next(s, a).received| >= |s.received|
    ensures |Next(s, a).received| == |s.received| ==> Alone(Next(s, a))
  {
    hide Inv, Next, DutyAt;
    NextMoves(s, a);
    if |Next(s, a).received| == |s.received| {
      forall i: nat | Holds(Next(s, a), i)
        ensures Holds(s, i)
      {
      }
    }
  }

  lemma ReceivedGrows(s: State, a: Action)
    requires Inv(s)
    ensures |Next(s, a).received| >= |s.received|
  {
    hide Inv, Next, DutyAt;
    NextMoves(s, a);
  }

  lemma {:induction false} ReceivedOnlyGrows(s: State, actions: seq<Action>)
    requires Inv(s)
    ensures |Run(s, actions).received| >= |s.received|
    decreases actions
  {
    hide Inv, Next;
    if actions != [] {
      ReceivedGrows(s, actions[0]);
      NextKeeps(s, actions[0]);
      ReceivedOnlyGrows(Next(s, actions[0]), actions[1..]);
    }
  }

  /** As long as no further packet comes, a message on its way alone cannot overtake. */
  lemma {:induction false} AloneTillNext(t: Tracked, more: seq<Action>)
    requires Inv(t.pump) && Alone(t.pump) && !t.overtook
    requires |TrackRun(t, more).pump.received| == |t.pump.received|
    ensures !TrackRun(t, more).overtook
    decreases more
  {
    hide Inv, Next, Alone;
    if more != [] {
      var t' := TrackNext(t, more[0]);
      NextKeeps(t.pump, more[0]);
      TrackedIsRun(t', more[1..]);
      ReceivedOnlyGrows(t'.pump, more[1..]);
      AloneKept(t.pump, more[0]);
      AloneStep(t, more[0]);
      AloneTillNext(t', more[1..]);
    }
  }

  /** The later of two messages held can overtake. */
  lemma LaterOvertakes(t: Tracked, i: nat, j: nat)
    requires Inv(t.pump) && Holds(t.pump, i) && Holds(t.pump, j) && Position(t.at, j) < Position(t.at, i)
    ensures i < |t.pump.tasks| && var t' := TrackRun(t, Goes(t.pump, i));
      t'.overtook && t'.pump.received == t.pump.received
  {
    hide Inv, Next, StillTo;
    var s := t.pump;
    HolderBuffer(s, i);
    var t1 := TrackNext(t, Go(i));
    if s.tasks[i].pc.Dispatch? {
      DispatchGoes(s, i);
      NextKeeps(s, Go(i));
      assert DutyAt(t1.pump.tasks, j) == DutyAt(s.tasks, j);
      ParseGoes(t1.pump, i);
      LaterDelivered(t1, i, j);
      assert [Go(i), Go(i)][1..] == [Go(i)];
      TrackOne(t1, Go(i));
    } else {
      ParseGoes(s, i);
      LaterDelivered(t, i, j);
      TrackOne(t, Go(i));
    }
  }

  lemma TrackOne(t: Tracked, a: Action)
    ensures TrackRun(t, [a]) == TrackNext(t, a)
  {
    hide TrackNext;
    assert [a][1..] == [];
  }

  lemma LaterDelivered(t: Tracked, i: nat, j: nat)
    requires Holds(t.pump, i) && Holds(t.pump, j) && Position(t.at, j) < Position(t.at, i)
    requires HasDelivered(t.pump, Next(t.pump, Go(i)), i, DutyAt(t.pump.tasks, i))
    ensures TrackNext(t, Go(i)).overtook
  {
    hide Next, StillTo;
    assert j < |t.pump.tasks|;
  }

  /** In a reachable state that has kept the order, some steps without a further packet break it if and only if two
      messages are on their way at once. */
  lemma MayOvertakeIff(connect: seq<byte>, actions: seq<Action>)
    requires !TrackRun(Start(connect), actions).overtook
    ensures var t := TrackRun(Start(connect), actions);
      (exists more :: TrackRun(t, more).overtook && |TrackRun(t, more).pump.received| == |t.pump.received|)
      <==> !Alone(t.pump)
  {
    hide TrackRun, Inv, Holds, Placed, Complete, Noted, InOrder;
    var t := TrackRun(Start(connect), actions);
    StartFollowed(connect);
    TrackRunFollowed(Start(connect), actions);
    if !Alone(t.pump) {
      var i: nat, j: nat :| Holds(t.pump, i) && Holds(t.pump, j) && i != j;
      if Position(t.at, j) < Position(t.at, i) {
        LaterOvertakes(t, i, j);
      } else {
        LaterOvertakes(t, j, i);
      }
    } else {
      forall more: seq<Action> | |TrackRun(t, more).pump.received| == |t.pump.received|
        ensures !TrackRun(t, more).overtook
      {
        AloneTillNext(t, more);
      }
    }
  }

  /** Once nothing is held, all messages received have been delivered, in their order exactly if none overtook. */
  lemma AllInOrderIff(connect: seq<byte>, actions: seq<Action>)
    requires forall i: nat :: !Holds(Run(Init(connect), actions), i)
    ensures var t := TrackRun(Start(connect), actions); var s := Run(Init(connect), actions);
      && (t.order == MessagesAt(s.received) <==> !t.overtook)
      && (!t.overtook ==> Messages(s.done) == Messages(Duties(s.received)))
  {
    hide Run, Init, TrackRun, MessagesAt, Messages, Duties, Holds, Inv, Placed, InOrder;
    var t := TrackRun(Start(connect), actions);
    TrackedIsRun(Start(connect), actions);
    DeliveredInOrderIff(connect, actions);
    StartFollowed(connect);
    TrackRunFollowed(Start(connect), actions);
    if t.order <= MessagesAt(t.pump.received) {
      AllDelivered(t);
    }
    MessagesAre(t.pump.received);
  }

  lemma NextIsNew(all: seq<nat>, done: seq<nat>)
    requires forall k, l :: 0 <= k < l < |all| ==> all[k] < all[l]
    requires done <= all
    ensures done == all || (|done| < |all| && all[|done|] in all && all[|done|] !in done)
  {
    assert forall k :: 0 <= k < |done| ==> done[k] == all[k];
  }

  lemma AllDelivered(t: Tracked)
    requires Complete(t) && t.order <= MessagesAt(t.pump.received)
    requires forall i: nat :: !Holds(t.pump, i)
    ensures t.order == MessagesAt(t.pump.received)
  {
    hide MessagesAt, IsMessage, Holds;
    var all := MessagesAt(t.pump.received);
    MessagesAtRise(t.pump.received);
    NextIsNew(all, t.order);
  }
}
