/** What the read pump does for each packet it has dispatched: the message callback and EndTransaction. */
module MqttDuties {
  import opened Bytes
  import opened MqttFraming
  import opened MqttReadPump
  import H = MqttHandlers
  import T = MqttTransactions

  /** Where the body of a whole packet starts. */
  function BodyOffset(m: seq<byte>): nat {
    match Receive(m)
    case Received(_, offset) => offset
    case Failed(_) => 0
  }

  /** A PUBLISH is to be delivered once, an acknowledgement to end the transaction it names. */
  function DutyOf(m: seq<byte>): Duty {
    if m == [] then Nothing
    else if MessageType(m[0]) == 3 then Deliver(m)
    else if IsAck(m) then EndId(IdAt(m, BodyOffset(m)))
    else Nothing
  }

  function Duties(received: seq<seq<byte>>): seq<Duty> {
    if received == [] then [] else [DutyOf(received[0])] + Duties(received[1..])
  }

  /** What a task has still to do. */
  function StillTo(t: Task): Duty {
    match t
    case Handling(_, seen, pc) =>
      if pc.Dispatch? || (pc.Parse? && DutyOf(seen).Deliver?) then DutyOf(seen) else Nothing
    case Ending(id, _, _) => EndId(id)
    case _ => Nothing
  }

  function Pending(tasks: seq<Task>, d: Duty): nat {
    if tasks == [] then 0 else (if StillTo(tasks[0]) == d then 1 else 0) + Pending(tasks[1..], d)
  }

  /** Every duty is done, or held by one task: no packet's is lost or done twice. */
  ghost predicate Fulfilled(s: State) {
    forall d: Duty :: d != Nothing ==> Times(s.done, d) + Pending(s.tasks, d) == Times(Duties(s.received), d)
  }

  // ---- counting

  lemma {:induction false} PendingConcat(p: seq<Task>, q: seq<Task>, d: Duty)
    ensures Pending(p + q, d) == Pending(p, d) + Pending(q, d)
  {
    hide StillTo;
    if p == [] {
      assert p + q == q;
    } else {
      assert (p + q)[1..] == p[1..] + q;
      PendingConcat(p[1..], q, d);
    }
  }

  lemma {:induction false} PendingUpdate(p: seq<Task>, i: nat, t: Task, d: Duty)
    requires i < |p|
    ensures Pending(p[i := t], d) + (if StillTo(p[i]) == d then 1 else 0)
            == Pending(p, d) + if StillTo(t) == d then 1 else 0
  {
    hide StillTo;
    if i == 0 {
      assert p[0 := t][1..] == p[1..];
    } else {
      assert p[i := t][1..] == p[1..][i - 1 := t];
      PendingUpdate(p[1..], i - 1, t, d);
    }
  }

  lemma PendingOne(t: Task, d: Duty)
    ensures Pending([t], d) == if StillTo(t) == d then 1 else 0
    ensures Pending([], d) == 0
  {
    hide StillTo;
    assert [t][1..] == [];
  }

  lemma {:induction false} DutiesConcat(p: seq<seq<byte>>, q: seq<seq<byte>>)
    ensures Duties(p + q) == Duties(p) + Duties(q)
  {
    hide DutyOf;
    if p == [] {
      assert p + q == q;
    } else {
      assert (p + q)[1..] == p[1..] + q;
      DutiesConcat(p[1..], q);
    }
  }

  lemma DutiesOne(m: seq<byte>)
    ensures Duties([m]) == [DutyOf(m)] && Duties([]) == []
  {
    hide DutyOf;
    assert [m][1..] == [];
  }

  // ---- one step

  /** A step passes its task's duty on, takes up that of a packet received, or does it. */
  predicate Dutiful(s: State, i: nat, e: Effect)
    requires i < |s.tasks|
  {
    && (e.more == [] || (|e.more| == 1 && StillTo(e.more[0]) == Nothing))
    && (|| (e.received == [] && e.done == [] && StillTo(e.t) == StillTo(s.tasks[i]))
        || (|e.received| == 1 && e.done == [] && StillTo(s.tasks[i]) == Nothing
            && StillTo(e.t) == DutyOf(e.received[0]))
        || (e.received == [] && e.done == [StillTo(s.tasks[i])] && StillTo(e.t) == Nothing))
  }

  lemma DutyKept(s: State, i: nat, e: Effect)
    requires Fulfilled(s) && i < |s.tasks| && Dutiful(s, i, e)
    ensures Fulfilled(Apply(s, i, e))
  {
    hide StillTo, DutyOf, Pending, Duties, Times;
    var s' := Apply(s, i, e);
    DutiesConcat(s.received, e.received);
    if |e.received| == 1 {
      assert e.received == [e.received[0]];
      DutiesOne(e.received[0]);
    } else {
      DutiesOne([]);
    }
    forall d: Duty | d != Nothing
      ensures Times(s'.done, d) + Pending(s'.tasks, d) == Times(Duties(s'.received), d)
    {
      StepCounts(s, i, e, d);
    }
  }

  lemma StepCounts(s: State, i: nat, e: Effect, d: Duty)
    requires Fulfilled(s) && i < |s.tasks| && Dutiful(s, i, e) && d != Nothing
    requires Duties(s.received + e.received) == Duties(s.received) + Duties(e.received)
    requires Duties(e.received) == if e.received == [] then [] else [DutyOf(e.received[0])]
    ensures Times(s.done + e.done, d) + Pending(s.tasks[i := e.t] + e.more, d)
            == Times(Duties(s.received + e.received), d)
  {
    hide StillTo, DutyOf, Pending, Duties, Times;
    assert Times(s.done, d) + Pending(s.tasks, d) == Times(Duties(s.received), d);
    PendingUpdate(s.tasks, i, e.t, d);
    PendingConcat(s.tasks[i := e.t], e.more, d);
    PendingOne(e.t, d);
    if e.more != [] {
      assert e.more == [e.more[0]];
      PendingOne(e.more[0], d);
    }
    TimesConcat(s.done, e.done, d);
    TimesConcat(Duties(s.received), Duties(e.received), d);
    TimesNone(d);
    if e.done != [] {
      TimesOne(e.done[0], d);
    }
    if e.received != [] {
      TimesOne(DutyOf(e.received[0]), d);
    }
  }

  /** An acknowledgement's duty is the one its handler takes with it when it gives up the buffer. */
  lemma AckDuty(m: seq<byte>, offset: nat)
    requires Whole(m, offset) && IsAck(m)
    ensures DutyOf(m) == EndId(IdAt(m, offset))
  {
    hide Receive;
  }

  lemma PieceDutiful(s: State, i: nat)
    requires Inv(s) && i < |s.tasks| && s.tasks[i].Handling?
    requires s.tasks[i].buf in s.mem && s.mem[s.tasks[i].buf] != []
    ensures Dutiful(s, i, Piece(s.tasks[i], s.mem, s.unused))
  {
    hide Inv, Whole, IdAt, Reply, Value, More, Receive;
    ItsIntact(s, i);
    var t := s.tasks[i];
    if t.pc.Dispatch? && IsAck(t.seen) {
      AckDuty(t.seen, t.pc.lengthOffset);
    }
  }

  /** A step does what one dutiful effect of its task does. */
  ghost predicate Stepped(s: State, s': State, i: nat) {
    i < |s.tasks| && exists e: Effect :: Dutiful(s, i, e) && s' == Apply(s, i, e).(input := s'.input)
  }

  lemma SteppedBy(s: State, i: nat, e: Effect, input: seq<byte>)
    requires i < |s.tasks| && Dutiful(s, i, e)
    ensures Stepped(s, Apply(s, i, e).(input := input), i)
  {
    hide Dutiful;
  }

  lemma NextSteps(s: State, a: Action)
    requires Inv(s) && !a.Send?
    ensures Next(s, a) == s || Stepped(s, Next(s, a), a.i)
  {
    hide Inv, Stepped, Piece, DutyOf;
    match a
    case Arrive(i, bytes) =>
      if CanRead(s, i, |bytes|) && |bytes| == s.tasks[i].count {
        SteppedBy(s, i, ArriveEffect(s, s.tasks[i], bytes), s.input + bytes);
      }
    case Scribble(i, bytes) =>
      if CanRead(s, i, |bytes|) {
        var b, o := s.tasks[i].buf, s.tasks[i].offset;
        var mem := s.mem[b := s.mem[b][..o] + bytes + s.mem[b][o + |bytes|..]];
        SteppedBy(s, i, Keep(s.tasks[i], mem, s.unused), s.input);
      }
    case Break(i) =>
      if i < |s.tasks| {
        if s.tasks[i].Reading? {
          SteppedBy(s, i, Stop(s.mem, s.unused), s.input);
        } else if s.tasks[i].Writing? {
          SteppedBy(s, i, Keep(Done, s.mem, s.unused), s.input);
        }
      }
    case Go(i) =>
      if i < |s.tasks| {
        if s.tasks[i].Ending? {
          SteppedBy(s, i, EndingEffect(s, s.tasks[i].id), s.input);
        } else if s.tasks[i].Handling? && s.tasks[i].buf in s.mem && s.mem[s.tasks[i].buf] != [] {
          PieceDutiful(s, i);
          SteppedBy(s, i, Piece(s.tasks[i], s.mem, s.unused), s.input);
        }
      }
    case Sent(i) =>
      if i < |s.tasks| && s.tasks[i].Writing? {
        SteppedBy(s, i, Keep(Done, s.mem, s.unused), s.input);
      }
  }

  lemma NextFulfils(s: State, a: Action)
    requires Inv(s) && Fulfilled(s)
    ensures Fulfilled(Next(s, a))
  {
    hide Inv, Fulfilled, Next, Dutiful, Apply;
    if a.Send? {
      SendFulfils(s, a.bytes);
    } else {
      NextSteps(s, a);
      if Next(s, a) != s {
        var e: Effect :| Dutiful(s, a.i, e) && Next(s, a) == Apply(s, a.i, e).(input := Next(s, a).input);
        DutyKept(s, a.i, e);
        InputApart(Apply(s, a.i, e), Next(s, a).input);
      }
    }
  }

  lemma InputApart(s: State, input: seq<byte>)
    requires Fulfilled(s)
    ensures Fulfilled(s.(input := input))
  {
  }

  lemma SendFulfils(s: State, bytes: seq<byte>)
    requires Fulfilled(s)
    ensures Fulfilled(Next(s, Send(bytes)))
  {
    hide Pending, Times, Duties;
    var w := Writing(s.unused, bytes);
    forall d: Duty | d != Nothing
      ensures Pending(s.tasks + [w], d) == Pending(s.tasks, d)
    {
      PendingConcat(s.tasks, [w], d);
      PendingOne(w, d);
    }
  }

  lemma {:induction false} RunFulfils(s: State, actions: seq<Action>)
    requires Inv(s) && Fulfilled(s)
    ensures Fulfilled(Run(s, actions))
    decreases actions
  {
    hide Inv, Fulfilled, Next;
    if actions != [] {
      NextKeeps(s, actions[0]);
      NextFulfils(s, actions[0]);
      RunFulfils(Next(s, actions[0]), actions[1..]);
    }
  }

  // ---- the theorems

  /** In every reachable state each duty of the packets dispatched has been done or is held by exactly one
      handler, counted with multiplicity. */
  lemma EveryDutyOnce(connect: seq<byte>, actions: seq<Action>, d: Duty)
    requires d != Nothing
    ensures var s := Run(Init(connect), actions);
      Times(s.done, d) + Pending(s.tasks, d) == Times(Duties(s.received), d)
  {
    hide Inv, Run, Times, Pending, Duties;
    InitInv(connect);
    InitFulfilled(connect);
    RunFulfils(Init(connect), actions);
  }

  lemma InitFulfilled(connect: seq<byte>)
    ensures Fulfilled(Init(connect))
  {
    var s := Init(connect);
    forall d: Duty | d != Nothing
      ensures Pending(s.tasks, d) == 0
    {
      PendingOne(s.tasks[0], d);
    }
    DutiesOne([]);
  }

  function Messages(done: seq<Duty>): seq<seq<byte>> {
    if done == [] then []
    else (if done[0].Deliver? then [done[0].m] else []) + Messages(done[1..])
  }

  function EndedIds(done: seq<Duty>): seq<nat> {
    if done == [] then []
    else IdOf(done[0]) + EndedIds(done[1..])
  }

  function IdOf(d: Duty): seq<nat> {
    if d.EndId? then [d.id] else []
  }

  lemma {:induction false} CountMessages(done: seq<Duty>, m: seq<byte>)
    ensures Times(Messages(done), m) == Times(done, Deliver(m))
  {
    hide Times;
    if done == [] {
      TimesNone(Deliver(m));
      assert Times(Messages(done), m) == 0 by {
        TimesNone(m);
      }
    } else {
      CountMessages(done[1..], m);
      TimesHead(done, Deliver(m));
      if done[0].Deliver? {
        TimesConcat([done[0].m], Messages(done[1..]), m);
        TimesOne(done[0].m, m);
      } else {
        assert Messages(done) == Messages(done[1..]);
      }
    }
  }

  lemma {:induction false} CountIds(done: seq<Duty>, id: nat)
    ensures Times(EndedIds(done), id) == Times(done, EndId(id))
  {
    hide Times;
    if done == [] {
      TimesNone(id);
      TimesNone(EndId(id));
    } else {
      CountIds(done[1..], id);
      TimesHead(done, EndId(id));
      if done[0].EndId? {
        TimesConcat([done[0].id], EndedIds(done[1..]), id);
        TimesOne(done[0].id, id);
      } else {
        assert EndedIds(done) == EndedIds(done[1..]);
      }
    }
  }

  /** The messages among the packets received: the PUBLISH packets. */
  lemma {:induction false} ReceivedMessages(received: seq<seq<byte>>, m: seq<byte>)
    ensures Times(Duties(received), Deliver(m)) <= Times(received, m)
  {
    hide Times;
    if received == [] {
      TimesNone(Deliver(m));
    } else {
      ReceivedMessages(received[1..], m);
      assert Duties(received)[1..] == Duties(received[1..]);
      TimesHead(Duties(received), Deliver(m));
      TimesHead(received, m);
    }
  }

  /** What a packet asks for, from its bytes: a PUBLISH (3) its delivery; PUBACK, PUBCOMP, SUBACK and UNSUBACK (4, 7, 9
      and 11) the end of the transaction whose number follows the length; any other nothing. */
  lemma DutyIs(m: seq<byte>)
    requires m != []
    ensures DutyOf(m) == Deliver(m) <==> m[0] >> 4 == 3
    ensures DutyOf(m).EndId? <==> m[0] >> 4 in {4, 7, 9, 11}
    ensures var at := BodyOffset(m);
      DutyOf(m).EndId? ==> DutyOf(m).id == if at + 2 <= |m| then m[at] as nat * 256 + m[at + 1] as nat else 0
  {
    hide BodyOffset;
  }

  lemma {:induction false} MessagesReceived(received: seq<seq<byte>>, m: seq<byte>)
    requires m != [] && m[0] >> 4 == 3
    ensures Times(Duties(received), Deliver(m)) == Times(received, m)
  {
    hide Times, DutyOf;
    if received == [] {
      TimesNone(m);
      TimesNone(Deliver(m));
    } else {
      MessagesReceived(received[1..], m);
      assert Duties(received)[1..] == Duties(received[1..]);
      TimesHead(Duties(received), Deliver(m));
      TimesHead(received, m);
      DutyIs(m);
      DeliversItself(received[0]);
    }
  }

  lemma DeliversItself(m: seq<byte>)
    ensures DutyOf(m).Deliver? ==> DutyOf(m) == Deliver(m)
  {
    hide BodyOffset;
  }

  /** Once no handler is under way, each PUBLISH received has been delivered as often as it came. */
  lemma EveryMessageDelivered(connect: seq<byte>, actions: seq<Action>, m: seq<byte>)
    requires m != [] && m[0] >> 4 == 3
    requires forall t :: t in Run(Init(connect), actions).tasks ==> !t.Handling? && !t.Ending?
    ensures var s := Run(Init(connect), actions); Times(Messages(s.done), m) == Times(s.received, m)
  {
    hide Run, Init, Times, Duties, Messages;
    var s := Run(Init(connect), actions);
    AllDoneWhenIdle(connect, actions, Deliver(m));
    MessagesReceived(s.received, m);
    CountMessages(s.done, m);
  }

  /** No PUBLISH is delivered more often than it was received. */
  lemma DeliveredAtMostOnce(connect: seq<byte>, actions: seq<Action>)
    ensures var s := Run(Init(connect), actions); multiset(Messages(s.done)) <= multiset(s.received)
  {
    hide Run, Init, Messages, Duties;
    var s := Run(Init(connect), actions);
    forall m: seq<byte>
      ensures multiset(Messages(s.done))[m] <= multiset(s.received)[m]
    {
      EveryDutyOnce(connect, actions, Deliver(m));
      CountMessages(s.done, m);
      ReceivedMessages(s.received, m);
    }
  }

  /** The identifiers of the acknowledgements received. */
  function AckIds(received: seq<seq<byte>>): seq<nat> {
    if received == [] then []
    else (if IsAck(received[0]) then [IdAt(received[0], BodyOffset(received[0]))] else []) + AckIds(received[1..])
  }

  lemma {:induction false} DutiesAreAcks(received: seq<seq<byte>>)
    ensures EndedIds(Duties(received)) == AckIds(received)
  {
    hide IdAt, BodyOffset, MessageType;
    if received != [] {
      DutiesAreAcks(received[1..]);
      assert Duties(received)[1..] == Duties(received[1..]);
    }
  }

  /** No transaction is ended more often than an acknowledgement has named it. */
  lemma EndedAtMostAcknowledged(connect: seq<byte>, actions: seq<Action>)
    ensures var s := Run(Init(connect), actions); multiset(EndedIds(s.done)) <= multiset(AckIds(s.received))
  {
    hide Run, Init, EndedIds, Duties, AckIds;
    var s := Run(Init(connect), actions);
    DutiesAreAcks(s.received);
    forall id: nat
      ensures multiset(EndedIds(s.done))[id] <= multiset(AckIds(s.received))[id]
    {
      EveryDutyOnce(connect, actions, EndId(id));
      CountIds(s.done, id);
      CountIds(Duties(s.received), id);
    }
  }

  /** Once no handler is under way, every PUBLISH received has been delivered and every acknowledgement has ended
      its transaction, as often as they came. */
  lemma AllDoneWhenIdle(connect: seq<byte>, actions: seq<Action>, d: Duty)
    requires d != Nothing
    requires forall t :: t in Run(Init(connect), actions).tasks ==> !t.Handling? && !t.Ending?
    ensures var s := Run(Init(connect), actions); Times(s.done, d) == Times(Duties(s.received), d)
  {
    hide Run, Init, Times, Pending, Duties;
    EveryDutyOnce(connect, actions, d);
    NonePending(Run(Init(connect), actions).tasks, d);
  }

  lemma {:induction false} NonePending(tasks: seq<Task>, d: Duty)
    requires d != Nothing && forall t :: t in tasks ==> !t.Handling? && !t.Ending?
    ensures Pending(tasks, d) == 0
  {
    hide DutyOf;
    if tasks != [] {
      assert tasks[0] in tasks;
      NonePending(tasks[1..], d);
    }
  }

  // ---- EndTransaction

  /** The client with its read pump: handler `i` of the pump runs in thread `t`; everything else that happens to
      the transactions is the client's own. */
  datatype Joint = Joint(pump: State, life: H.Life)

  datatype Step = Pump(a: Action, t: nat) | Client(own: H.Action)

  /** The action on the transactions that a pump step is. */
  function Ends(s: State, a: Action, t: nat): seq<H.Action> {
    if a.Go? && a.i < |s.tasks| && s.tasks[a.i].Ending? then [H.End(t, s.tasks[a.i].id)] else []
  }

  function JointNext(s: Joint, step: Step): Joint {
    match step
    case Pump(a, t) => Joint(Next(s.pump, a), H.Run(s.life, Ends(s.pump, a, t)))
    case Client(a) => if a.End? then s else Joint(s.pump, H.Next(s.life, a))
  }

  function JointRun(s: Joint, steps: seq<Step>): Joint
    decreases steps
  {
    if steps == [] then s else JointRun(JointNext(s, steps[0]), steps[1..])
  }

  /** What a joint run does to the pump and to the transactions. */
  function PumpSteps(steps: seq<Step>): seq<Action> {
    if steps == [] then []
    else (if steps[0].Pump? then [steps[0].a] else []) + PumpSteps(steps[1..])
  }

  function LifeSteps(s: Joint, steps: seq<Step>): seq<H.Action>
    decreases steps
  {
    if steps == [] then []
    else
      (match steps[0]
       case Pump(a, t) => Ends(s.pump, a, t)
       case Client(a) => if a.End? then [] else [a])
      + LifeSteps(JointNext(s, steps[0]), steps[1..])
  }

  lemma {:induction false} JointIsBoth(s: Joint, steps: seq<Step>)
    ensures JointRun(s, steps) == Joint(Run(s.pump, PumpSteps(steps)), H.Run(s.life, LifeSteps(s, steps)))
    decreases steps
  {
    hide Next, H.Next, Ends;
    if steps != [] {
      var s1 := JointNext(s, steps[0]);
      JointIsBoth(s1, steps[1..]);
      match steps[0]
      case Pump(a, t) =>
        RunsOn(s.pump, a, PumpSteps(steps[1..]));
        LifeConcat(s.life, Ends(s.pump, a, t), LifeSteps(s1, steps[1..]));
      case Client(a) =>
        assert [] + PumpSteps(steps[1..]) == PumpSteps(steps[1..]);
        if !a.End? {
          LifeConcat(s.life, [a], LifeSteps(s1, steps[1..]));
          LifeOne(s.life, a);
        } else {
          assert [] + LifeSteps(s1, steps[1..]) == LifeSteps(s1, steps[1..]);
        }
    }
  }

  lemma LifeOne(s: H.Life, a: H.Action)
    ensures H.Run(s, [a]) == H.Next(s, a)
  {
    hide H.Next;
    assert [a][1..] == [];
  }

  lemma {:induction false} LifeConcat(s: H.Life, p: seq<H.Action>, q: seq<H.Action>)
    ensures H.Run(s, p + q) == H.Run(H.Run(s, p), q)
    decreases |p|
  {
    hide H.Next;
    if p == [] {
      assert p + q == q;
    } else {
      assert (p + q)[1..] == p[1..] + q;
      LifeConcat(H.Next(s, p[0]), p[1..], q);
    }
  }

  /** The identifiers ended by a run on the transactions. */
  function EndsOf(actions: seq<H.Action>): seq<nat> {
    if actions == [] then []
    else EndOf(actions[0]) + EndsOf(actions[1..])
  }

  function EndOf(a: H.Action): seq<nat> {
    if a.End? then [a.id] else []
  }

  lemma {:induction false} EndsConcat(p: seq<H.Action>, q: seq<H.Action>)
    ensures EndsOf(p + q) == EndsOf(p) + EndsOf(q)
  {
    hide EndOf;
    if p == [] {
      assert p + q == q;
    } else {
      assert (p + q)[1..] == p[1..] + q;
      EndsConcat(p[1..], q);
    }
  }

  lemma {:induction false} IdsConcat(p: seq<Duty>, q: seq<Duty>)
    ensures EndedIds(p + q) == EndedIds(p) + EndedIds(q)
  {
    hide IdOf;
    if p == [] {
      assert p + q == q;
    } else {
      assert (p + q)[1..] == p[1..] + q;
      IdsConcat(p[1..], q);
    }
  }

  lemma StepEnds(s: State, a: Action, t: nat)
    ensures EndedIds(Next(s, a).done) == EndedIds(s.done) + EndsOf(Ends(s, a, t))
  {
    hide Piece, CanRead;
    var e := Next(s, a).done;
    if a.Go? && a.i < |s.tasks| {
      if s.tasks[a.i].Ending? {
        OneEnd(t, s.tasks[a.i].id);
        IdsConcat(s.done, [EndId(s.tasks[a.i].id)]);
      } else if s.tasks[a.i].Handling? && s.tasks[a.i].buf in s.mem && s.mem[s.tasks[a.i].buf] != [] {
        PieceEndsNothing(s, a.i);
        IdsConcat(s.done, Piece(s.tasks[a.i], s.mem, s.unused).done);
      }
    }
    assert s.done + [] == s.done;
  }

  lemma OneEnd(t: nat, id: nat)
    ensures EndsOf([H.End(t, id)]) == [id] == EndedIds([EndId(id)])
  {
    assert [H.End(t, id)][1..] == [] && [EndId(id)][1..] == [];
  }

  lemma PieceEndsNothing(s: State, i: nat)
    requires i < |s.tasks| && s.tasks[i].Handling? && s.tasks[i].buf in s.mem && s.mem[s.tasks[i].buf] != []
    ensures EndedIds(Piece(s.tasks[i], s.mem, s.unused).done) == []
  {
    hide Reply, Value, More, MessageType, IdAt;
    var d := Piece(s.tasks[i], s.mem, s.unused).done;
    if d != [] {
      assert d == [Deliver(s.mem[s.tasks[i].buf])] && d[1..] == [];
    }
  }

  lemma {:induction false} RunEnds(s: Joint, steps: seq<Step>)
    ensures EndedIds(JointRun(s, steps).pump.done) == EndedIds(s.pump.done) + EndsOf(LifeSteps(s, steps))
    decreases steps
  {
    hide Next, H.Next, Ends, EndedIds;
    if steps != [] {
      var s1 := JointNext(s, steps[0]);
      RunEnds(s1, steps[1..]);
      match steps[0]
      case Pump(a, t) =>
        StepEnds(s.pump, a, t);
        EndsConcat(Ends(s.pump, a, t), LifeSteps(s1, steps[1..]));
      case Client(a) =>
        if a.End? {
          assert LifeSteps(s, steps) == LifeSteps(s1, steps[1..]);
        } else {
          NoEnd(a);
          EndsConcat([a], LifeSteps(s1, steps[1..]));
        }
    }
  }

  lemma NoEnd(a: H.Action)
    requires !a.End?
    ensures EndsOf([a]) == []
  {
    assert [a][1..] == [];
  }

  /** Over all runs of client and pump together: what happens to the transactions is a run of the handlers'
      life, whose calls of EndTransaction are, as a multiset, among the acknowledgements received. */
  lemma OnlyAcknowledgementsEnd(connect: seq<byte>, threads: nat, steps: seq<Step>)
    ensures var s0 := Joint(Init(connect), H.Init(threads));
      var actions, s := LifeSteps(s0, steps), JointRun(s0, steps);
      && s.life == H.Run(H.Init(threads), actions)
      && multiset(EndsOf(actions)) <= multiset(AckIds(s.pump.received))
  {
    hide JointRun, LifeSteps, Run, H.Run, EndsOf, AckIds;
    var s0 := Joint(Init(connect), H.Init(threads));
    JointIsBoth(s0, steps);
    RunEnds(s0, steps);
    EndedAtMostAcknowledged(connect, PumpSteps(steps));
    assert EndedIds(s0.pump.done) == [];
  }

  /** A handler that ends a transaction: the pump's step and the client's locked section in one. */
  method EndAcknowledged(pump: ReadPump, client: T.MQTTClient, i: nat, ghost t: nat) returns (handler: seq<nat>)
    requires i < |pump.tasks| && pump.tasks[i].Ending? && client.Valid() && t < |client.life.hands|
    modifies pump, client
    ensures pump.Now() == Next(old(pump.Now()), Go(i)) && client.Valid()
    ensures Ends(old(pump.Now()), Go(i), t) == [H.End(t, old(pump.tasks[i].id))]
    ensures client.life == H.Next(old(client.life), H.End(t, old(pump.tasks[i].id)))
    ensures client.life.hands[t] == handler + old(client.life.hands[t])
    ensures var id := old(pump.tasks[i].id);
      && handler == (if id in old(client.transactions) then [old(client.transactions)[id]] else [])
      && client.transactions == old(client.transactions) - {id}
  {
    var id := pump.tasks[i].id;
    pump.tasks := pump.tasks[i := Done];
    pump.done := pump.done + [EndId(id)];
    handler := client.EndTransaction(id, t);
    assert pump.tasks + [] == pump.tasks;
  }
}
