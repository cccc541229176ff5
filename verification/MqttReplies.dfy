/** What the read pump sends back: every reply a packet asks for is started once, from that packet's buffer. */
module MqttReplies {
  import opened Bytes
  import opened MqttFraming
  import opened MqttReadPump
  import opened MqttDuties

  /** The two bytes at `offset` as a number, 0 if they are missing. */
  function Number(m: seq<byte>, offset: nat): nat {
    if offset + 2 <= |m| then m[offset] as nat * 256 + m[offset + 1] as nat else 0
  }

  /** A packet of type `t` with no flags and nothing but an identifier. */
  function WithId(t: byte, id: nat): seq<byte>
    requires id < 65536
  {
    [t << 4, 2, AsByte(id / 256), AsByte(id % 256)]
  }

  /** The identifier of a PUBLISH stands behind its topic; a topic that runs past the end is taken as empty. */
  function BehindTopic(m: seq<byte>, offset: nat): nat {
    if offset + 2 > |m| then |m|
    else if offset + 2 + Number(m, offset) <= |m| then offset + 2 + Number(m, offset)
    else offset + 2
  }

  /** What a whole packet asks for: PUBACK (4) for a PUBLISH of QoS 1, PUBREC (5) for one of QoS 2, PUBREL (6) for a
      PUBREC, PUBCOMP (7) for a PUBREL, each with its identifier; a PINGREQ is answered by a PINGREQ (12). */
  function Asked(m: seq<byte>): seq<seq<byte>> {
    if m == [] then [] else
    var start := BodyOffset(m);
    NumberBound(m, start);
    NumberBound(m, BehindTopic(m, start));
    match m[0] >> 4
    case 3 =>
      if m[0] & 0x06 == 0x02 then [WithId(4, Number(m, BehindTopic(m, start)))]
      else if m[0] & 0x06 == 0x04 then [WithId(5, Number(m, BehindTopic(m, start)))]
      else []
    case 5 => [WithId(6, Number(m, start))]
    case 6 => [WithId(7, Number(m, start))]
    case 12 => [[0xC0, 0]]
    case _ => []
  }

  lemma NumberBound(m: seq<byte>, offset: nat)
    ensures Number(m, offset) < 65536
  {
  }

  // ---- the reply of the code is what is asked for

  lemma TwoDigits()
    ensures Digits(2) == [2] && Digits(0) == [0]
  {
  }

  lemma EncodedId(t: byte, id: nat)
    requires id < 65536
    ensures Encode(Packet(t << 4, Uint16(id))) == WithId(t, id)
  {
    hide Digits, AsByte;
    TwoDigits();
  }

  lemma SmallId(id: nat)
    requires id < 65536
    ensures id % 65536 == id
  {
  }

  lemma NumberIs(m: seq<byte>, offset: nat)
    ensures IdAt(m, offset) == Number(m, offset)
    ensures PublishId(m, offset) == Number(m, BehindTopic(m, offset))
  {
  }

  lemma ReplyIsAsked(m: seq<byte>, offset: nat)
    requires Whole(m, offset) && m != [] && MessageType(m[0]) in {3, 5, 6, 12}
    ensures Asked(m) ==
      if MessageType(m[0]) == 3 && Qos(m[0]) != 1 && Qos(m[0]) != 2 then [] else [Reply(m, offset)]
  {
    hide Encode, Receive, Digits, Uint16, WithId, Number, BehindTopic, PublishId, IdAt, Qos;
    var own, topics := Number(m, offset), Number(m, BehindTopic(m, offset));
    NumberBound(m, offset);
    NumberBound(m, BehindTopic(m, offset));
    NumberIs(m, offset);
    HeaderBits(m[0]);
    SmallId(own);
    SmallId(topics);
    EncodedId(4, topics);
    EncodedId(5, topics);
    EncodedId(6, own);
    EncodedId(7, own);
    EncodedPing();
  }

  lemma EncodedPing()
    ensures Encode(Packet(12 << 4, [])) == [0xC0, 0]
  {
    hide Digits;
    TwoDigits();
  }

  lemma HeaderBits(h: byte)
    ensures (h & 0x06 == 0x02) == (Qos(h) == 1) && (h & 0x06 == 0x04) == (Qos(h) == 2)
  {
  }

  // ---- one step

  /** The replies a task has still to start. */
  function Owed(t: Task): seq<seq<byte>> {
    if t.Handling? && !t.pc.Filled? && !t.pc.Sized? then Asked(t.seen) else []
  }

  function TimesOwed(tasks: seq<Task>, r: seq<byte>): nat {
    if tasks == [] then 0 else Times(Owed(tasks[0]), r) + TimesOwed(tasks[1..], r)
  }

  function TimesAsked(received: seq<seq<byte>>, r: seq<byte>): nat {
    if received == [] then 0 else Times(Asked(received[0]), r) + TimesAsked(received[1..], r)
  }

  /** The write that a handler starts in this step, as seen in the state behind it. */
  function Started(s: State, a: Action): seq<seq<byte>> {
    if a.Go? && a.i < |s.tasks| && !s.tasks[a.i].Writing? && a.i < |Next(s, a).tasks| && Next(s, a).tasks[a.i].Writing?
    then [Next(s, a).tasks[a.i].bytes] else []
  }

  function AllStarted(s: State, actions: seq<Action>): seq<seq<byte>>
    decreases actions
  {
    if actions == [] then [] else Started(s, actions[0]) + AllStarted(Next(s, actions[0]), actions[1..])
  }

  /** Handlers past their next read are those of the packets that are answered, and only a PUBLISH has two pieces. */
  ghost predicate Answering(s: State) {
    forall t :: t in s.tasks ==> Answers(t)
  }

  predicate Answers(t: Task) {
    t.Handling? && t.seen != [] ==>
      && (t.pc.Parse? ==> MessageType(t.seen[0]) in {3, 5, 6, 12})
      && (t.pc.Answer? ==> MessageType(t.seen[0]) == 3)
  }

  lemma {:induction false} OwedConcat(p: seq<Task>, q: seq<Task>, r: seq<byte>)
    ensures TimesOwed(p + q, r) == TimesOwed(p, r) + TimesOwed(q, r)
  {
    hide Owed, Times;
    if p == [] {
      assert p + q == q;
    } else {
      assert (p + q)[1..] == p[1..] + q;
      OwedConcat(p[1..], q, r);
    }
  }

  lemma {:induction false} OwedUpdate(p: seq<Task>, i: nat, t: Task, r: seq<byte>)
    requires i < |p|
    ensures TimesOwed(p[i := t], r) + Times(Owed(p[i]), r) == TimesOwed(p, r) + Times(Owed(t), r)
  {
    hide Owed, Times;
    if i == 0 {
      assert p[0 := t][1..] == p[1..];
    } else {
      assert p[i := t][1..] == p[1..][i - 1 := t];
      OwedUpdate(p[1..], i - 1, t, r);
    }
  }

  lemma {:induction false} AskedConcat(p: seq<seq<byte>>, q: seq<seq<byte>>, r: seq<byte>)
    ensures TimesAsked(p + q, r) == TimesAsked(p, r) + TimesAsked(q, r)
  {
    hide Asked, Times;
    if p == [] {
      assert p + q == q;
    } else {
      assert (p + q)[1..] == p[1..] + q;
      AskedConcat(p[1..], q, r);
    }
  }

  /** A step passes on what its task owes, takes up what a packet asks for, or starts the writes. */
  ghost predicate Replying(s: State, i: nat, e: Effect, started: seq<seq<byte>>)
    requires i < |s.tasks|
  {
    && (e.more == [] || (|e.more| == 1 && e.more[0].Reading?))
    && Answers(e.t)
    && (|| (e.received == [] && started == [] && Owed(e.t) == Owed(s.tasks[i]))
        || (|e.received| == 1 && started == [] && Owed(s.tasks[i]) == [] && Owed(e.t) == Asked(e.received[0]))
        || (e.received == [] && started == Owed(s.tasks[i]) && Owed(e.t) == []))
    && (e.t.Writing? && !s.tasks[i].Writing? ==> started == [e.t.bytes] && Owns(s.tasks[i], e.t.buf))
    && (!e.t.Writing? ==> started == [])
  }

  /** So much for `r`: started, owed and asked for. */
  ghost predicate Balanced(s: State, r: seq<byte>, started: nat) {
    started + TimesOwed(s.tasks, r) == TimesAsked(s.received, r)
  }

  lemma ReplyKept(s: State, i: nat, e: Effect, started: seq<seq<byte>>, r: seq<byte>, before: nat)
    requires i < |s.tasks| && Replying(s, i, e, started) && Balanced(s, r, before)
    ensures Balanced(Apply(s, i, e), r, before + Times(started, r))
  {
    hide Owed, Asked, Times, TimesOwed, TimesAsked, Answers;
    OwedUpdate(s.tasks, i, e.t, r);
    OwedConcat(s.tasks[i := e.t], e.more, r);
    AskedConcat(s.received, e.received, r);
    TimesNone(r);
    NothingOwed(r);
    if e.more != [] {
      assert e.more == [e.more[0]];
      ReadOwesNothing(e.more[0], r);
    }
    if e.received != [] {
      assert e.received == [e.received[0]];
      AskedOne(e.received[0], r);
    }
  }

  lemma NothingOwed(r: seq<byte>)
    ensures TimesOwed([], r) == 0 && TimesAsked([], r) == 0
  {
  }

  lemma ReadOwesNothing(t: Task, r: seq<byte>)
    requires t.Reading? || t.Writing?
    ensures TimesOwed([t], r) == 0 && Owed(t) == []
  {
    assert [t][1..] == [];
  }

  lemma AskedOne(m: seq<byte>, r: seq<byte>)
    ensures TimesAsked([m], r) == Times(Asked(m), r)
  {
    hide Asked, Times;
    assert [m][1..] == [];
  }

  function WriteOf(t: Task): seq<seq<byte>> {
    if t.Writing? then [t.bytes] else []
  }

  lemma NothingAsked(m: seq<byte>)
    requires m != [] && MessageType(m[0]) !in {3, 5, 6, 12}
    ensures Asked(m) == []
  {
    hide Receive, WithId, Number, BehindTopic, BodyOffset;
    NumberBound(m, BodyOffset(m));
    NumberBound(m, BehindTopic(m, BodyOffset(m)));
  }

  lemma EarlyReplies(s: State, i: nat)
    requires Inv(s) && i < |s.tasks| && s.tasks[i].Handling? && (s.tasks[i].pc.Filled? || s.tasks[i].pc.Sized?)
    requires s.tasks[i].buf in s.mem && s.mem[s.tasks[i].buf] != []
    ensures var e := Piece(s.tasks[i], s.mem, s.unused); Replying(s, i, e, WriteOf(e.t))
  {
    hide Inv, Asked, Value, More, Resize, Seen;
    ItsIntact(s, i);
  }

  lemma DispatchReplies(s: State, i: nat)
    requires Inv(s) && i < |s.tasks| && s.tasks[i].Handling? && s.tasks[i].pc.Dispatch?
    requires s.tasks[i].buf in s.mem && s.mem[s.tasks[i].buf] != []
    ensures var e := Piece(s.tasks[i], s.mem, s.unused); Replying(s, i, e, WriteOf(e.t))
  {
    hide Inv, Asked, Resize, Seen, MessageType, IdAt, TakenAsAccepted;
    ItsIntact(s, i);
    var m := s.tasks[i].seen;
    if MessageType(m[0]) !in {3, 5, 6, 12} {
      NothingAsked(m);
    }
  }

  lemma LateReplies(s: State, i: nat)
    requires Inv(s) && i < |s.tasks| && s.tasks[i].Handling? && (s.tasks[i].pc.Parse? || s.tasks[i].pc.Answer?)
    requires s.tasks[i].buf in s.mem && s.mem[s.tasks[i].buf] != [] && Answers(s.tasks[i])
    ensures var e := Piece(s.tasks[i], s.mem, s.unused); Replying(s, i, e, WriteOf(e.t))
  {
    hide Inv, Asked, Reply, Whole, MessageType, Qos;
    ItsIntact(s, i);
    ReplyIsAsked(s.tasks[i].seen, s.tasks[i].pc.lengthOffset);
  }

  lemma PieceReplies(s: State, i: nat)
    requires Inv(s) && Answering(s) && i < |s.tasks| && s.tasks[i].Handling?
    requires s.tasks[i].buf in s.mem && s.mem[s.tasks[i].buf] != []
    ensures var e := Piece(s.tasks[i], s.mem, s.unused); Replying(s, i, e, WriteOf(e.t))
  {
    hide Inv, Piece, Replying, Answers;
    assert s.tasks[i] in s.tasks;
    match s.tasks[i].pc
    case Filled(_) => EarlyReplies(s, i);
    case Sized => EarlyReplies(s, i);
    case Dispatch(_) => DispatchReplies(s, i);
    case Parse(_) => LateReplies(s, i);
    case Answer(_) => LateReplies(s, i);
  }

  /** What a step leaves of the account. */
  ghost predicate Accounts(s: State, a: Action, r: seq<byte>, before: nat) {
    Answering(Next(s, a)) && Balanced(Next(s, a), r, before + Times(Started(s, a), r))
  }

  lemma EffectAccounts(s: State, a: Action, i: nat, e: Effect, input: seq<byte>, r: seq<byte>, before: nat)
    requires Answering(s) && Balanced(s, r, before) && i < |s.tasks| && Replying(s, i, e, WriteOf(e.t))
    requires Next(s, a) == Apply(s, i, e).(input := input) && !a.Send? && a.i == i
    requires a.Go? ==> !s.tasks[i].Writing?
    requires !a.Go? ==> !e.t.Writing?
    ensures Accounts(s, a, r, before)
  {
    hide Next, Owed, Asked, Times, TimesOwed, TimesAsked, Answers;
    ReplyKept(s, i, e, WriteOf(e.t), r, before);
    forall t | t in Next(s, a).tasks
      ensures Answers(t)
    {
      if t !in s.tasks && t != e.t {
        ReadAnswers(t);
      }
    }
    assert Next(s, a).tasks[i] == e.t;
  }

  lemma ReadAnswers(t: Task)
    requires t.Reading? || t.Writing?
    ensures Answers(t)
  {
  }

  lemma NothingAccounts(s: State, a: Action, r: seq<byte>, before: nat)
    requires Answering(s) && Balanced(s, r, before) && Next(s, a) == s
    ensures Accounts(s, a, r, before)
  {
    hide Next, TimesOwed, TimesAsked, Times;
    TimesNone(r);
  }

  lemma SendAccounts(s: State, bytes: seq<byte>, r: seq<byte>, before: nat)
    requires Answering(s) && Balanced(s, r, before)
    ensures Accounts(s, Send(bytes), r, before)
  {
    hide TimesOwed, TimesAsked, Times, Answers;
    var w := Writing(s.unused, bytes);
    OwedConcat(s.tasks, [w], r);
    ReadOwesNothing(w, r);
    ReadAnswers(w);
    TimesNone(r);
  }

  /** The task goes on or ends without a write, and owes what it owed before. */
  lemma QuietReplies(s: State, i: nat, e: Effect)
    requires i < |s.tasks| && e.more == [] && e.received == [] && !e.t.Writing? && !e.t.Handling?
    requires Owed(s.tasks[i]) == []
    ensures Replying(s, i, e, WriteOf(e.t))
  {
    hide Asked;
  }

  lemma ArriveReplies(s: State, i: nat, bytes: seq<byte>)
    requires CanRead(s, i, |bytes|) && |bytes| == s.tasks[i].count
    ensures var e := ArriveEffect(s, s.tasks[i], bytes); Replying(s, i, e, WriteOf(e.t))
  {
    hide Asked;
  }

  lemma NextAccounts(s: State, a: Action, r: seq<byte>, before: nat)
    requires Inv(s) && Answering(s) && Balanced(s, r, before)
    ensures Accounts(s, a, r, before)
  {
    hide Inv, Answering, Balanced, Accounts, Piece, Replying, Asked;
    if Next(s, a) == s {
      NothingAccounts(s, a, r, before);
    } else {
      match a
      case Arrive(i, bytes) =>
        ArriveReplies(s, i, bytes);
        EffectAccounts(s, a, i, ArriveEffect(s, s.tasks[i], bytes), s.input + bytes, r, before);
      case Scribble(i, bytes) =>
        var b, o := s.tasks[i].buf, s.tasks[i].offset;
        var e := Keep(s.tasks[i], s.mem[b := s.mem[b][..o] + bytes + s.mem[b][o + |bytes|..]], s.unused);
        QuietReplies(s, i, e);
        EffectAccounts(s, a, i, e, s.input, r, before);
      case Break(i) =>
        var e := if s.tasks[i].Reading? then Stop(s.mem, s.unused) else Keep(Done, s.mem, s.unused);
        QuietReplies(s, i, e);
        EffectAccounts(s, a, i, e, s.input, r, before);
      case Go(i) =>
        if s.tasks[i].Ending? {
          QuietReplies(s, i, EndingEffect(s, s.tasks[i].id));
          EffectAccounts(s, a, i, EndingEffect(s, s.tasks[i].id), s.input, r, before);
        } else {
          PieceReplies(s, i);
          EffectAccounts(s, a, i, Piece(s.tasks[i], s.mem, s.unused), s.input, r, before);
        }
      case Sent(i) =>
        QuietReplies(s, i, Keep(Done, s.mem, s.unused));
        EffectAccounts(s, a, i, Keep(Done, s.mem, s.unused), s.input, r, before);
      case Send(bytes) => SendAccounts(s, bytes, r, before);
    }
  }

  lemma {:induction false} RunAccounts(s: State, actions: seq<Action>, r: seq<byte>, before: nat)
    requires Inv(s) && Answering(s) && Balanced(s, r, before)
    ensures Answering(Run(s, actions)) && Balanced(Run(s, actions), r, before + Times(AllStarted(s, actions), r))
    decreases actions
  {
    hide Inv, Answering, Balanced, Next, Started, Times;
    if actions == [] {
      TimesNone(r);
    } else {
      NextKeeps(s, actions[0]);
      NextAccounts(s, actions[0], r, before);
      var s1 := Next(s, actions[0]);
      RunAccounts(s1, actions[1..], r, before + Times(Started(s, actions[0]), r));
      TimesConcat(Started(s, actions[0]), AllStarted(s1, actions[1..]), r);
    }
  }

  lemma InitAccounts(connect: seq<byte>, r: seq<byte>)
    ensures Answering(Init(connect)) && Balanced(Init(connect), r, 0)
  {
    hide Times, TimesOwed, TimesAsked;
    ReadOwesNothing(Init(connect).tasks[0], r);
    NothingOwed(r);
  }

  // ---- the theorems

  /** In every reachable state each reply the received packets ask for has been started as a write or is owed by one
      handler, counted with multiplicity: none is left out, none is sent twice. */
  lemma EveryReplyOnce(connect: seq<byte>, actions: seq<Action>, r: seq<byte>)
    ensures var s := Run(Init(connect), actions);
      Times(AllStarted(Init(connect), actions), r) + TimesOwed(s.tasks, r) == TimesAsked(s.received, r)
  {
    hide Inv, Run, Init, AllStarted, TimesOwed, TimesAsked, Times, Answering;
    InitInv(connect);
    InitAccounts(connect, r);
    RunAccounts(Init(connect), actions, r, 0);
  }

  /** With no handler under way every reply asked for has been started, as often as it was asked for. */
  lemma AllRepliedWhenIdle(connect: seq<byte>, actions: seq<Action>, r: seq<byte>)
    requires forall t :: t in Run(Init(connect), actions).tasks ==> !t.Handling?
    ensures Times(AllStarted(Init(connect), actions), r) == TimesAsked(Run(Init(connect), actions).received, r)
  {
    hide Run, Init, AllStarted, TimesOwed, TimesAsked, Times;
    EveryReplyOnce(connect, actions, r);
    NoneOwed(Run(Init(connect), actions).tasks, r);
  }

  lemma {:induction false} NoneOwed(tasks: seq<Task>, r: seq<byte>)
    requires forall t :: t in tasks ==> !t.Handling?
    ensures TimesOwed(tasks, r) == 0
  {
    hide Asked;
    if tasks != [] {
      assert tasks[0] in tasks;
      NoneOwed(tasks[1..], r);
    }
  }

  /** A handler starts no other write: one that is new in a step is the reply to the packet its task was started for,
      laid into that packet's buffer. Only Send, from elsewhere in the client, starts another. */
  lemma OnlyRepliesAreWritten(connect: seq<byte>, actions: seq<Action>, a: Action, j: nat)
    requires var s := Run(Init(connect), actions);
      !a.Send? && j < |Next(s, a).tasks| && Next(s, a).tasks[j].Writing?
    ensures var s := Run(Init(connect), actions); var w := Next(s, a).tasks[j];
      && j < |s.tasks|
      && (s.tasks[j] != w ==>
            && a == Go(j) && s.tasks[j].Handling? && s.tasks[j].seen in s.received
            && Asked(s.tasks[j].seen) == [w.bytes]
            && w.buf == s.tasks[j].buf && w.buf in Next(s, a).mem && Next(s, a).mem[w.buf] == w.bytes)
  {
    hide Run, Init, Asked, Inv, Answering, Next;
    Reachable(connect, actions);
    InitAccounts(connect, []);
    InitInv(connect);
    RunAccounts(Init(connect), actions, [], 0);
    var s := Run(Init(connect), actions);
    if a.Go? {
      if a.i < |s.tasks| {
        NothingStuck(connect, actions, a.i);
      }
      GoWrites(s, a.i, j);
      NextKeeps(s, a);
      WriteIsIntact(Next(s, a), j);
    } else {
      OthersWriteNothing(s, a, j);
    }
  }

  lemma OthersWriteNothing(s: State, a: Action, j: nat)
    requires !a.Send? && !a.Go? && j < |Next(s, a).tasks| && Next(s, a).tasks[j].Writing?
    ensures j < |s.tasks| && s.tasks[j] == Next(s, a).tasks[j]
  {
  }

  lemma WriteIsIntact(s: State, j: nat)
    requires Inv(s) && j < |s.tasks| && s.tasks[j].Writing?
    ensures s.tasks[j].buf in s.mem && s.mem[s.tasks[j].buf] == s.tasks[j].bytes
  {
    hide Inv;
    ItsIntact(s, j);
  }

  lemma GoWrites(s: State, i: nat, j: nat)
    requires Inv(s) && Answering(s) && j < |Next(s, Go(i)).tasks| && Next(s, Go(i)).tasks[j].Writing?
    requires i < |s.tasks| && s.tasks[i].Handling? ==> s.tasks[i].buf in s.mem && s.mem[s.tasks[i].buf] != []
    ensures j < |s.tasks|
    ensures var t, w := s.tasks[j], Next(s, Go(i)).tasks[j];
      t != w ==> i == j && t.Handling? && t.seen in s.received && Asked(t.seen) == [w.bytes] && w.buf == t.buf
  {
    hide Inv, Answering, Asked, Piece, Replying, Whole, IdAt, IsAck;
    if i < |s.tasks| && s.tasks[i].Handling? {
      PieceReplies(s, i);
      PieceWrites(s, i);
      ItsIntact(s, i);
    }
  }

  lemma PieceWrites(s: State, i: nat)
    requires Inv(s) && Answering(s) && i < |s.tasks| && s.tasks[i].Handling?
    requires s.tasks[i].buf in s.mem && s.mem[s.tasks[i].buf] != []
    requires var e := Piece(s.tasks[i], s.mem, s.unused); Replying(s, i, e, WriteOf(e.t))
    ensures var t, e := s.tasks[i], Piece(s.tasks[i], s.mem, s.unused);
      && (e.more == [] || (|e.more| == 1 && e.more[0].Reading?))
      && (e.t.Writing? ==> IsOfReceived(t) && e.t.buf == t.buf && Asked(t.seen) == [e.t.bytes])
  {
    hide Inv, Answering, Piece, Asked;
  }
}
