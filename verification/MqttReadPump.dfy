/** The asynchronous read pump of MQTTClient: which operation owns which packet buffer, and what it reads. */
module MqttReadPump {
  import opened Bytes
  import opened MqttFraming

  datatype Stage = Head | LengthByte(offset: nat) | Body(lengthOffset: nat)

  /** Where a completion handler is. In `Parse` and `Answer` the next read has already been started. */
  datatype Pc =
    | Filled(stage: Stage)
    | Sized
    | Dispatch(lengthOffset: nat)
    | Parse(lengthOffset: nat)
    | Answer(lengthOffset: nat)

  /** Everything under way. `seen` is what the buffer held when its last read completed; it is kept for
      the proofs only, the handlers look at the buffer. */
  datatype Task =
    | Reading(buf: nat, offset: nat, count: nat, stage: Stage)      // an outstanding async_read
    | Handling(buf: nat, seen: seq<byte>, pc: Pc)                   // a handler that still needs the bytes
    | Writing(buf: nat, bytes: seq<byte>)                           // a pending async_write
    | Ending(id: nat, seen: seq<byte>, lengthOffset: nat)           // about to call EndTransaction
    | Done

  /** `mem` holds the buffers by number; `input` is what has arrived; `received` are the packets
      dispatched so far, and `done` what the handlers have done for them. */
  datatype State = State(
    tasks: seq<Task>, mem: map<nat, seq<byte>>, unused: nat, stopped: bool,
    input: seq<byte>, received: seq<seq<byte>>, done: seq<Duty>)

  /** What a packet asks for besides a reply: the message callback, or the end of a transaction. */
  datatype Duty = Deliver(m: seq<byte>) | EndId(id: nat) | Nothing

  datatype Action =
    | Arrive(i: nat, bytes: seq<byte>)       // read i completes
    | Scribble(i: nat, bytes: seq<byte>)     // the socket has filled part of what read i is to fill
    | Break(i: nat)                          // read or write i fails
    | Go(i: nat)                             // handler i runs on
    | Sent(i: nat)                           // write i completes
    | Send(bytes: seq<byte>)                 // another part of the client starts a write of its own

  /** When the CONNECT packet has been written its buffer starts the first read. */
  function Init(connect: seq<byte>): State {
    State([Reading(0, 0, 2, Head)], map[0 := Resize(connect, 2)], 1, false, [], [], [])
  }

  function Resize(m: seq<byte>, n: nat): (r: seq<byte>)
    ensures |r| == n && r[..Min(n, |m|)] == m[..Min(n, |m|)]
  {
    if n <= |m| then m[..n] else m + Repeat(0, n - |m|)
  }

  // ---- one piece of a handler

  /** What a piece does: its own entry goes on as `t`, and `more` are started. */
  datatype Effect = Effect(
    t: Task, more: seq<Task>, mem: map<nat, seq<byte>>, unused: nat, stop: bool,
    received: seq<seq<byte>>, done: seq<Duty>)

  function IdAt(m: seq<byte>, offset: nat): nat {
    if offset + 2 <= |m| then At16(m, offset) else 0
  }

  /** The identifier of a PUBLISH stands behind its topic. */
  function PublishId(m: seq<byte>, offset: nat): nat {
    if offset + 2 <= |m| then IdAt(m, StringEnd(m, offset)) else 0
  }

  /** What is sent back for packet `m`, if anything. */
  function Reply(m: seq<byte>, offset: nat): seq<byte>
    requires m != []
  {
    var t := MessageType(m[0]);
    if t == 3 then
      if Qos(m[0]) == 1 then Encode(Packet(4 << 4, Uint16(PublishId(m, offset) % 65536)))
      else if Qos(m[0]) == 2 then Encode(Packet(5 << 4, Uint16(PublishId(m, offset) % 65536)))
      else []
    else if t == 5 then Encode(Packet(6 << 4, Uint16(IdAt(m, offset) % 65536)))
    else if t == 6 then Encode(Packet(7 << 4, Uint16(IdAt(m, offset) % 65536)))
    else Encode(Packet(12 << 4, []))
  }

  function Keep(t: Task, mem: map<nat, seq<byte>>, unused: nat): Effect {
    Effect(t, [], mem, unused, false, [], [])
  }

  function Stop(mem: map<nat, seq<byte>>, unused: nat): Effect {
    Effect(Done, [], mem, unused, true, [], [])
  }

  /** The handler hands its buffer to the next read of the same packet. */
  function ReadOn(b: nat, offset: nat, count: nat, stage: Stage, mem: map<nat, seq<byte>>, unused: nat): Effect
    requires b in mem
  {
    Effect(Reading(b, offset, count, stage), [], mem[b := Resize(mem[b], offset + count)], unused, false, [], [])
  }

  /** onReadMQTTPacket with the handler's own buffer: the handler goes on without it. */
  function Rearm(t: Task, b: nat, mem: map<nat, seq<byte>>, unused: nat): Effect
    requires b in mem
  {
    Effect(t, [Reading(b, 0, 2, Head)], mem[b := Resize(mem[b], 2)], unused, false, [], [])
  }

  /** onStartReadMQTTPacket: the handler keeps its buffer. */
  function RearmUnused(t: Task, mem: map<nat, seq<byte>>, unused: nat): Effect {
    Effect(t, [Reading(unused, 0, 2, Head)], mem[unused := Resize([], 2)], unused + 1, false, [], [])
  }

  function Piece(t: Task, mem: map<nat, seq<byte>>, unused: nat): Effect
    requires t.Handling? && t.buf in mem && mem[t.buf] != []
  {
    var m := mem[t.buf];
    match t.pc
    case Filled(stage) =>
      var at := if stage.LengthByte? then stage.offset else 1;
      if at < |m| && More(m[at]) then ReadOn(t.buf, at + 1, 1, LengthByte(at + 1), mem, unused)
      else Keep(t.(pc := Sized), mem, unused)
    case Sized => SizedPiece(t, m, mem, unused)
    case Dispatch(offset) => DispatchPiece(t, m, offset, mem, unused)
    case Parse(offset) =>
      if MessageType(m[0]) == 3 then Keep(t.(pc := Answer(offset)), mem, unused).(done := [Deliver(m)])
      else SendReply(t.buf, Reply(m, offset), mem, unused)
    case Answer(offset) =>
      if Qos(m[0]) == 1 || Qos(m[0]) == 2 then SendReply(t.buf, Reply(m, offset), mem, unused)
      else Keep(Done, mem, unused)
  }

  function SizedPiece(t: Task, m: seq<byte>, mem: map<nat, seq<byte>>, unused: nat): Effect
    requires t.Handling? && t.buf in mem && m != []
  {
    var offset := Min(5, |m|);
    var n := Value(m[1..offset]);
    if n > MAX_MESSAGE_PAYLOAD then Stop(mem, unused)
    else if n > 0 then ReadOn(t.buf, |m|, n, Body(offset), mem, unused)
    else Keep(t.(pc := Dispatch(offset)), mem, unused).(received := [m])
  }

  /** PUBACK, PUBCOMP, SUBACK or UNSUBACK. */
  predicate IsAck(m: seq<byte>) {
    m != [] && MessageType(m[0]) in {4, 7, 9, 11}
  }

  /** The test of CONNACK: the first body byte counts as the return code. */
  predicate TakenAsAccepted(m: seq<byte>, offset: nat) {
    offset < |m| && m[offset] == 0
  }

  /** onReadMQTTPacketCompleted up to its first read. */
  function DispatchPiece(t: Task, m: seq<byte>, offset: nat, mem: map<nat, seq<byte>>, unused: nat): Effect
    requires t.Handling? && t.buf in mem && m != []
  {
    var kind := MessageType(m[0]);
    if kind == 2 then
      if TakenAsAccepted(m, offset) then Rearm(Done, t.buf, mem, unused) else Stop(mem, unused)
    else if kind == 3 || kind == 5 || kind == 6 || kind == 12 then RearmUnused(t.(pc := Parse(offset)), mem, unused)
    else if IsAck(m) then
      Rearm(Ending(IdAt(m, offset), t.seen, offset), t.buf, mem, unused)
    else if kind == 13 then Rearm(Done, t.buf, mem, unused)
    else Stop(mem, unused)
  }

  /** The reply is laid into the packet's own buffer and written from there. */
  function SendReply(b: nat, reply: seq<byte>, mem: map<nat, seq<byte>>, unused: nat): Effect {
    Effect(Writing(b, reply), [], mem[b := reply], unused, false, [], [])
  }

  // ---- the steps

  function Apply(s: State, i: nat, e: Effect): State
    requires i < |s.tasks|
  {
    State(s.tasks[i := e.t] + e.more, e.mem, e.unused, s.stopped || e.stop, s.input, s.received + e.received,
          s.done + e.done)
  }

  function ArriveEffect(s: State, r: Task, bytes: seq<byte>): Effect
    requires r.Reading? && r.buf in s.mem && |s.mem[r.buf]| == r.offset + r.count == r.offset + |bytes|
  {
    var m := s.mem[r.buf][..r.offset] + bytes;
    var mem := s.mem[r.buf := m];
    if r.stage.Body? then Keep(Handling(r.buf, m, Dispatch(r.stage.lengthOffset)), mem, s.unused).(received := [m])
    else Keep(Handling(r.buf, m, Filled(r.stage)), mem, s.unused)
  }

  /** The call of EndTransaction. */
  function EndingEffect(s: State, id: nat): Effect {
    Keep(Done, s.mem, s.unused).(done := [EndId(id)])
  }

  function Next(s: State, a: Action): State {
    match a
    case Arrive(i, bytes) =>
      if CanRead(s, i, |bytes|) && |bytes| == s.tasks[i].count then
        Apply(s, i, ArriveEffect(s, s.tasks[i], bytes)).(input := s.input + bytes)
      else s
    case Scribble(i, bytes) =>
      if CanRead(s, i, |bytes|) then
        var b, o := s.tasks[i].buf, s.tasks[i].offset;
        Apply(s, i, Keep(s.tasks[i], s.mem[b := s.mem[b][..o] + bytes + s.mem[b][o + |bytes|..]], s.unused))
      else s
    case Break(i) =>
      if i < |s.tasks| && s.tasks[i].Reading? then Apply(s, i, Stop(s.mem, s.unused))
      else if i < |s.tasks| && s.tasks[i].Writing? then Apply(s, i, Keep(Done, s.mem, s.unused))
      else s
    case Go(i) =>
      if i >= |s.tasks| then s
      else if s.tasks[i].Ending? then Apply(s, i, EndingEffect(s, s.tasks[i].id))
      else if s.tasks[i].Handling? && s.tasks[i].buf in s.mem && s.mem[s.tasks[i].buf] != [] then
        Apply(s, i, Piece(s.tasks[i], s.mem, s.unused))
      else s
    case Sent(i) => if i < |s.tasks| && s.tasks[i].Writing? then Apply(s, i, Keep(Done, s.mem, s.unused)) else s
    case Send(bytes) =>
      s.(tasks := s.tasks + [Writing(s.unused, bytes)], mem := s.mem[s.unused := bytes], unused := s.unused + 1)
  }

  predicate CanRead(s: State, i: nat, n: nat) {
    && i < |s.tasks| && s.tasks[i].Reading? && s.tasks[i].buf in s.mem
    && |s.mem[s.tasks[i].buf]| == s.tasks[i].offset + s.tasks[i].count && n <= s.tasks[i].count
  }

  function Run(s: State, actions: seq<Action>): State
    decreases actions
  {
    if actions == [] then s else Run(Next(s, actions[0]), actions[1..])
  }

  lemma RunsOn(s: State, a: Action, rest: seq<Action>)
    ensures Run(s, [a] + rest) == Run(Next(s, a), rest)
  {
    assert ([a] + rest)[1..] == rest;
  }

  lemma {:induction false} RunConcat(s: State, p: seq<Action>, q: seq<Action>)
    ensures Run(s, p + q) == Run(Run(s, p), q)
    decreases |p|
  {
    hide Next;
    if p == [] {
      assert p + q == q;
    } else {
      assert (p + q)[1..] == p[1..] + q;
      RunConcat(Next(s, p[0]), p[1..], q);
    }
  }

  lemma RunNone(s: State)
    ensures Run(s, []) == s
  {
  }

  // ---- who owns what

  predicate Owns(t: Task, b: nat) {
    (t.Reading? || t.Handling? || t.Writing?) && t.buf == b
  }

  function Owners(tasks: seq<Task>, b: nat): nat {
    if tasks == [] then 0 else (if Owns(tasks[0], b) then 1 else 0) + Owners(tasks[1..], b)
  }

  /** The right to have the next read: held by the outstanding read, or by the handler still to start it. */
  predicate Leads(t: Task) {
    t.Reading? || (t.Handling? && !t.pc.Parse? && !t.pc.Answer?)
  }

  function Leaders(tasks: seq<Task>): nat {
    if tasks == [] then 0 else (if Leads(tasks[0]) then 1 else 0) + Leaders(tasks[1..])
  }

  /** `m` is one whole packet, its body starting at `offset`. */
  predicate Whole(m: seq<byte>, offset: nat) {
    Receive(m) == Received(m, offset)
  }

  /** The bytes so far of the packet being read. */
  function Part(t: Task, mem: map<nat, seq<byte>>): seq<byte> {
    if t.Reading? && t.buf in mem && t.offset <= |mem[t.buf]| then mem[t.buf][..t.offset]
    else if t.Handling? && (t.pc.Filled? || t.pc.Sized?) then t.seen
    else []
  }

  /** What a read of the given stage may assume of the bytes before it. */
  predicate Prefix(m: seq<byte>, offset: nat, count: nat, stage: Stage) {
    match stage
    case Head => offset == 0 && count == 2
    case LengthByte(at) => |m| == offset == at >= 2 && count == 1 && forall k :: 1 <= k < at ==> More(m[k])
    case Body(lengthOffset) => |m| == offset && FieldClosed(m) && lengthOffset == Min(5, offset)
                               && count == Value(m[1..lengthOffset]) <= MAX_MESSAGE_PAYLOAD && count > 0
  }

  predicate FieldClosed(m: seq<byte>) {
    |m| >= 2 && FieldEnd(m, 1) == |m| - 1
  }

  predicate Intact(t: Task, mem: map<nat, seq<byte>>) {
    match t
    case Reading(b, offset, count, stage) =>
      b in mem && |mem[b]| == offset + count && Prefix(mem[b][..offset], offset, count, stage)
    case Handling(b, seen, pc) => b in mem && mem[b] == seen && Seen(seen, pc)
    case Writing(b, bytes) => b in mem && mem[b] == bytes
    case Ending(id, seen, offset) => IsAck(seen) && Whole(seen, offset) && id == IdAt(seen, offset)
    case Done => true
  }

  predicate Seen(m: seq<byte>, pc: Pc) {
    match pc
    case Filled(stage) =>
      if stage.Head? then |m| == 2
      else stage.LengthByte? && |m| == stage.offset + 1 >= 3 && forall k :: 1 <= k < stage.offset ==> More(m[k])
    case Sized => FieldClosed(m)
    case Dispatch(offset) => Whole(m, offset)
    case Parse(offset) => Whole(m, offset)
    case Answer(offset) => Whole(m, offset)
  }

  /** A task that works on a packet already dispatched. */
  predicate IsOfReceived(t: Task) {
    t.Ending? || (t.Handling? && !t.pc.Filled? && !t.pc.Sized?)
  }

  /** The packets dispatched are whole, and with the part being read they are all that has arrived. */
  ghost predicate Accounted(s: State) {
    && (forall m :: m in s.received ==> exists offset: nat :: Whole(m, offset))
    && Flatten(s.received) <= s.input
    && (forall t :: t in s.tasks && Leads(t) ==> s.input == Flatten(s.received) + Part(t, s.mem))
    && (forall t :: t in s.tasks && IsOfReceived(t) ==> t.seen in s.received)
  }

  ghost predicate Owned(s: State) {
    && Leaders(s.tasks) == (if s.stopped then 0 else 1)
    && (forall b: nat :: Owners(s.tasks, b) <= if b < s.unused then 1 else 0)
    && (forall t :: t in s.tasks ==> Intact(t, s.mem))
  }

  ghost predicate Inv(s: State) {
    Owned(s) && Accounted(s)
  }

  // ---- counting

  lemma {:induction false} OwnersConcat(p: seq<Task>, q: seq<Task>, b: nat)
    ensures Owners(p + q, b) == Owners(p, b) + Owners(q, b) && Leaders(p + q) == Leaders(p) + Leaders(q)
  {
    hide Owns, Leads;
    if p == [] {
      assert p + q == q;
    } else {
      assert (p + q)[1..] == p[1..] + q;
      OwnersConcat(p[1..], q, b);
    }
  }

  lemma OwnersOne(t: Task, b: nat)
    ensures Owners([t], b) == if Owns(t, b) then 1 else 0
    ensures Leaders([t]) == if Leads(t) then 1 else 0
  {
    hide Owns, Leads;
    assert [t][1..] == [];
  }

  lemma OwnersAt(p: seq<Task>, i: nat, b: nat)
    requires i < |p|
    ensures Owners(p, b) == Owners(p[..i], b) + (if Owns(p[i], b) then 1 else 0) + Owners(p[i + 1..], b)
    ensures Leaders(p) == Leaders(p[..i]) + (if Leads(p[i]) then 1 else 0) + Leaders(p[i + 1..])
  {
    hide Owns, Leads, Owners, Leaders;
    assert p == p[..i] + [p[i]] + p[i + 1..];
    OwnersConcat(p[..i] + [p[i]], p[i + 1..], b);
    OwnersConcat(p[..i], [p[i]], b);
    OwnersOne(p[i], b);
  }

  lemma OwnersUpdate(p: seq<Task>, i: nat, t: Task, b: nat)
    requires i < |p|
    ensures Owners(p[i := t], b) + (if Owns(p[i], b) then 1 else 0) == Owners(p, b) + if Owns(t, b) then 1 else 0
    ensures Leaders(p[i := t]) + (if Leads(p[i]) then 1 else 0) == Leaders(p) + if Leads(t) then 1 else 0
  {
    hide Owns, Leads, Owners, Leaders;
    OwnersAt(p, i, b);
    OwnersAt(p[i := t], i, b);
    assert p[i := t][..i] == p[..i] && p[i := t][i + 1..] == p[i + 1..];
  }

  lemma Among(p: seq<Task>, i: nat, b: nat)
    requires i < |p|
    ensures Owns(p[i], b) ==> Owners(p, b) >= 1
    ensures Leads(p[i]) ==> Leaders(p) >= 1
  {
    hide Owns, Leads, Owners, Leaders;
    OwnersAt(p, i, b);
  }

  /** Two different tasks never share a buffer, and never both lead. */
  lemma NotTwo(p: seq<Task>, i: nat, j: nat, b: nat)
    requires i < |p| && j < |p| && i != j
    ensures Owns(p[i], b) && Owns(p[j], b) ==> Owners(p, b) >= 2
    ensures Leads(p[i]) && Leads(p[j]) ==> Leaders(p) >= 2
  {
    hide Owns, Leads, Owners, Leaders;
    OwnersAt(p, i, b);
    if j < i {
      Among(p[..i], j, b);
    } else {
      Among(p[i + 1..], j - i - 1, b);
    }
  }

  // ---- one step

  /** What an effect must respect: no buffer and no lead out of nothing, other buffers untouched. */
  ghost predicate Fair(s: State, i: nat, e: Effect)
    requires i < |s.tasks|
  {
    && s.unused <= e.unused
    && (if e.stop then Leads(s.tasks[i]) && e.t == Done && e.more == []
        else Leaders([e.t] + e.more) == if Leads(s.tasks[i]) then 1 else 0)
    && (forall b: nat :: Owners([e.t] + e.more, b) <= if Owns(s.tasks[i], b) || s.unused <= b < e.unused then 1 else 0)
    && (forall b: nat :: b in s.mem && b < s.unused && !Owns(s.tasks[i], b) ==> b in e.mem && e.mem[b] == s.mem[b])
    && (forall t :: t in [e.t] + e.more ==> Intact(t, e.mem))
  }

  lemma BeforeAndAfter(s: State, i: nat, e: Effect, t: Task)
    requires i < |s.tasks| && t in Apply(s, i, e).tasks
    ensures t in [e.t] + e.more || exists j :: 0 <= j < |s.tasks| && j != i && t == s.tasks[j]
  {
  }

  /** Another task's buffer is untouched. */
  lemma OtherBuffer(s: State, i: nat, e: Effect, j: nat)
    requires Owned(s) && i < |s.tasks| && j < |s.tasks| && i != j && Fair(s, i, e)
    ensures Intact(s.tasks[j], e.mem) && Part(s.tasks[j], e.mem) == Part(s.tasks[j], s.mem)
  {
    hide Owners, Leaders, Seen, Prefix, Whole;
    var t := s.tasks[j];
    assert Intact(t, s.mem);
    if t.Reading? || t.Handling? || t.Writing? {
      assert Owns(t, t.buf);
      NotTwo(s.tasks, i, j, t.buf);
      Among(s.tasks, j, t.buf);
    }
  }

  lemma ApplyOwned(s: State, i: nat, e: Effect)
    requires Owned(s) && i < |s.tasks| && Fair(s, i, e)
    ensures Owned(Apply(s, i, e))
  {
    hide Owners, Leaders, Owns, Leads, Intact, Part;
    var s' := Apply(s, i, e);
    ApplyCounts(s, i, e, 0);
    Among(s.tasks, i, 0);
    assert e.stop ==> [e.t] + e.more == [Done];
    forall b: nat
      ensures Owners(s'.tasks, b) <= if b < s'.unused then 1 else 0
    {
      ApplyCounts(s, i, e, b);
      Among(s.tasks, i, b);
      assert Owners(s.tasks, b) <= if b < s.unused then 1 else 0;
      assert Owners([e.t] + e.more, b) <= if Owns(s.tasks[i], b) || s.unused <= b < e.unused then 1 else 0;
    }
    forall t | t in s'.tasks
      ensures Intact(t, s'.mem)
    {
      BeforeAndAfter(s, i, e, t);
      if t !in [e.t] + e.more {
        var j :| 0 <= j < |s.tasks| && j != i && t == s.tasks[j];
        OtherBuffer(s, i, e, j);
      }
    }
  }

  lemma ApplyCounts(s: State, i: nat, e: Effect, b: nat)
    requires i < |s.tasks|
    ensures var p, p' := s.tasks, Apply(s, i, e).tasks;
      && Owners(p', b) + (if Owns(p[i], b) then 1 else 0) == Owners(p, b) + Owners([e.t] + e.more, b)
      && Leaders(p') + (if Leads(p[i]) then 1 else 0) == Leaders(p) + Leaders([e.t] + e.more)
      && Leaders([Done]) == 0
  {
    hide Owners, Leaders, Owns;
    OwnersUpdate(s.tasks, i, e.t, b);
    OwnersConcat(s.tasks[i := e.t], e.more, b);
    OwnersConcat([e.t], e.more, b);
    OwnersOne(e.t, b);
    OwnersOne(Done, b);
  }

  /** What an effect must respect beyond that: packets whole, and no byte lost that has arrived. */
  ghost predicate Counted(s: State, i: nat, e: Effect, added: seq<byte>)
    requires i < |s.tasks|
  {
    && (forall m :: m in e.received ==> exists offset: nat :: Whole(m, offset))
    && (if Leads(s.tasks[i]) then
          && Flatten(e.received) <= Part(s.tasks[i], s.mem) + added
          && forall t :: t in [e.t] + e.more && Leads(t) ==>
               Part(s.tasks[i], s.mem) + added == Flatten(e.received) + Part(t, e.mem)
        else e.received == [] && added == [])
    && (forall t :: t in [e.t] + e.more && IsOfReceived(t) ==> t.seen in s.received + e.received)
  }

  lemma ApplyAccounted(s: State, i: nat, e: Effect, added: seq<byte>)
    requires Inv(s) && i < |s.tasks| && Fair(s, i, e) && Counted(s, i, e, added)
    ensures Accounted(Apply(s, i, e).(input := s.input + added))
  {
    hide Owners, Leaders, Owns, Leads, Part, Whole, Flatten, Intact, Seen;
    var s' := Apply(s, i, e).(input := s.input + added);
    FlattenConcat(s.received, e.received);
    FlattenNone<byte>([]);
    assert s.tasks[i] in s.tasks;
    forall t | t in s'.tasks && Leads(t)
      ensures s'.input == Flatten(s'.received) + Part(t, s'.mem)
    {
      LeaderAfter(s, i, e, added, t);
    }
    forall t | t in s'.tasks && IsOfReceived(t)
      ensures t.seen in s'.received
    {
      BeforeAndAfter(s, i, e, t);
    }
  }

  lemma LeaderAfter(s: State, i: nat, e: Effect, added: seq<byte>, t: Task)
    requires Inv(s) && i < |s.tasks| && Fair(s, i, e) && Counted(s, i, e, added)
    requires t in Apply(s, i, e).tasks && Leads(t)
    ensures s.input + added == Flatten(s.received + e.received) + Part(t, e.mem)
  {
    hide Owners, Leaders, Owns, Leads, Part, Whole, Flatten, Intact, Seen;
    FlattenConcat(s.received, e.received);
    FlattenNone<byte>([]);
    assert s.tasks[i] in s.tasks;
    if t in [e.t] + e.more {
      var k :| 0 <= k < |[e.t] + e.more| && ([e.t] + e.more)[k] == t;
      Among([e.t] + e.more, k, 0);
      var part := Part(s.tasks[i], s.mem);
      assert s.input + added == Flatten(s.received) + (part + added);
    } else {
      BeforeAndAfter(s, i, e, t);
      var j :| 0 <= j < |s.tasks| && j != i && t == s.tasks[j];
      NotTwo(s.tasks, i, j, 0);
      OtherBuffer(s, i, e, j);
      assert s.tasks[j] in s.tasks;
      assert s.received + e.received == s.received && s.input + added == s.input;
    }
  }

  lemma StepKeeps(s: State, i: nat, e: Effect, added: seq<byte>)
    requires Inv(s) && i < |s.tasks| && Fair(s, i, e) && Counted(s, i, e, added)
    ensures Inv(Apply(s, i, e).(input := s.input + added))
  {
    hide Owners, Leaders, Owns, Leads, Part, Whole, Flatten, Intact, Seen, Fair, Counted, Accounted;
    ApplyOwned(s, i, e);
    ApplyAccounted(s, i, e, added);
  }

  // ---- the length field and the whole packet, byte by byte

  lemma ClosedStays(m: seq<byte>, bytes: seq<byte>)
    requires FieldClosed(m)
    ensures FieldEnd(m + bytes, 1) == |m| - 1
  {
    hide More;
    FieldEndsAt(m + bytes, |m| - 1);
  }

  lemma EmptyIsWhole(m: seq<byte>)
    requires FieldClosed(m) && Value(m[1..Min(5, |m|)]) == 0
    ensures Whole(m, Min(5, |m|))
  {
    hide FieldEnd, Value;
    assert m[..|m|] == m;
  }

  lemma BodyIsWhole(m: seq<byte>, bytes: seq<byte>)
    requires FieldClosed(m) && |bytes| == Value(m[1..Min(5, |m|)]) <= MAX_MESSAGE_PAYLOAD
    ensures Whole(m + bytes, Min(5, |m|))
  {
    hide FieldEnd, Value, More;
    var all := m + bytes;
    ClosedStays(m, bytes);
    assert all[1..Min(5, |m|)] == m[1..Min(5, |m|)];
    assert all[..|all|] == all;
  }

  /** What follows a whole packet does not change how it is received. */
  lemma WholeThenMore(m: seq<byte>, offset: nat, tail: seq<byte>)
    requires Whole(m, offset)
    ensures Receive(m + tail) == Received(m, offset)
  {
    hide Value, More;
    var all := m + tail;
    var e := FieldEnd(m, 1);
    FieldEndsAt(all, e);
    assert all[1..Min(5, e + 1)] == m[1..Min(5, e + 1)];
    assert all[..|m|] == m;
  }

  // ---- every kind of step

  predicate SameBut(mem: map<nat, seq<byte>>, mem': map<nat, seq<byte>>, x: nat) {
    forall b: nat :: b in mem && b != x ==> b in mem' && mem'[b] == mem[b]
  }

  /** The entry goes on alone. */
  lemma FairOne(s: State, i: nat, e: Effect)
    requires Owned(s) && i < |s.tasks| && e.more == [] && e.unused == s.unused
    requires if e.stop then Leads(s.tasks[i]) && e.t == Done else Leads(e.t) == Leads(s.tasks[i])
    requires forall b: nat :: Owns(e.t, b) ==> Owns(s.tasks[i], b)
    requires e.mem == s.mem || exists x: nat :: Owns(s.tasks[i], x) && SameBut(s.mem, e.mem, x)
    requires Intact(e.t, e.mem)
    ensures Fair(s, i, e)
  {
    hide Owners, Leaders, Owns, Leads, Intact;
    assert [e.t] + e.more == [e.t];
    forall b: nat
      ensures Owners([e.t], b) <= if Owns(s.tasks[i], b) then 1 else 0
    {
      OwnersOne(e.t, b);
    }
    OwnersOne(e.t, 0);
  }

  /** The entry has started a read, in the buffer it gave up or in a new one. */
  lemma FairTwo(s: State, i: nat, e: Effect, x: nat)
    requires Owned(s) && i < |s.tasks| && e.more == [Reading(x, 0, 2, Head)] && s.unused <= e.unused && !e.stop
    requires Leads(s.tasks[i]) && !Leads(e.t)
    requires Owns(s.tasks[i], x) || s.unused <= x < e.unused
    requires forall b: nat :: Owns(e.t, b) ==> b != x && Owns(s.tasks[i], b)
    requires SameBut(s.mem, e.mem, x) && x in e.mem && |e.mem[x]| == 2 && Intact(e.t, e.mem)
    ensures Fair(s, i, e)
  {
    hide Owners, Leaders;
    var read := Reading(x, 0, 2, Head);
    assert Leads(read) && Intact(read, e.mem);
    forall b: nat
      ensures Owners([e.t] + e.more, b) <= if Owns(s.tasks[i], b) || s.unused <= b < e.unused then 1 else 0
    {
      OwnersConcat([e.t], e.more, b);
      OwnersOne(e.t, b);
      OwnersOne(read, b);
    }
    OwnersConcat([e.t], e.more, 0);
    OwnersOne(e.t, 0);
    OwnersOne(read, 0);
  }

  ghost predicate Keeps(s: State, i: nat, e: Effect, added: seq<byte>)
    requires i < |s.tasks|
  {
    Fair(s, i, e) && Counted(s, i, e, added)
  }

  lemma FilledPiece(s: State, i: nat)
    requires Inv(s) && i < |s.tasks| && s.tasks[i].Handling? && s.tasks[i].pc.Filled?
    requires s.tasks[i].buf in s.mem && s.mem[s.tasks[i].buf] != []
    ensures Keeps(s, i, Piece(s.tasks[i], s.mem, s.unused), [])
  {
    hide Owners, Leaders, More, Owned, Accounted;
    var t := s.tasks[i];
    ItsIntact(s, i);
    var e, m := Piece(t, s.mem, s.unused), s.mem[t.buf];
    if e.t.Reading? {
      assert e.mem[t.buf][..|m|] == m;
    } else {
      FieldEndsAt(m, |m| - 1);
    }
    assert Owns(t, t.buf);
    FairOne(s, i, e);
    assert Flatten<byte>([]) == [];
  }

  lemma ItsIntact(s: State, i: nat)
    requires Inv(s) && i < |s.tasks|
    ensures Intact(s.tasks[i], s.mem)
    ensures IsOfReceived(s.tasks[i]) ==> s.tasks[i].seen in s.received
  {
    hide Intact;
    assert s.tasks[i] in s.tasks;
  }

  lemma SizedKeeps(s: State, i: nat)
    requires Inv(s) && i < |s.tasks| && s.tasks[i].Handling? && s.tasks[i].pc.Sized?
    requires s.tasks[i].buf in s.mem && s.mem[s.tasks[i].buf] != []
    ensures Keeps(s, i, Piece(s.tasks[i], s.mem, s.unused), [])
  {
    hide Owners, Leaders, More, Owned, Accounted, Value, FieldEnd, Receive;
    var t := s.tasks[i];
    ItsIntact(s, i);
    var e, m := Piece(t, s.mem, s.unused), s.mem[t.buf];
    if e.t.Reading? {
      assert e.mem[t.buf][..|m|] == m;
    } else if e.t.Handling? {
      EmptyIsWhole(m);
      assert Whole(m, Min(5, |m|));
      FlattenOne(m);
      assert m + [] == m;
    }
    assert Owns(t, t.buf);
    FairOne(s, i, e);
    assert Flatten<byte>([]) == [];
  }

  lemma DispatchKeeps(s: State, i: nat)
    requires Inv(s) && i < |s.tasks| && s.tasks[i].Handling? && s.tasks[i].pc.Dispatch?
    requires s.tasks[i].buf in s.mem && s.mem[s.tasks[i].buf] != []
    ensures Keeps(s, i, Piece(s.tasks[i], s.mem, s.unused), [])
  {
    hide Inv, Keeps, Rearm, RearmUnused, Stop, Whole, IdAt, MessageType;
    var t, m := s.tasks[i], s.mem[s.tasks[i].buf];
    var offset := t.pc.lengthOffset;
    ItsIntact(s, i);
    StopKeeps(s, i);
    RearmKeeps(s, i, Done);
    if IsAck(m) {
      RearmKeeps(s, i, Ending(IdAt(m, offset), t.seen, offset));
    }
    RearmUnusedKeeps(s, i, t.(pc := Parse(offset)));
  }

  lemma StopKeeps(s: State, i: nat)
    requires Inv(s) && i < |s.tasks| && Leads(s.tasks[i])
    ensures Keeps(s, i, Stop(s.mem, s.unused), [])
  {
    hide Owners, Leaders, Accounted, Part;
    FairOne(s, i, Stop(s.mem, s.unused));
    assert Flatten<byte>([]) == [];
  }

  /** The handler gives its buffer to the next packet's read and goes on without it. */
  lemma RearmKeeps(s: State, i: nat, t: Task)
    requires Inv(s) && i < |s.tasks| && s.tasks[i].Handling? && s.tasks[i].pc.Dispatch? && s.tasks[i].buf in s.mem
    requires t.Done? || (t.Ending? && t.seen in s.received && Intact(t, s.mem))
    ensures Keeps(s, i, Rearm(t, s.tasks[i].buf, s.mem, s.unused), [])
  {
    hide Owners, Leaders, Accounted, Whole, IdAt, IsAck;
    var b := s.tasks[i].buf;
    assert Owns(s.tasks[i], b);
    InUse(s, i);
    FairTwo(s, i, Rearm(t, b, s.mem, s.unused), b);
    assert Flatten<byte>([]) == [];
  }

  /** The handler keeps its buffer, and the next packet is read into a new one. */
  lemma RearmUnusedKeeps(s: State, i: nat, t: Task)
    requires Inv(s) && i < |s.tasks| && s.tasks[i].Handling? && s.tasks[i].pc.Dispatch?
    requires t == s.tasks[i].(pc := Parse(s.tasks[i].pc.lengthOffset))
    ensures Keeps(s, i, RearmUnused(t, s.mem, s.unused), [])
  {
    hide Owners, Leaders, Accounted, Whole;
    ItsIntact(s, i);
    assert Owns(s.tasks[i], t.buf);
    InUse(s, i);
    FairTwo(s, i, RearmUnused(t, s.mem, s.unused), s.unused);
    assert Flatten<byte>([]) == [];
  }

  lemma InUse(s: State, i: nat)
    requires Owned(s) && i < |s.tasks|
    ensures forall b: nat :: Owns(s.tasks[i], b) ==> b < s.unused
  {
    hide Owns, Owners;
    forall b: nat | Owns(s.tasks[i], b)
      ensures b < s.unused
    {
      Among(s.tasks, i, b);
      assert Owners(s.tasks, b) <= if b < s.unused then 1 else 0;
    }
  }

  lemma ParseKeeps(s: State, i: nat)
    requires Inv(s) && i < |s.tasks| && s.tasks[i].Handling? && (s.tasks[i].pc.Parse? || s.tasks[i].pc.Answer?)
    requires s.tasks[i].buf in s.mem && s.mem[s.tasks[i].buf] != []
    ensures Keeps(s, i, Piece(s.tasks[i], s.mem, s.unused), [])
  {
    hide Owners, Leaders, Value, FieldEnd, Receive, Reply, MessageType, Qos, Owned, Accounted;
    var t := s.tasks[i];
    ItsIntact(s, i);
    var e := Piece(t, s.mem, s.unused);
    assert Owns(t, t.buf);
    FairOne(s, i, e);
  }

  lemma ArriveKeeps(s: State, i: nat, bytes: seq<byte>)
    requires Inv(s) && CanRead(s, i, |bytes|) && |bytes| == s.tasks[i].count
    ensures Keeps(s, i, ArriveEffect(s, s.tasks[i], bytes), bytes)
  {
    hide Owners, Leaders, More, Value, FieldEnd, Receive, Owned, Accounted;
    var r := s.tasks[i];
    ItsIntact(s, i);
    var e := ArriveEffect(s, r, bytes);
    var before := s.mem[r.buf][..r.offset];
    assert e.t.seen == before + bytes;
    assert Owns(r, r.buf);
    if r.stage.Body? {
      BodyIsWhole(before, bytes);
      assert Whole(before + bytes, r.stage.lengthOffset);
      FlattenOne(before + bytes);
      assert before + bytes + [] == before + bytes;
    } else {
      assert Flatten<byte>([]) == [];
    }
    FairOne(s, i, e);
  }

  lemma ScribbleKeeps(s: State, i: nat, bytes: seq<byte>)
    requires Inv(s) && CanRead(s, i, |bytes|)
    ensures var b, o := s.tasks[i].buf, s.tasks[i].offset;
      Keeps(s, i, Keep(s.tasks[i], s.mem[b := s.mem[b][..o] + bytes + s.mem[b][o + |bytes|..]], s.unused), [])
  {
    hide Owners, Leaders, Prefix, Owned, Accounted;
    var b, o := s.tasks[i].buf, s.tasks[i].offset;
    ItsIntact(s, i);
    var m := s.mem[b][..o] + bytes + s.mem[b][o + |bytes|..];
    assert m[..o] == s.mem[b][..o];
    assert Owns(s.tasks[i], b);
    FairOne(s, i, Keep(s.tasks[i], s.mem[b := m], s.unused));
    assert Flatten<byte>([]) == [];
  }

  /** A task that only comes to its end. */
  lemma EndKeeps(s: State, i: nat)
    requires Inv(s) && i < |s.tasks|
    ensures s.tasks[i].Reading? ==> Keeps(s, i, Stop(s.mem, s.unused), [])
    ensures s.tasks[i].Writing? ==> Keeps(s, i, Keep(Done, s.mem, s.unused), [])
    ensures s.tasks[i].Ending? ==> Keeps(s, i, EndingEffect(s, s.tasks[i].id), [])
  {
    hide Owners, Leaders, Owned, Accounted, Prefix;
    assert Flatten<byte>([]) == [];
    if s.tasks[i].Reading? {
      FairOne(s, i, Stop(s.mem, s.unused));
    } else if s.tasks[i].Writing? {
      FairOne(s, i, Keep(Done, s.mem, s.unused));
    } else if s.tasks[i].Ending? {
      FairOne(s, i, EndingEffect(s, s.tasks[i].id));
    }
  }

  lemma SendKeeps(s: State, bytes: seq<byte>)
    requires Inv(s)
    ensures Inv(Next(s, Send(bytes)))
  {
    hide Owners, Leaders, Whole, Seen, Prefix;
    var w := Writing(s.unused, bytes);
    var s' := Next(s, Send(bytes));
    forall b: nat
      ensures Owners(s'.tasks, b) <= if b < s'.unused then 1 else 0
    {
      OwnersConcat(s.tasks, [w], b);
      OwnersOne(w, b);
      assert Owners(s.tasks, b) <= if b < s.unused then 1 else 0;
    }
    OwnersConcat(s.tasks, [w], 0);
    OwnersOne(w, 0);
    forall i: nat | i < |s.tasks|
      ensures Intact(s.tasks[i], s'.mem) && Part(s.tasks[i], s'.mem) == Part(s.tasks[i], s.mem)
    {
      InUse(s, i);
      ItsIntact(s, i);
      var t := s.tasks[i];
      assert t.Reading? || t.Handling? || t.Writing? ==> Owns(t, t.buf);
    }
  }

  // ---- whole runs

  lemma PieceKeeps(s: State, i: nat)
    requires Inv(s) && i < |s.tasks| && s.tasks[i].Handling?
    requires s.tasks[i].buf in s.mem && s.mem[s.tasks[i].buf] != []
    ensures Keeps(s, i, Piece(s.tasks[i], s.mem, s.unused), [])
  {
    hide Inv, Keeps, Piece;
    match s.tasks[i].pc
    case Filled(_) => FilledPiece(s, i);
    case Sized => SizedKeeps(s, i);
    case Dispatch(_) => DispatchKeeps(s, i);
    case Parse(_) => ParseKeeps(s, i);
    case Answer(_) => ParseKeeps(s, i);
  }

  lemma KeepsStep(s: State, i: nat, e: Effect)
    requires Inv(s) && i < |s.tasks| && Keeps(s, i, e, [])
    ensures Inv(Apply(s, i, e))
  {
    hide Inv, Fair, Counted;
    StepKeeps(s, i, e, []);
    assert s.input + [] == s.input;
    assert Apply(s, i, e).(input := s.input + []) == Apply(s, i, e);
  }

  lemma NextKeeps(s: State, a: Action)
    requires Inv(s)
    ensures Inv(Next(s, a))
  {
    hide Inv, Keeps, Piece, ArriveEffect, Apply, Keep, Stop, EndingEffect;
    match a
    case Arrive(i, bytes) =>
      if CanRead(s, i, |bytes|) && |bytes| == s.tasks[i].count {
        ArriveKeeps(s, i, bytes);
        KeepsArrive(s, i, bytes);
      }
    case Scribble(i, bytes) =>
      if CanRead(s, i, |bytes|) {
        ScribbleKeeps(s, i, bytes);
        var b, o := s.tasks[i].buf, s.tasks[i].offset;
        KeepsStep(s, i, Keep(s.tasks[i], s.mem[b := s.mem[b][..o] + bytes + s.mem[b][o + |bytes|..]], s.unused));
      }
    case Break(i) =>
      if i < |s.tasks| {
        EndKeeps(s, i);
        if s.tasks[i].Reading? {
          KeepsStep(s, i, Stop(s.mem, s.unused));
        } else if s.tasks[i].Writing? {
          KeepsStep(s, i, Keep(Done, s.mem, s.unused));
        }
      }
    case Go(i) =>
      if i < |s.tasks| {
        if s.tasks[i].Ending? {
          EndKeeps(s, i);
          KeepsStep(s, i, EndingEffect(s, s.tasks[i].id));
        } else if s.tasks[i].Handling? && s.tasks[i].buf in s.mem && s.mem[s.tasks[i].buf] != [] {
          PieceKeeps(s, i);
          KeepsStep(s, i, Piece(s.tasks[i], s.mem, s.unused));
        }
      }
    case Sent(i) =>
      if i < |s.tasks| && s.tasks[i].Writing? {
        EndKeeps(s, i);
        KeepsStep(s, i, Keep(Done, s.mem, s.unused));
      }
    case Send(bytes) => SendKeeps(s, bytes);
  }

  lemma KeepsArrive(s: State, i: nat, bytes: seq<byte>)
    requires Inv(s) && CanRead(s, i, |bytes|) && |bytes| == s.tasks[i].count
    requires Keeps(s, i, ArriveEffect(s, s.tasks[i], bytes), bytes)
    ensures Inv(Apply(s, i, ArriveEffect(s, s.tasks[i], bytes)).(input := s.input + bytes))
  {
    hide Inv, Fair, Counted, ArriveEffect;
    StepKeeps(s, i, ArriveEffect(s, s.tasks[i], bytes), bytes);
  }

  lemma InitInv(connect: seq<byte>)
    ensures Inv(Init(connect))
  {
    var s := Init(connect);
    forall b: nat
      ensures Owners(s.tasks, b) <= if b < s.unused then 1 else 0
    {
      OwnersOne(s.tasks[0], b);
    }
    OwnersOne(s.tasks[0], 0);
    assert Flatten(s.received) == [];
  }

  lemma {:induction false} RunKeeps(s: State, actions: seq<Action>)
    requires Inv(s)
    ensures Inv(Run(s, actions))
    decreases actions
  {
    hide Inv, Next;
    if actions != [] {
      NextKeeps(s, actions[0]);
      RunKeeps(Next(s, actions[0]), actions[1..]);
    }
  }

  lemma Reachable(connect: seq<byte>, actions: seq<Action>)
    ensures Inv(Run(Init(connect), actions))
  {
    hide Inv;
    InitInv(connect);
    RunKeeps(Init(connect), actions);
  }

  /** In every reachable state there is at most one outstanding read, and no buffer belongs to two of the
      reads, the handlers that still need their bytes and the pending writes. */
  lemma OneReadOneOwner(connect: seq<byte>, actions: seq<Action>, i: nat, j: nat)
    requires var s := Run(Init(connect), actions); i < |s.tasks| && j < |s.tasks| && i != j
    ensures var s := Run(Init(connect), actions);
      && !(s.tasks[i].Reading? && s.tasks[j].Reading?)
      && forall b: nat :: !(Owns(s.tasks[i], b) && Owns(s.tasks[j], b))
  {
    hide Run, Init, Owns, Owners, Leaders;
    Reachable(connect, actions);
    var s := Run(Init(connect), actions);
    forall b: nat
      ensures !(Owns(s.tasks[i], b) && Owns(s.tasks[j], b))
    {
      NotTwo(s.tasks, i, j, b);
      assert Owners(s.tasks, b) <= if b < s.unused then 1 else 0;
    }
    NotTwo(s.tasks, i, j, 0);
  }

  /** Until the pump stops, it is never lost: exactly one task is the next read or will start it. */
  lemma PumpGoesOn(connect: seq<byte>, actions: seq<Action>)
    requires !Run(Init(connect), actions).stopped
    ensures var s := Run(Init(connect), actions);
      && (exists i :: 0 <= i < |s.tasks| && Leads(s.tasks[i]))
      && forall i, j :: 0 <= i < j < |s.tasks| ==> !(Leads(s.tasks[i]) && Leads(s.tasks[j]))
  {
    hide Run, Init, Leads, Leaders, Owners;
    Reachable(connect, actions);
    var s := Run(Init(connect), actions);
    SomeLeader(s.tasks);
    forall i, j | 0 <= i < j < |s.tasks|
      ensures !(Leads(s.tasks[i]) && Leads(s.tasks[j]))
    {
      NotTwo(s.tasks, i, j, 0);
    }
  }

  lemma {:induction false} SomeLeader(p: seq<Task>)
    requires Leaders(p) > 0
    ensures exists i :: 0 <= i < |p| && Leads(p[i])
  {
    hide Leads;
    if !Leads(p[0]) {
      SomeLeader(p[1..]);
      var i :| 0 <= i < |p[1..]| && Leads(p[1..][i]);
      assert Leads(p[i + 1]);
    }
  }

  /** And nothing under way is ever blocked by its own buffer: a read can take its bytes, a handler finds
      the bytes its last read left. */
  lemma NothingStuck(connect: seq<byte>, actions: seq<Action>, i: nat)
    requires i < |Run(Init(connect), actions).tasks|
    ensures var s := Run(Init(connect), actions); var t := s.tasks[i];
      && (t.Reading? ==> CanRead(s, i, t.count))
      && (t.Handling? ==> t.buf in s.mem && s.mem[t.buf] == t.seen != [])
      && (t.Writing? ==> t.buf in s.mem && s.mem[t.buf] == t.bytes)
  {
    hide Run, Init, Owned, Accounted;
    Reachable(connect, actions);
    ItsIntact(Run(Init(connect), actions), i);
  }

  /** Whatever the next read is doing meanwhile, a packet's handler answers that packet: its reply goes
      out of the packet's own buffer, with its identifier. */
  lemma ReplyIsToOwnPacket(connect: seq<byte>, actions: seq<Action>, i: nat)
    requires var s := Run(Init(connect), actions);
      && i < |s.tasks| && s.tasks[i].Handling? && Next(s, Go(i)).tasks[i].Writing?
    ensures var s := Run(Init(connect), actions); var t := s.tasks[i];
      && t.seen != [] && t.seen in s.received && (t.pc.Parse? || t.pc.Answer?)
      && Next(s, Go(i)).tasks[i] == Writing(t.buf, Reply(t.seen, t.pc.lengthOffset))
      && Whole(t.seen, t.pc.lengthOffset)
  {
    hide Run, Init, Owned, Accounted, Reply, MessageType, Qos, Value, FieldEnd;
    Reachable(connect, actions);
    ItsIntact(Run(Init(connect), actions), i);
  }

  /** The packet type of the reply to `m`: PUBACK or PUBREC, PUBREL, PUBCOMP; and a PINGREQ for a PINGREQ,
      where section 3.12.4 of MQTT 3.1.1 asks for a PINGRESP. */
  function ReplyType(m: seq<byte>): byte
    requires m != []
  {
    var t := MessageType(m[0]);
    if t == 3 then (if Qos(m[0]) == 1 then 4 else 5) else if t == 5 then 6 else if t == 6 then 7 else 12
  }

  /** Cut out of the stream by the peer, a reply is one packet of the right type, with the identifier of the
      packet it answers. */
  lemma ReplyNamesItsPacket(m: seq<byte>, offset: nat, tail: seq<byte>)
    requires m != [] && Whole(m, offset) && (MessageType(m[0]) == 3 ==> Qos(m[0]) == 1 || Qos(m[0]) == 2)
    requires MessageType(m[0]) == 3 || MessageType(m[0]) == 5 || MessageType(m[0]) == 6 || MessageType(m[0]) == 12
    ensures var r := Reply(m, offset);
      && Receive(r + tail) == Received(r, 2) && MessageType(r[0]) == ReplyType(m)
      && if MessageType(m[0]) == 12 then |r| == 2
         else |r| == 4 && At16(r, 2) == if MessageType(m[0]) == 3 then PublishId(m, offset) else IdAt(m, offset)
  {
    hide Receive, Uint16, At16, MessageType, Qos;
    if MessageType(m[0]) == 12 {
      ReplyIsPacket(12, [], tail);
    } else {
      var id := if MessageType(m[0]) == 3 then PublishId(m, offset) else IdAt(m, offset);
      At16Bound(m, offset);
      if offset + 2 <= |m| {
        At16Bound(m, StringEnd(m, offset));
      }
      ReplyIsPacket(ReplyType(m), Uint16(id), tail);
      var r := Encode(Packet(ReplyType(m) << 4, Uint16(id)));
      Uint16RoundTrip(r[..2], id, []);
      assert r == r[..2] + Uint16(id) + [];
    }
  }

  lemma At16Bound(m: seq<byte>, offset: nat)
    ensures IdAt(m, offset) < 65536
  {
  }

  lemma ReplyIsPacket(t: byte, body: seq<byte>, tail: seq<byte>)
    requires t < 16 && |body| <= 2
    ensures var r := Encode(Packet(t << 4, body));
      Receive(r + tail) == Received(r, 2) && MessageType(r[0]) == t && |r| == 2 + |body| && r[2..] == body
  {
    hide Receive;
    EncodedIsReceived(Packet(t << 4, body), tail);
  }

  /** The identifier that is acknowledged is the one the PUBLISH carries. */
  lemma PublishIdIsParsed(m: seq<byte>, offset: nat)
    requires m != [] && Readable(m, offset, Qos(m[0])) && Qos(m[0]) > 0
    ensures PublishId(m, offset) == ParsePublish(m, offset, Qos(m[0])).id
  {
  }

  /** A well-formed CONNACK: session present, return code (section 3.2 of MQTT 3.1.1). */
  function Connack(sessionPresent: byte, returnCode: byte): seq<byte> {
    [0x20, 2, sessionPresent, returnCode]
  }

  /** Read as one packet, it goes on or stops the pump by its session-present flag alone. */
  lemma ConnackJudged(t: Task, mem: map<nat, seq<byte>>, unused: nat, sessionPresent: byte, returnCode: byte)
    requires t.Handling? && t.pc == Dispatch(2) && t.buf in mem && mem[t.buf] == Connack(sessionPresent, returnCode)
    ensures Whole(Connack(sessionPresent, returnCode), 2)
    ensures Piece(t, mem, unused).stop <==> sessionPresent != 0
  {
    hide Receive;
    ConnackIsWhole(sessionPresent, returnCode);
    ConnackType();
  }

  lemma ConnackType()
    ensures MessageType(0x20) == 2
  {
  }

  lemma ConnackIsWhole(sessionPresent: byte, returnCode: byte)
    ensures Whole(Connack(sessionPresent, returnCode), 2)
  {
    hide Receive;
    TwoIsADigit();
    var p := Packet(0x20, [sessionPresent, returnCode]);
    EncodedIsReceived(p, []);
    assert Encode(p) == Connack(sessionPresent, returnCode) == Encode(p) + [];
  }

  lemma TwoIsADigit()
    ensures Digits(2) == [2]
  {
  }

  /** So the client judges the server's answer right exactly if the flag is clear just when the return code is
      0, the one that accepts; it takes a refusal (code 5, not authorised) for a connection, and drops one
      that resumes a session. */
  lemma ConnackRightIff(t: Task, mem: map<nat, seq<byte>>, unused: nat, sessionPresent: byte, returnCode: byte)
    requires t.Handling? && t.pc == Dispatch(2) && t.buf in mem && mem[t.buf] == Connack(sessionPresent, returnCode)
    ensures (Piece(t, mem, unused).stop <==> returnCode != 0) <==> (sessionPresent == 0 <==> returnCode == 0)
    ensures sessionPresent == 0 && returnCode == 5 ==> !Piece(t, mem, unused).stop
    ensures sessionPresent == 1 && returnCode == 0 ==> Piece(t, mem, unused).stop
  {
    hide Piece;
    ConnackJudged(t, mem, unused, sessionPresent, returnCode);
  }

  /** A packet that ends the connection: a CONNACK whose first body byte is not 0 or is missing, or a packet that is
      none of PUBLISH, PUBACK, PUBREC, PUBREL, PUBCOMP, SUBACK, UNSUBACK, PINGREQ and PINGRESP. */
  predicate Refused(m: seq<byte>, offset: nat) {
    m != [] && if m[0] >> 4 == 2 then offset >= |m| || m[offset] != 0 else m[0] >> 4 !in {3, 4, 5, 6, 7, 9, 11, 12, 13}
  }

  /** The pump is stopped by exactly three things: a read that fails, a length over the limit, and such a packet. */
  lemma StopsIff(s: State, a: Action)
    requires Inv(s) && !s.stopped
    ensures Next(s, a).stopped <==>
      && !a.Send? && a.i < |s.tasks|
      && var t := s.tasks[a.i];
      || (a.Break? && t.Reading?)
      || (a.Go? && t.Handling? && t.pc.Sized? && Value(t.seen[1..Min(5, |t.seen|)]) > MAX_MESSAGE_PAYLOAD)
      || (a.Go? && t.Handling? && t.pc.Dispatch? && Refused(t.seen, t.pc.lengthOffset))
  {
    hide Inv, Whole, IdAt, Reply, Value, More, Resize;
    if !a.Send? && a.i < |s.tasks| {
      ItsIntact(s, a.i);
    }
  }

  /** The flags a packet type must carry: 2 for PUBREL (section 3.6.1), else 0. */
  function RequiredFlags(messageType: byte): byte {
    if messageType == 6 then 2 else 0
  }

  /** The replies have no flags, so that every PUBREL, and only it, goes out with wrong ones; and a reply is of
      the type the standard asks for except to PINGREQ, which section 3.12.4 answers by PINGRESP (13). */
  lemma ReplyRightIff(m: seq<byte>, offset: nat)
    requires m != [] && (MessageType(m[0]) == 3 ==> Qos(m[0]) == 1 || Qos(m[0]) == 2)
    requires MessageType(m[0]) in {3, 5, 6, 12}
    ensures Reply(m, offset) != [] && Reply(m, offset)[0] & 0x0F == 0
    ensures var r := Reply(m, offset);
      && (r[0] & 0x0F == RequiredFlags(MessageType(r[0])) <==> MessageType(m[0]) != 5)
      && (MessageType(r[0]) == RequiredReply(m) <==> MessageType(m[0]) != 12)
  {
    hide Qos, Digits, Uint16, PublishId, IdAt;
    HeaderOf(ReplyType(m));
  }

  function RequiredReply(m: seq<byte>): byte
    requires m != []
  {
    if MessageType(m[0]) == 12 then 13 else ReplyType(m)
  }

  lemma HeaderOf(t: byte)
    requires t < 16
    ensures (t << 4) & 0x0F == 0 && MessageType(t << 4) == t
  {
  }

  /** An acknowledgement ends the transaction its packet names, though the buffer has been given up. */
  lemma EndsOwnTransaction(connect: seq<byte>, actions: seq<Action>, i: nat)
    requires var s := Run(Init(connect), actions); i < |s.tasks| && s.tasks[i].Ending?
    ensures var s := Run(Init(connect), actions); var t := s.tasks[i];
      && t.seen in s.received && IsAck(t.seen)
      && Whole(t.seen, t.lengthOffset) && t.id == IdAt(t.seen, t.lengthOffset)
  {
    hide Run, Init, Owned, Accounted, Whole, IdAt, IsAck;
    Reachable(connect, actions);
    ItsIntact(Run(Init(connect), actions), i);
  }

  // ---- the pump reads what the framing says

  function AsPacket(m: seq<byte>): Packet {
    match Receive(m)
    case Received(buffer, offset) => Packet(buffer[0], buffer[offset..])
    case Failed(_) => Packet(0, [])
  }

  function AsPackets(received: seq<seq<byte>>): seq<Packet> {
    if received == [] then [] else [AsPacket(received[0])] + AsPackets(received[1..])
  }

  ghost predicate Complete(m: seq<byte>) {
    exists offset: nat :: Whole(m, offset)
  }

  lemma WholeReadAll(m: seq<byte>, after: seq<byte>)
    requires Complete(m)
    ensures ReadAll(m + after) == [AsPacket(m)] + ReadAll(after)
  {
    hide Receive, ReadAll;
    var offset: nat :| Whole(m, offset);
    WholeThenMore(m, offset, after);
    ReadOne(m, offset, after);
  }

  lemma ReadOne(m: seq<byte>, offset: nat, after: seq<byte>)
    requires Receive(m + after) == Received(m, offset) == Receive(m)
    ensures ReadAll(m + after) == [AsPacket(m)] + ReadAll(after)
  {
    hide Finish, FieldEnd;
    assert (m + after)[|m|..] == after;
  }

  lemma {:induction false} WholesReadAll(received: seq<seq<byte>>, tail: seq<byte>)
    requires forall m :: m in received ==> Complete(m)
    ensures ReadAll(Flatten(received) + tail) == AsPackets(received) + ReadAll(tail)
  {
    hide Receive, AsPacket, ReadAll, Complete;
    if received == [] {
      assert Flatten(received) + tail == tail;
    } else {
      var m, rest := received[0], received[1..];
      assert received == [m] + rest;
      WholesReadAll(rest, tail);
      WholeReadAll(m, Flatten(rest) + tail);
      assert Flatten(received) == m + Flatten(rest);
      assert m + Flatten(rest) + tail == m + (Flatten(rest) + tail);
    }
  }

  /** While a read is outstanding the bytes before it are no whole packet. */
  lemma PartIsNoPacket(s: State, i: nat)
    requires Inv(s) && i < |s.tasks| && s.tasks[i].Reading?
    ensures ReadAll(Part(s.tasks[i], s.mem)) == []
  {
    hide Owned, Accounted, More, Value;
    ItsIntact(s, i);
    var t := s.tasks[i];
    var m := Part(t, s.mem);
    if t.stage.Body? {
      assert FieldEnd(m, 1) == |m| - 1;
    } else if t.stage.LengthByte? {
      AllMore(m);
    }
  }

  lemma AllMore(m: seq<byte>)
    requires |m| >= 2 && forall k :: 1 <= k < |m| ==> More(m[k])
    ensures FieldEnd(m, 1) == |m|
  {
    hide More;
  }

  /** In every reachable state the packets dispatched are the first ones of the byte stream as section
      2.2 cuts it, in order and without a gap; while a read is outstanding they are all of them. */
  lemma PumpReadsTheStream(connect: seq<byte>, actions: seq<Action>)
    ensures var s := Run(Init(connect), actions);
      && AsPackets(s.received) <= ReadAll(s.input)
      && ((exists t :: t in s.tasks && t.Reading?) ==> AsPackets(s.received) == ReadAll(s.input))
  {
    hide Run, Init, Owned, ReadAll, Receive, Whole;
    Reachable(connect, actions);
    var s := Run(Init(connect), actions);
    assert forall m :: m in s.received ==> Complete(m);
    var tail := s.input[|Flatten(s.received)|..];
    assert s.input == Flatten(s.received) + tail;
    WholesReadAll(s.received, tail);
    if t :| t in s.tasks && t.Reading? {
      var i :| 0 <= i < |s.tasks| && s.tasks[i] == t;
      PartIsNoPacket(s, i);
      assert tail == Part(t, s.mem);
    }
  }

  // ---- the handlers as code

  class ReadPump {
    var tasks: seq<Task>
    var mem: map<nat, seq<byte>>
    var unused: nat
    var stopped: bool
    ghost var input: seq<byte>
    ghost var received: seq<seq<byte>>
    ghost var done: seq<Duty>

    ghost function Now(): State
      reads this
    {
      State(tasks, mem, unused, stopped, input, received, done)
    }

    constructor (connect: seq<byte>)
      ensures Now() == Init(connect)
    {
      tasks, mem, unused, stopped := [Reading(0, 0, 2, Head)], map[0 := Resize(connect, 2)], 1, false;
      input, received, done := [], [], [];
    }

    /** Handler `i` is at `pc` and finds its buffer. */
    ghost predicate Ready(i: nat)
      reads this
    {
      i < |tasks| && tasks[i].Handling? && tasks[i].buf in mem && mem[tasks[i].buf] != []
    }

    /** Resize a buffer and start a read into its end. */
    method StartRead(b: nat, offset: nat, count: nat)
      requires b in mem
      modifies this`mem
      ensures mem == old(mem)[b := Resize(old(mem)[b], offset + count)]
    {
      mem := mem[b := Resize(mem[b], offset + count)];
    }

    /** The handlers of onReadMQTTPacket and onReadMQTTPacketLength. */
    method OnLengthByte(i: nat)
      requires Ready(i) && tasks[i].pc.Filled?
      modifies this
      ensures Now() == Next(old(Now()), Go(i))
    {
      hide More;
      var t := tasks[i];
      var at := if t.pc.stage.LengthByte? then t.pc.stage.offset else 1;
      if at < |mem[t.buf]| && More(mem[t.buf][at]) {
        StartRead(t.buf, at + 1, 1);
        tasks := tasks[i := Reading(t.buf, at + 1, 1, LengthByte(at + 1))];
      } else {
        tasks := tasks[i := t.(pc := Sized)];
      }
    }

    method OnReadMQTTPacketLengthCompleted(i: nat)
      requires Ready(i) && tasks[i].pc.Sized?
      modifies this
      ensures Now() == Next(old(Now()), Go(i))
    {
      hide Value, Min;
      var t := tasks[i];
      var buffer := mem[t.buf];
      var lengthOffset := Min(5, |buffer|);
      FieldBounds(|buffer|);
      var length := Value(buffer[1..lengthOffset]);
      if length > MAX_MESSAGE_PAYLOAD {
        stopped := true;
        tasks := tasks[i := Done];
      } else if length > 0 {
        StartRead(t.buf, |buffer|, length);
        tasks := tasks[i := Reading(t.buf, |buffer|, length, Body(lengthOffset))];
      } else {
        tasks := tasks[i := t.(pc := Dispatch(lengthOffset))];
        received := received + [buffer];
      }
    }

    /** onReadMQTTPacket with the handler's own buffer; the handler goes on as `t`, or ends. */
    method RearmOwn(i: nat, t: Task)
      requires Ready(i)
      modifies this
      ensures Now() == Apply(old(Now()), i, Rearm(t, old(tasks[i].buf), old(mem), old(unused)))
    {
      var b := tasks[i].buf;
      StartRead(b, 0, 2);
      tasks := tasks[i := t] + [Reading(b, 0, 2, Head)];
    }

    /** onStartReadMQTTPacket. */
    method RearmNew(i: nat, t: Task)
      requires Ready(i)
      modifies this
      ensures Now() == Apply(old(Now()), i, RearmUnused(t, old(mem), old(unused)))
    {
      var b := unused;
      mem := mem[b := []];
      StartRead(b, 0, 2);
      assert mem == old(mem)[b := Resize([], 2)];
      tasks, unused := tasks[i := t] + [Reading(b, 0, 2, Head)], b + 1;
    }

    /** Disconnect(true) out of a read handler. */
    method StopPump(i: nat)
      requires Ready(i)
      modifies this
      ensures Now() == Apply(old(Now()), i, Stop(old(mem), old(unused)))
    {
      stopped := true;
      tasks := tasks[i := Done];
    }

    /** onReadMQTTPacketCompleted up to the next read it starts, before or after it has used the bytes. */
    method OnReadMQTTPacketCompleted(i: nat)
      requires Ready(i) && tasks[i].pc.Dispatch?
      modifies this
      ensures Now() == Next(old(Now()), Go(i))
    {
      hide MessageType, IdAt, IsAck, TakenAsAccepted, Apply, Rearm, RearmUnused, Stop;
      var t := tasks[i];
      var buffer, offset := mem[t.buf], t.pc.lengthOffset;
      var kind := MessageType(buffer[0]);
      if kind == 2 {
        if TakenAsAccepted(buffer, offset) {
          RearmOwn(i, Done);
        } else {
          StopPump(i);
        }
      } else if kind == 3 || kind == 5 || kind == 6 || kind == 12 {
        RearmNew(i, t.(pc := Parse(offset)));
      } else if IsAck(buffer) {
        RearmOwn(i, Ending(IdAt(buffer, offset), t.seen, offset));
      } else if kind == 13 {
        RearmOwn(i, Done);
      } else {
        StopPump(i);
      }
    }

    /** The rest of the cases that still need their bytes: the message callback, then the reply in place. */
    method AfterNextReadStarted(i: nat)
      requires Ready(i) && (tasks[i].pc.Parse? || tasks[i].pc.Answer?)
      modifies this
      ensures Now() == Next(old(Now()), Go(i))
    {
      hide MessageType, Qos, Reply;
      var t := tasks[i];
      var buffer, offset := mem[t.buf], t.pc.lengthOffset;
      if t.pc.Parse? && MessageType(buffer[0]) == 3 {
        done := done + [Deliver(buffer)];
        tasks := tasks[i := t.(pc := Answer(offset))];
      } else if t.pc.Parse? || Qos(buffer[0]) == 1 || Qos(buffer[0]) == 2 {
        var reply := Reply(buffer, offset);
        mem := mem[t.buf := reply];
        tasks := tasks[i := Writing(t.buf, reply)];
      } else {
        tasks := tasks[i := Done];
      }
    }
  }

  lemma FieldBounds(size: nat)
    requires size > 0
    ensures 1 <= Min(5, size) <= size
  {
  }
}
