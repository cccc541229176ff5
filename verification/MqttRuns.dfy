/** Runs of the read pump, byte by byte: a packet is read into its buffer and dispatched. */
module MqttRuns {
  import opened Bytes
  import opened MqttFraming
  import opened MqttReadPump
  import opened MqttDuties

  /** At a state whose task `i` is to read a packet's head. */
  predicate AtHead(s: State, i: nat) {
    && i < |s.tasks| && s.tasks[i].Reading? && s.tasks[i] == Reading(s.tasks[i].buf, 0, 2, Head)
    && s.tasks[i].buf in s.mem && |s.mem[s.tasks[i].buf]| == 2 && s.tasks[i].buf < s.unused
  }

  /** A length field of the one byte `n`, for a body of `count` bytes. */
  predicate OneByteLength(n: byte, count: nat) {
    !More(n) && Value([n]) == count && 0 < count <= MAX_MESSAGE_PAYLOAD
  }

  /** Only task `i` and buffer `b` have changed. */
  ghost predicate Otherwise(s: State, s': State, i: nat, b: nat, t: Task, m: seq<byte>) {
    && i < |s.tasks| && s'.tasks == s.tasks[i := t] && s'.mem == s.mem[b := m] && s'.stopped == s.stopped
    && s'.received == s.received && s'.done == s.done && s'.unused == s.unused
  }

  lemma HeadArrives(s: State, i: nat, h: byte, n: byte)
    requires AtHead(s, i)
    ensures var b := s.tasks[i].buf;
      Otherwise(s, Next(s, Arrive(i, [h, n])), i, b, Handling(b, [h, n], Filled(Head)), [h, n])
  {
    assert s.mem[s.tasks[i].buf][..0] + [h, n] == [h, n];
  }

  lemma HeadIsSized(s: State, i: nat, b: nat, h: byte, n: byte)
    requires i < |s.tasks| && s.tasks[i] == Handling(b, [h, n], Filled(Head)) && b in s.mem && s.mem[b] == [h, n]
    requires !More(n)
    ensures Otherwise(s, Next(s, Go(i)), i, b, Handling(b, [h, n], Sized), [h, n])
  {
    hide More;
  }

  lemma BodyAwaited(s: State, i: nat, b: nat, h: byte, n: byte, count: nat)
    requires i < |s.tasks| && s.tasks[i] == Handling(b, [h, n], Sized) && b in s.mem && s.mem[b] == [h, n]
    requires OneByteLength(n, count)
    ensures Otherwise(s, Next(s, Go(i)), i, b, Reading(b, 2, count, Body(2)), Resize([h, n], 2 + count))
  {
    hide Value, Resize;
    assert s.mem[b][1..2] == [n];
  }

  /** The steps that read the head. */
  function ReadsHead(i: nat, h: byte, n: byte): seq<Action> {
    [Arrive(i, [h, n]), Go(i), Go(i)]
  }

  /** The head has been read, and task `i` waits for the body. */
  ghost predicate AtBody(s: State, s': State, i: nat, h: byte, n: byte, count: nat) {
    && i < |s.tasks| && s.tasks[i].Reading?
    && var b := s.tasks[i].buf;
    && s'.tasks == s.tasks[i := Reading(b, 2, count, Body(2))] && b in s'.mem && b < s'.unused
    && |s'.mem[b]| == 2 + count && s'.mem[b][..2] == [h, n] && s'.stopped == s.stopped
    && s'.received == s.received && s'.done == s.done && s'.unused == s.unused
    && forall x :: x in s.mem && x != b ==> x in s'.mem && s'.mem[x] == s.mem[x]
  }

  lemma HeadRead(s: State, i: nat, h: byte, n: byte, count: nat)
    requires AtHead(s, i) && OneByteLength(n, count)
    ensures AtBody(s, Run(s, ReadsHead(i, h, n)), i, h, n, count)
  {
    hide Next, More, Value;
    var b := s.tasks[i].buf;
    HeadArrives(s, i, h, n);
    var s1 := Next(s, Arrive(i, [h, n]));
    HeadIsSized(s1, i, b, h, n);
    var s2 := Next(s1, Go(i));
    BodyAwaited(s2, i, b, h, n, count);
    assert Resize([h, n], 2 + count)[..2] == [h, n][..2] == [h, n];
    ThreeSteps(s, Arrive(i, [h, n]), Go(i), Go(i));
  }

  lemma TwoSteps(s: State, a: Action, b: Action)
    ensures Run(s, [a, b]) == Next(Next(s, a), b)
  {
    hide Next;
    RunsOn(s, a, [b]);
    RunsOn(Next(s, a), b, []);
    assert [a] + [b] == [a, b] && [b] + [] == [b];
  }

  lemma ThreeSteps(s: State, a: Action, b: Action, c: Action)
    ensures Run(s, [a, b, c]) == Next(Next(Next(s, a), b), c)
  {
    hide Next;
    RunsOn(s, a, [b, c]);
    TwoSteps(Next(s, a), b, c);
    assert [a] + [b, c] == [a, b, c];
  }

  /** The steps that read a whole packet, up to the start of the next read. */
  function ReadsPacket(i: nat, h: byte, n: byte, body: seq<byte>): seq<Action> {
    ReadsHead(i, h, n) + [Arrive(i, body), Go(i)]
  }

  lemma BodyArrives(s: State, s': State, i: nat, h: byte, n: byte, body: seq<byte>)
    requires AtHead(s, i) && AtBody(s, s', i, h, n, |body|)
    ensures var b := s.tasks[i].buf; var m := [h, n] + body; var s'' := Next(s', Arrive(i, body));
      && s''.tasks == s.tasks[i := Handling(b, m, Dispatch(2))] && b in s''.mem && s''.mem[b] == m
      && s''.received == s.received + [m] && s''.done == s.done && s''.stopped == s.stopped && s''.unused == s.unused
      && forall x :: x in s.mem && x != b ==> x in s''.mem && s''.mem[x] == s.mem[x]
  {
    var b := s.tasks[i].buf;
    assert s'.mem[b][..2] + body == [h, n] + body;
    var t := Handling(b, [h, n] + body, Dispatch(2));
    assert s'.tasks[i := t] == s.tasks[i := t];
  }

  /** A packet of topic `c`, without QoS and payload. */
  function PublishOf(c: byte): seq<byte> {
    [0x30, 3, 0, 1, c]
  }

  lemma PublishFacts(c: byte)
    ensures OneByteLength(3, 3) && MessageType(0x30) == 3 && PublishOf(c) == [0x30, 3] + [0, 1, c]
    ensures DutyOf(PublishOf(c)) == Deliver(PublishOf(c))
  {
    hide Receive;
    assert [3 as byte][1..] == [];
    assert Low7(3) == 3;
  }

  function ReadsPublish(i: nat, c: byte): seq<Action> {
    ReadsPacket(i, 0x30, 3, [0, 1, c])
  }

  /** Once the packet is read the next read is under way, and the handler has still to deliver. */
  lemma PublishRead(s: State, i: nat, c: byte)
    requires AtHead(s, i)
    ensures var b := s.tasks[i].buf; var s' := Run(s, ReadsPublish(i, c));
      && s'.tasks == s.tasks[i := Handling(b, PublishOf(c), Parse(2))] + [Reading(s.unused, 0, 2, Head)]
      && AtHead(s', |s.tasks|) && s'.received == s.received + [PublishOf(c)] && s'.done == s.done
  {
    hide Next, More, Value, MessageType;
    PublishFacts(c);
    HeadRead(s, i, 0x30, 3, 3);
    var s1 := Run(s, ReadsHead(i, 0x30, 3));
    BodyArrives(s, s1, i, 0x30, 3, [0, 1, c]);
    var s2 := Next(s1, Arrive(i, [0, 1, c]));
    PublishDispatched(s2, i, c);
    RunConcat(s, ReadsHead(i, 0x30, 3), [Arrive(i, [0, 1, c]), Go(i)]);
    TwoSteps(s1, Arrive(i, [0, 1, c]), Go(i));
    assert s2.tasks[i := Handling(s.tasks[i].buf, PublishOf(c), Parse(2))]
        == s.tasks[i := Handling(s.tasks[i].buf, PublishOf(c), Parse(2))];
  }

  lemma PublishDispatched(s: State, i: nat, c: byte)
    requires i < |s.tasks| && s.tasks[i].Handling? && s.tasks[i] == Handling(s.tasks[i].buf, PublishOf(c), Dispatch(2))
    requires s.tasks[i].buf in s.mem && s.mem[s.tasks[i].buf] == PublishOf(c)
    ensures var b := s.tasks[i].buf; var s' := Next(s, Go(i));
      && s'.tasks == s.tasks[i := Handling(b, PublishOf(c), Parse(2))] + [Reading(s.unused, 0, 2, Head)]
      && AtHead(s', |s.tasks|) && s'.received == s.received && s'.done == s.done
  {
    hide MessageType;
    PublishFacts(c);
  }

  // ---- the server's answer to CONNECT

  lemma ConnackDispatched(s: State, i: nat, sessionPresent: byte, returnCode: byte)
    requires i < |s.tasks| && s.tasks[i].Handling? && s.tasks[i].pc == Dispatch(2)
    requires s.tasks[i].buf in s.mem && s.mem[s.tasks[i].buf] == Connack(sessionPresent, returnCode)
    ensures var b := s.tasks[i].buf; var s' := Next(s, Go(i));
      && s'.stopped == (s.stopped || sessionPresent != 0) && s'.received == s.received
      && s'.tasks == s.tasks[i := Done] + if sessionPresent == 0 then [Reading(b, 0, 2, Head)] else []
  {
    ConnackType();
  }

  lemma ConnackFacts(sessionPresent: byte, returnCode: byte)
    ensures OneByteLength(2, 2) && Connack(sessionPresent, returnCode) == [0x20, 2] + [sessionPresent, returnCode]
  {
    assert [2 as byte][1..] == [];
    assert Low7(2) == 2;
  }

  /** From the start: whatever CONNACK arrives, the pump ends if the session is present and goes on reading if it
      is not, whatever the return code; so it treats the answer right exactly if the flag is clear just when the
      return code is 0. */
  lemma ConnackOutcome(connect: seq<byte>, sessionPresent: byte, returnCode: byte)
    ensures var s := Run(Init(connect), ReadsPacket(0, 0x20, 2, [sessionPresent, returnCode]));
      && s.received == [Connack(sessionPresent, returnCode)]
      && (s.stopped <==> sessionPresent != 0)
      && s.tasks == (if sessionPresent == 0 then [Done, Reading(0, 0, 2, Head)] else [Done])
      && ((s.stopped <==> returnCode != 0) <==> (sessionPresent == 0 <==> returnCode == 0))
  {
    hide Next, More, Value;
    var s0 := Init(connect);
    ConnackFacts(sessionPresent, returnCode);
    HeadRead(s0, 0, 0x20, 2, 2);
    var body := [sessionPresent, returnCode];
    var s1 := Run(s0, ReadsHead(0, 0x20, 2));
    BodyArrives(s0, s1, 0, 0x20, 2, body);
    var s2 := Next(s1, Arrive(0, body));
    ConnackDispatched(s2, 0, sessionPresent, returnCode);
    RunConcat(s0, ReadsHead(0, 0x20, 2), [Arrive(0, body), Go(0)]);
    TwoSteps(s1, Arrive(0, body), Go(0));
    assert s2.tasks == [Handling(0, Connack(sessionPresent, returnCode), Dispatch(2))];
  }
}
