/** The packet identifiers and the transaction table of MQTTClient. */
module MqttTransactions {
  import H = MqttHandlers

  const MAX_ID := 65535

  /** What BeginTransaction works on: mPacketIdentifier and mTransactions. */
  datatype Ids = Ids(identifier: nat, table: map<nat, nat>)

  const FRESH := Ids(1, H.NO_TABLE)

  ghost predicate Sane(s: Ids) {
    s.identifier <= MAX_ID && forall id :: id in s.table ==> 1 <= id <= MAX_ID
  }

  // ---- which identifier is chosen

  predicate InUse(table: map<nat, nat>, id: nat) {
    id in table
  }

  ghost predicate Full(table: map<nat, nat>) {
    forall id: nat :: 1 <= id <= MAX_ID ==> InUse(table, id)
  }

  /** The place of `id` in the cyclic order start + 1, ..., 65535, 1, ..., start. */
  function Place(start: nat, id: nat): int {
    if id > start then id - start - 1 else id + MAX_ID - start - 1
  }

  /** `id` is the first unused one in that order, or 0 if there is none. */
  ghost predicate Chosen(start: nat, table: map<nat, nat>, id: nat) {
    if Full(table) then id == 0 else
      && 1 <= id <= MAX_ID && !InUse(table, id)
      && forall j: nat :: 1 <= j <= MAX_ID && Place(start, j) < Place(start, id) ==> InUse(table, j)
  }

  ghost predicate UsedBefore(start: nat, table: map<nat, nat>, temp: nat) {
    forall j: nat :: 1 <= j <= MAX_ID && Place(start, j) < Place(start, temp) ==> InUse(table, j)
  }

  /** The whole result: 65535 is absorbing, since 0 comes first and is never in use. */
  ghost predicate Begun(s: Ids, id: nat) {
    if s.identifier == MAX_ID then id == 0 else Chosen(s.identifier, s.table, id)
  }

  /** When the search stops: from 0 it never meets its start again. */
  ghost predicate Stops(s: Ids) {
    s.identifier == 0 ==> !Full(s.table)
  }

  function NextId(id: nat): nat {
    if id == MAX_ID then 1 else id + 1
  }

  lemma AllTried(start: nat, table: map<nat, nat>, last: nat)
    requires if start == 0 then last == MAX_ID else 1 <= start == last <= MAX_ID
    requires UsedBefore(start, table, last) && InUse(table, last)
    ensures Full(table) && Chosen(start, table, 0)
  {
    forall id: nat | 1 <= id <= MAX_ID
      ensures InUse(table, id)
    {
      assert id != last ==> Place(start, id) < Place(start, last);
    }
  }

  lemma FirstFound(start: nat, table: map<nat, nat>, temp: nat)
    requires 1 <= temp <= MAX_ID && UsedBefore(start, table, temp) && temp !in table
    ensures Chosen(start, table, temp)
  {
    assert !InUse(table, temp);
  }

  lemma FirstTry(start: nat, table: map<nat, nat>)
    requires start < MAX_ID
    ensures UsedBefore(start, table, start + 1)
  {
  }

  lemma OneMoreTried(start: nat, table: map<nat, nat>, temp: nat)
    requires start < MAX_ID && 1 <= temp <= MAX_ID && temp != start
    requires UsedBefore(start, table, temp) && InUse(table, temp)
    requires start == 0 ==> temp < MAX_ID
    ensures UsedBefore(start, table, NextId(temp))
    ensures Place(start, NextId(temp)) == Place(start, temp) + 1
  {
    forall j: nat | 1 <= j <= MAX_ID && Place(start, j) < Place(start, NextId(temp))
      ensures InUse(table, j)
    {
      assert j != temp ==> Place(start, j) != Place(start, temp);
    }
  }

  /** From 0 a full table is never left: whatever number of turns the loop has made, it goes on. */
  function Probe(turns: nat): nat {
    if turns == 0 then 1 else NextId(Probe(turns - 1))
  }

  lemma {:induction false} SearchNeverStops(s: Ids, turns: nat)
    requires s.identifier == 0 && Full(s.table)
    ensures InUse(s.table, Probe(turns)) && Probe(turns) != s.identifier
  {
    ProbeIsId(turns);
  }

  lemma {:induction false} ProbeIsId(turns: nat)
    ensures 1 <= Probe(turns) <= MAX_ID
  {
    if turns > 0 {
      ProbeIsId(turns - 1);
    }
  }

  lemma OneChoice(s: Ids, a: nat, b: nat)
    requires Begun(s, a) && Begun(s, b)
    ensures a == b
  {
  }

  // ---- whole runs

  datatype Call = Begin(handler: nat) | End(id: nat) | Clear

  predicate After(s: Ids, id: nat, handler: nat, s': Ids) {
    s' == if id == 0 then s else Ids((id + 1) % (MAX_ID + 1), s.table[id := handler])
  }

  /** One call; `returned` is what a Begin gave back. */
  ghost predicate Step(s: Ids, call: Call, returned: nat, s': Ids) {
    match call
    case Begin(handler) => Stops(s) && Begun(s, returned) && After(s, returned, handler, s')
    case End(id) => s' == s.(table := s.table - {id})
    case Clear => s' == s.(table := H.NO_TABLE)
  }

  /** `states` are the states between the calls of a run from a new client. */
  ghost predicate RunOf(states: seq<Ids>, calls: seq<Call>, returned: seq<nat>) {
    && |states| == |calls| + 1 && |returned| == |calls| && states[0] == FRESH
    && forall i :: 0 <= i < |calls| ==> Step(states[i], calls[i], returned[i], states[i + 1])
  }

  function Begins(calls: seq<Call>): nat {
    if calls == [] then 0
    else Begins(calls[..|calls| - 1]) + if calls[|calls| - 1].Begin? then 1 else 0
  }

  /** What holds after `n` Begins from a new client: odd, and past everything in the table. */
  ghost predicate Climbed(s: Ids, n: nat) {
    && s.identifier == (if n < 32767 then 2 * n + 1 else MAX_ID)
    && forall id :: id in s.table ==> 1 <= id < s.identifier
  }

  lemma ClimbedStep(s: Ids, n: nat, call: Call, returned: nat, s': Ids)
    requires Climbed(s, n) && Step(s, call, returned, s')
    ensures Climbed(s', if call.Begin? then n + 1 else n)
    ensures call.Begin? ==> returned == if n < 32767 then 2 * n + 2 else 0
  {
    if call.Begin? && n < 32767 {
      assert !InUse(s.table, s.identifier + 1);
      assert Chosen(s.identifier, s.table, s.identifier + 1);
      OneChoice(s, returned, s.identifier + 1);
    }
  }

  lemma {:induction false} RunClimbs(states: seq<Ids>, calls: seq<Call>, returned: seq<nat>)
    requires RunOf(states, calls, returned)
    ensures Climbed(states[|calls|], Begins(calls))
    decreases |calls|
  {
    if calls != [] {
      var n := |calls| - 1;
      RunClimbs(states[..n + 1], calls[..n], returned[..n]);
      assert Step(states[n], calls[n], returned[n], states[n + 1]);
      ClimbedStep(states[n], Begins(calls[..n]), calls[n], returned[n], states[n + 1]);
    }
  }

  /** A new client hands out 2, 4, ..., 65534 and from then on 0 for ever, however many transactions have
      ended in between: the n-th Begin of any run returns exactly this. */
  lemma NthBegin(states: seq<Ids>, calls: seq<Call>, returned: seq<nat>, i: nat)
    requires RunOf(states, calls, returned) && i < |calls| && calls[i].Begin?
    ensures returned[i] == if Begins(calls[..i]) < 32767 then 2 * Begins(calls[..i]) + 2 else 0
  {
    RunClimbs(states[..i + 1], calls[..i], returned[..i]);
    assert Step(states[i], calls[i], returned[i], states[i + 1]);
    ClimbedStep(states[i], Begins(calls[..i]), calls[i], returned[i], states[i + 1]);
  }

  // ---- the client

  datatype Code = SUCCESS | CONNECTION_REFUSED

  /** What the handler of a QoS 0 publish should be told. */
  function CodeOfWrite(failed: bool): Code {
    if failed then CONNECTION_REFUSED else SUCCESS
  }

  class MQTTClient {
    var packetIdentifier: nat
    var transactions: map<nat, nat>
    var unwritten: seq<nat>              // the handlers captured by the writes of QoS 0 publishes
    var connected: bool
    ghost var life: H.Life               // where every handler is

    ghost predicate Valid()
      reads this
    {
      Sane(State()) && life.table == transactions && life.writes == unwritten
    }

    ghost function State(): Ids
      reads this
    {
      Ids(packetIdentifier, transactions)
    }

    constructor (ghost threads: nat)
      ensures Valid() && State() == FRESH && life == H.Init(threads)
    {
      packetIdentifier, transactions, unwritten, connected := 1, H.NO_TABLE, [], false;
      life := H.Init(threads);
    }

    method BeginTransaction(handler: nat) returns (id: nat)
      requires Valid() && handler == life.next && Stops(State())
      modifies this`packetIdentifier, this`transactions, this`life
      ensures Valid()
      ensures Step(old(State()), Begin(handler), id, State())
      ensures life == H.Next(old(life), H.Begin(id))
      ensures id == 0 ==> transactions == old(transactions) && packetIdentifier == old(packetIdentifier)
      ensures id != 0 ==> 1 <= id <= MAX_ID && id !in old(transactions)
      ensures id != 0 ==> transactions == old(transactions)[id := handler] && packetIdentifier == (id + 1) % 65536
    {
      hide Full, Chosen, UsedBefore;
      id := 0;
      var start := packetIdentifier;
      var temp := (start + 1) % 65536;
      if start < MAX_ID {
        FirstTry(start, transactions);
      }
      while true
        invariant id == 0 && State() == old(State()) && life == old(life) && unwritten == old(unwritten)
        invariant start == MAX_ID ==> temp == 0
        invariant start < MAX_ID ==> 1 <= temp <= MAX_ID && UsedBefore(start, transactions, temp)
        decreases MAX_ID - Place(start, temp)
      {
        if temp !in transactions {
          if start < MAX_ID {
            FirstFound(start, transactions, temp);
          }
          id := temp;
          break;
        }
        if temp == (if start == 0 then MAX_ID else start) {
          AllTried(start, transactions, temp);
        }
        if temp == start {
          break;
        }
        OneMoreTried(start, transactions, temp);
        temp := (temp + 1) % 65536;
        if temp == 0 {
          temp := 1;
        }
      }
      life := H.Next(life, H.Begin(id));
      if id == 0 {
        return 0;
      }
      packetIdentifier := (id + 1) % 65536;
      transactions := transactions[id := handler];
    }

    /** The locked section of EndTransaction; the handler it returns is called afterwards. */
    method EndTransaction(id: nat, ghost t: nat) returns (handler: seq<nat>)
      requires Valid() && t < |life.hands|
      modifies this`transactions, this`life
      ensures Valid()
      ensures Step(old(State()), End(id), 0, State())
      ensures life == H.Next(old(life), H.End(t, id))
      ensures handler == if id in old(transactions) then [old(transactions)[id]] else []
      ensures life.hands[t] == handler + old(life.hands[t]) && transactions == old(transactions) - {id}
    {
      life := H.Next(life, H.End(t, id));
      if id !in transactions {
        assert transactions - {id} == transactions;
        return [];
      }
      handler := [transactions[id]];
      transactions := transactions - {id};
    }

    /** A forced Disconnect up to the end of its locked section. */
    method Disconnect(ghost t: nat) returns (handlers: seq<nat>, ghost order: seq<nat>)
      requires Valid() && t < |life.hands|
      modifies this`connected, this`transactions, this`life
      ensures Valid() && !connected
      ensures Step(old(State()), Clear, 0, State())
      ensures H.OrderOf(order, old(transactions))
      ensures life == H.Next(old(life), H.Disconnect(t, order))
      ensures life.hands[t] == handlers + old(life.hands[t]) && transactions == map[]
      ensures |handlers| == |order| && forall k :: 0 <= k < |order| ==> handlers[k] == old(transactions)[order[k]]
    {
      connected := false;
      handlers, order := Collect();
      life := H.Next(life, H.Disconnect(t, order));
      transactions := H.NO_TABLE;
    }

    /** The loop over the table, in whatever order the hash map gives. */
    method Collect() returns (handlers: seq<nat>, ghost order: seq<nat>)
      ensures H.OrderOf(order, transactions) && handlers == H.Taken(transactions, order)
      ensures |handlers| == |order| && forall k :: 0 <= k < |order| ==> handlers[k] == transactions[order[k]]
    {
      handlers, order := [], [];
      var rest := transactions.Keys;
      while rest != {}
        invariant rest <= transactions.Keys && |order| + |rest| == |transactions.Keys|
        invariant forall i :: 0 <= i < |order| ==> order[i] in transactions && order[i] !in rest
        invariant forall i, j :: 0 <= i < j < |order| ==> order[i] != order[j]
        invariant handlers == H.Taken(transactions, order)
        invariant |handlers| == |order| && forall k :: 0 <= k < |order| ==> handlers[k] == transactions[order[k]]
        decreases |rest|
      {
        var id :| id in rest;
        TakenMore(transactions, order, id);
        handlers := handlers + [transactions[id]];
        order, rest := order + [id], rest - {id};
      }
    }

    /** The bookkeeping of Publish before its write is started. */
    method Publish(qos: nat, handler: nat) returns (id: nat)
      requires Valid() && handler == life.next && Stops(State())
      modifies this`packetIdentifier, this`transactions, this`unwritten, this`life
      ensures Valid()
      ensures qos > 0 ==> Step(old(State()), Begin(handler), id, State()) && life == H.Next(old(life), H.Begin(id))
      ensures qos == 0 ==> State() == old(State()) && life == H.Next(old(life), H.PublishQos0)
      ensures qos == 0 ==> unwritten == old(unwritten) + [handler]
      ensures qos > 0 ==> unwritten == old(unwritten)
      ensures qos > 0 ==> transactions == if id == 0 then old(transactions) else old(transactions)[id := handler]
    {
      id := 0;
      if qos > 0 {
        id := BeginTransaction(handler);
      } else {
        life := H.Next(life, H.PublishQos0);
        unwritten := unwritten + [handler];
      }
    }

    /** The completion of a publish's write, `i` being its place among the QoS 0 ones. For a QoS above 0
        a failure calls nothing beyond what the forced Disconnect found. At QoS 0 the handler is told `code`, the
        same on failure and success. */
    method PublishWritten(qos: nat, i: nat, failed: bool, ghost t: nat)
      returns (handlers: seq<nat>, code: Code, ghost order: seq<nat>)
      requires Valid() && t < |life.hands| && (qos == 0 ==> i < |unwritten|)
      modifies this`connected, this`transactions, this`unwritten, this`life
      ensures Valid()
      ensures failed ==> !connected && Step(old(State()), Clear, 0, State()) && H.OrderOf(order, old(transactions))
      ensures !failed ==> connected == old(connected) && State() == old(State())
      ensures qos == 0 ==> life == H.Next(old(life), H.WriteDone(t, i, failed, order))
      ensures qos > 0 ==> life == if failed then H.Next(old(life), H.Disconnect(t, order)) else old(life)
      ensures life.hands[t] == handlers + old(life.hands[t])
      ensures qos == 0 ==> (code == CodeOfWrite(failed) <==> failed)
      ensures var found := if failed then |order| else 0;
        && |handlers| == found + (if qos == 0 then 1 else 0)
        && (forall k :: 0 <= k < found ==> handlers[k] == old(transactions)[order[k]])
        && (qos == 0 ==> handlers[found] == old(unwritten)[i]
                         && unwritten == old(unwritten)[..i] + old(unwritten)[i + 1..])
        && (qos > 0 ==> unwritten == old(unwritten))
    {
      handlers, code, order := [], CONNECTION_REFUSED, [];
      if qos == 0 {
        life := H.Next(life, H.WriteDone(t, i, false, []));
        handlers := [unwritten[i]];
        unwritten := unwritten[..i] + unwritten[i + 1..];
      }
      if failed {
        var found;
        found, order := Disconnect(t);
        handlers := found + handlers;
      }
    }
  }

  lemma {:induction false} TakenMore(table: map<nat, nat>, order: seq<nat>, id: nat)
    requires id in table && forall i :: 0 <= i < |order| ==> order[i] in table
    ensures H.Taken(table, order + [id]) == H.Taken(table, order) + [table[id]]
  {
    if order != [] {
      assert (order + [id])[1..] == order[1..] + [id];
      TakenMore(table, order[1..], id);
    }
  }
}
