/** Which of the places a transaction handler can be in: every handler is called at most once. */
module MqttHandlers {
  import opened Bytes

  /** A handler is named by the order of its registration. `table` is mTransactions. `writes` holds the
      handlers of QoS 0 publishes, called when their write completes. `hands[t]` is what thread `t` has
      taken and still has to call, outside the lock. `lost` are the handlers registered under id 0. */
  datatype Life = Life(
    next: nat, table: map<nat, nat>, writes: seq<nat>, hands: seq<seq<nat>>, called: seq<nat>, lost: seq<nat>)

  datatype Action =
    | Begin(id: nat)                                    // BeginTransaction, which returned id
    | PublishQos0
    | End(t: nat, id: nat)                              // the locked section of EndTransaction
    | Disconnect(t: nat, order: seq<nat>)               // that of a forced Disconnect; the table's order
    | WriteDone(t: nat, i: nat, failed: bool, order: seq<nat>)  // of a QoS 0 publish
    | CallNext(t: nat)                                  // thread t calls the next handler it holds

  const NO_TABLE: map<nat, nat> := map[]

  function Init(threads: nat): Life {
    Life(0, NO_TABLE, [], Empty(threads), [], [])
  }

  function Empty(threads: nat): seq<seq<nat>> {
    seq(threads, _ => [])
  }

  /** `order` runs over the keys of the table, each once. */
  predicate OrderOf(order: seq<nat>, table: map<nat, nat>) {
    && |order| == |table|
    && (forall i :: 0 <= i < |order| ==> order[i] in table)
    && forall i, j :: 0 <= i < j < |order| ==> order[i] != order[j]
  }

  function Taken(table: map<nat, nat>, order: seq<nat>): (r: seq<nat>)
    requires forall i :: 0 <= i < |order| ==> order[i] in table
    ensures |r| == |order|
  {
    if order == [] then [] else [table[order[0]]] + Taken(table, order[1..])
  }

  function BeginStep(s: Life, id: nat): Life {
    if id == 0 then s.(next := s.next + 1, lost := s.lost + [s.next])
    else if id in s.table then s
    else s.(next := s.next + 1, table := s.table[id := s.next])
  }

  function EndStep(s: Life, t: nat, id: nat): Life
    requires t < |s.hands|
  {
    if id in s.table then s.(table := s.table - {id}, hands := s.hands[t := [s.table[id]] + s.hands[t]]) else s
  }

  function DisconnectStep(s: Life, t: nat, order: seq<nat>): Life
    requires t < |s.hands|
  {
    if OrderOf(order, s.table) then
      s.(table := NO_TABLE, hands := s.hands[t := Taken(s.table, order) + s.hands[t]])
    else s
  }

  /** The completion of a QoS 0 publish; when the write failed, a forced Disconnect comes first. */
  function WriteStep(s: Life, t: nat, i: nat, failed: bool, order: seq<nat>): Life
    requires t < |s.hands| && i < |s.writes|
  {
    var s1 := s.(writes := Removed(s.writes, i), hands := s.hands[t := [s.writes[i]] + s.hands[t]]);
    if failed then DisconnectStep(s1, t, order) else s1
  }

  function Next(s: Life, a: Action): Life {
    match a
    case Begin(id) => BeginStep(s, id)
    case PublishQos0 => s.(next := s.next + 1, writes := s.writes + [s.next])
    case End(t, id) => if t < |s.hands| then EndStep(s, t, id) else s
    case Disconnect(t, order) => if t < |s.hands| then DisconnectStep(s, t, order) else s
    case WriteDone(t, i, failed, order) =>
      if t < |s.hands| && i < |s.writes| then WriteStep(s, t, i, failed, order) else s
    case CallNext(t) =>
      if t < |s.hands| && s.hands[t] != [] then
        s.(hands := s.hands[t := s.hands[t][1..]], called := s.called + [s.hands[t][0]])
      else s
  }

  function Run(s: Life, actions: seq<Action>): Life
    decreases actions
  {
    if actions == [] then s else Run(Next(s, actions[0]), actions[1..])
  }

  // ---- one place each

  /** How often handler `h` occurs in all places together. */
  function Places(s: Life, h: nat): nat {
    (if h in s.table.Values then 1 else 0) + Times(s.writes, h) + Times(Flatten(s.hands), h) +
    Times(s.called, h) + Times(s.lost, h)
  }

  ghost predicate Injective(table: map<nat, nat>) {
    forall a, b :: a in table && b in table && a != b ==> table[a] != table[b]
  }

  /** Every handler so far is in exactly one place, and no two ids share one. */
  ghost predicate OnePlace(s: Life) {
    Injective(s.table) && forall h: nat :: Places(s, h) == if h < s.next then 1 else 0
  }

  lemma TimesHand(hands: seq<seq<nat>>, t: nat, x: seq<nat>, h: nat)
    requires t < |hands|
    ensures Times(Flatten(hands[t := x]), h) + Times(hands[t], h) == Times(Flatten(hands), h) + Times(x, h)
  {
    hide Flatten;
    FlattenAt(hands, t);
    FlattenUpdate(hands, t, x);
  }

  lemma {:induction false} NoHands(threads: nat)
    ensures Flatten(Empty(threads)) == []
  {
    if threads > 0 {
      assert Empty(threads)[1..] == Empty(threads - 1);
      NoHands(threads - 1);
    }
  }

  lemma TableWithout(table: map<nat, nat>, id: nat)
    requires id in table && Injective(table)
    ensures Injective(table - {id}) && (table - {id}).Values == table.Values - {table[id]}
  {
    var rest := table - {id};
    forall v | v in table.Values - {table[id]}
      ensures v in rest.Values
    {
      var k :| k in table && table[k] == v;
      assert k in rest && rest[k] == v;
    }
  }

  lemma OrderWithout(table: map<nat, nat>, order: seq<nat>)
    requires OrderOf(order, table) && order != []
    ensures OrderOf(order[1..], table - {order[0]})
  {
    assert (table - {order[0]}).Keys == table.Keys - {order[0]};
  }

  lemma {:induction false} TakenTimes(table: map<nat, nat>, order: seq<nat>, h: nat)
    requires OrderOf(order, table) && Injective(table)
    ensures Times(Taken(table, order), h) == if h in table.Values then 1 else 0
    decreases |order|
  {
    if order == [] {
      assert table == map[];
    } else {
      var id, rest := order[0], table - {order[0]};
      TableWithout(table, id);
      OrderWithout(table, order);
      TakenSame(table, rest, order[1..]);
      TakenTimes(rest, order[1..], h);
      TimesHead(Taken(table, order), h);
      assert table[id] in table.Values;
    }
  }

  lemma {:induction false} TakenSame(table: map<nat, nat>, rest: map<nat, nat>, order: seq<nat>)
    requires forall i :: 0 <= i < |order| ==> order[i] in rest
    requires forall k :: k in rest ==> k in table && rest[k] == table[k]
    ensures Taken(table, order) == Taken(rest, order)
  {
    if order != [] {
      TakenSame(table, rest, order[1..]);
    }
  }

  lemma BeginKeeps(s: Life, id: nat)
    requires OnePlace(s)
    ensures OnePlace(BeginStep(s, id))
  {
    hide Times;
    var s' := BeginStep(s, id);
    assert Places(s, s.next) == 0;
    if id != 0 && id !in s.table {
      NewValue(s.table, id, s.next);
    }
    forall h: nat
      ensures s' != s ==> Places(s', h) == if h < s'.next then 1 else 0
    {
      assert Places(s, h) == if h < s.next then 1 else 0;
      TimesConcat(s.lost, [s.next], h);
      TimesOne(s.next, h);
    }
  }

  lemma NewValue(table: map<nat, nat>, id: nat, x: nat)
    requires Injective(table) && id !in table && x !in table.Values
    ensures table[id := x].Values == table.Values + {x} && Injective(table[id := x])
  {
    var t := table[id := x];
    assert t[id] == x;
    forall v | v in table.Values
      ensures v in t.Values
    {
      var k :| k in table && table[k] == v;
      assert t[k] == v;
    }
  }

  lemma QosKeeps(s: Life)
    requires OnePlace(s)
    ensures OnePlace(s.(next := s.next + 1, writes := s.writes + [s.next]))
  {
    hide Times;
    var s' := s.(next := s.next + 1, writes := s.writes + [s.next]);
    forall h: nat
      ensures Places(s', h) == if h < s'.next then 1 else 0
    {
      assert Places(s, h) == if h < s.next then 1 else 0;
      TimesConcat(s.writes, [s.next], h);
      TimesOne(s.next, h);
    }
  }

  /** Handlers moved from other places into one thread's hands. */
  lemma MovedToHand(s: Life, s': Life, t: nat, x: seq<nat>)
    requires OnePlace(s) && t < |s.hands| && Injective(s'.table)
    requires s'.hands == s.hands[t := x + s.hands[t]]
    requires s'.next == s.next && s'.called == s.called && s'.lost == s.lost
    requires forall h: nat :: Held(s', h) + Times(x, h) == Held(s, h)
    ensures OnePlace(s')
  {
    hide Times;
    forall h: nat
      ensures Places(s', h) == if h < s'.next then 1 else 0
    {
      assert Places(s, h) == if h < s.next then 1 else 0;
      assert Held(s', h) + Times(x, h) == Held(s, h);
      TimesConcat(x, s.hands[t], h);
      TimesHand(s.hands, t, x + s.hands[t], h);
    }
  }

  function Held(s: Life, h: nat): nat {
    (if h in s.table.Values then 1 else 0) + Times(s.writes, h)
  }

  lemma EndKeeps(s: Life, t: nat, id: nat)
    requires OnePlace(s) && t < |s.hands|
    ensures OnePlace(EndStep(s, t, id))
  {
    hide Times, OnePlace;
    if id in s.table {
      Unique(s);
      TableWithout(s.table, id);
      var s' := EndStep(s, t, id);
      assert s.table[id] in s.table.Values;
      forall h: nat
        ensures Held(s', h) + Times([s.table[id]], h) == Held(s, h)
      {
        TimesOne(s.table[id], h);
      }
      MovedToHand(s, s', t, [s.table[id]]);
    }
  }

  lemma Unique(s: Life)
    requires OnePlace(s)
    ensures Injective(s.table)
  {
  }

  lemma DisconnectKeeps(s: Life, t: nat, order: seq<nat>)
    requires OnePlace(s) && t < |s.hands|
    ensures OnePlace(DisconnectStep(s, t, order))
  {
    hide Times, OnePlace;
    if OrderOf(order, s.table) {
      Unique(s);
      var s' := DisconnectStep(s, t, order);
      assert NO_TABLE.Values == {};
      forall h: nat
        ensures Held(s', h) + Times(Taken(s.table, order), h) == Held(s, h)
      {
        TakenTimes(s.table, order, h);
      }
      MovedToHand(s, s', t, Taken(s.table, order));
    }
  }

  lemma WriteKeeps(s: Life, t: nat, i: nat, failed: bool, order: seq<nat>)
    requires OnePlace(s) && t < |s.hands| && i < |s.writes|
    ensures OnePlace(WriteStep(s, t, i, failed, order))
  {
    hide Times, OnePlace;
    Unique(s);
    var s1 := s.(writes := Removed(s.writes, i), hands := s.hands[t := [s.writes[i]] + s.hands[t]]);
    forall h: nat
      ensures Held(s1, h) + Times([s.writes[i]], h) == Held(s, h)
    {
      TimesRemoved(s.writes, i, h);
      TimesOne(s.writes[i], h);
    }
    MovedToHand(s, s1, t, [s.writes[i]]);
    if failed {
      DisconnectKeeps(s1, t, order);
    }
  }

  lemma CallKeeps(s: Life, t: nat)
    requires OnePlace(s) && t < |s.hands| && s.hands[t] != []
    ensures OnePlace(s.(hands := s.hands[t := s.hands[t][1..]], called := s.called + [s.hands[t][0]]))
  {
    hide Times;
    var s' := s.(hands := s.hands[t := s.hands[t][1..]], called := s.called + [s.hands[t][0]]);
    forall h: nat
      ensures Places(s', h) == if h < s'.next then 1 else 0
    {
      assert Places(s, h) == if h < s.next then 1 else 0;
      TimesHead(s.hands[t], h);
      TimesHand(s.hands, t, s.hands[t][1..], h);
      TimesConcat(s.called, [s.hands[t][0]], h);
      TimesOne(s.hands[t][0], h);
    }
  }

  lemma NextKeeps(s: Life, a: Action)
    requires OnePlace(s)
    ensures OnePlace(Next(s, a))
  {
    hide OnePlace, BeginStep, EndStep, DisconnectStep, WriteStep;
    match a
    case Begin(id) => BeginKeeps(s, id);
    case PublishQos0 => QosKeeps(s);
    case End(t, id) => if t < |s.hands| { EndKeeps(s, t, id); }
    case Disconnect(t, order) => if t < |s.hands| { DisconnectKeeps(s, t, order); }
    case WriteDone(t, i, failed, order) =>
      if t < |s.hands| && i < |s.writes| { WriteKeeps(s, t, i, failed, order); }
    case CallNext(t) => if t < |s.hands| && s.hands[t] != [] { CallKeeps(s, t); }
  }

  lemma {:induction false} RunKeeps(s: Life, actions: seq<Action>)
    requires OnePlace(s)
    ensures OnePlace(Run(s, actions))
    decreases actions
  {
    hide OnePlace, Next;
    if actions != [] {
      NextKeeps(s, actions[0]);
      RunKeeps(Next(s, actions[0]), actions[1..]);
    }
  }

  // ---- the theorems: any threads, any interleaving of Begin, End, forced Disconnect and write completions

  lemma EveryHandlerInOnePlace(threads: nat, actions: seq<Action>)
    ensures OnePlace(Run(Init(threads), actions))
  {
    NoHands(threads);
    assert NO_TABLE.Values == {};
    RunKeeps(Init(threads), actions);
  }

  /** No handler is called twice. */
  lemma NoneCalledTwice(threads: nat, actions: seq<Action>, h: nat)
    ensures multiset(Run(Init(threads), actions).called)[h] <= 1
  {
    EveryHandlerInOnePlace(threads, actions);
    CalledOnce(Run(Init(threads), actions), h);
  }

  /** What a thread holds it goes on holding until it has been called. */
  lemma {:induction false} HeldIsCalled(s: Life, actions: seq<Action>, t: nat, h: nat)
    requires t < |s.hands| && (h in s.hands[t] || h in s.called)
    ensures var s' := Run(s, actions); t < |s'.hands| && (h in s'.hands[t] || h in s'.called)
    decreases actions
  {
    if actions != [] {
      HeldStep(s, actions[0], t, h);
      HeldIsCalled(Next(s, actions[0]), actions[1..], t, h);
    }
  }

  lemma HeldStep(s: Life, a: Action, t: nat, h: nat)
    requires t < |s.hands| && (h in s.hands[t] || h in s.called)
    ensures var s' := Next(s, a); t < |s'.hands| && (h in s'.hands[t] || h in s'.called)
  {
  }

  lemma {:induction false} TakenHas(table: map<nat, nat>, order: seq<nat>, id: nat)
    requires forall i :: 0 <= i < |order| ==> order[i] in table
    requires id in order
    ensures id in table && table[id] in Taken(table, order)
  {
    if order[0] != id {
      TakenHas(table, order[1..], id);
    }
  }

  lemma {:induction false} OrderCovers(order: seq<nat>, table: map<nat, nat>, id: nat)
    requires OrderOf(order, table) && id in table
    ensures id in order
    decreases |order|
  {
    assert |table| > 0;
    if order[0] != id {
      OrderWithout(table, order);
      OrderCovers(order[1..], table - {order[0]}, id);
    }
  }

  /** Once the thread that ran a forced Disconnect holds nothing more, every handler it found in the
      table has been called exactly once, whatever ran in between. */
  lemma DisconnectCallsAll(threads: nat, before: seq<Action>, t: nat, order: seq<nat>, after: seq<Action>, id: nat)
    requires var s0 := Run(Init(threads), before);
      && t < |s0.hands| && OrderOf(order, s0.table) && id in s0.table
      && var s2 := Run(Next(s0, Disconnect(t, order)), after);
         t < |s2.hands| && s2.hands[t] == []
    ensures var s0 := Run(Init(threads), before);
      var s2 := Run(Next(s0, Disconnect(t, order)), after);
      multiset(s2.called)[s0.table[id]] == 1
  {
    hide Run, OnePlace;
    var s0 := Run(Init(threads), before);
    var s1 := Next(s0, Disconnect(t, order));
    var s2 := Run(s1, after);
    EveryHandlerInOnePlace(threads, before);
    NextKeeps(s0, Disconnect(t, order));
    RunKeeps(s1, after);
    OrderCovers(order, s0.table, id);
    TakenHas(s0.table, order, id);
    HeldIsCalled(s1, after, t, s0.table[id]);
    CalledOnce(s2, s0.table[id]);
  }

  /** What a thread has once taken, it calls: exactly once, if it holds nothing more. */
  lemma TakenIsCalled(s: Life, after: seq<Action>, t: nat, h: nat)
    requires OnePlace(s) && t < |s.hands| && h in s.hands[t]
    requires var s' := Run(s, after); t < |s'.hands| && s'.hands[t] == []
    ensures multiset(Run(s, after).called)[h] == 1
  {
    hide Run, OnePlace;
    RunKeeps(s, after);
    HeldIsCalled(s, after, t, h);
    CalledOnce(Run(s, after), h);
  }

  /** Once the thread that ran EndTransaction holds nothing more, the handler of that transaction has been called
      exactly once. */
  lemma EndCallsIt(threads: nat, before: seq<Action>, t: nat, id: nat, after: seq<Action>)
    requires var s0 := Run(Init(threads), before);
      && t < |s0.hands| && id in s0.table
      && var s2 := Run(Next(s0, End(t, id)), after); t < |s2.hands| && s2.hands[t] == []
    ensures var s0 := Run(Init(threads), before);
      multiset(Run(Next(s0, End(t, id)), after).called)[s0.table[id]] == 1
  {
    hide Run, OnePlace;
    var s0 := Run(Init(threads), before);
    EveryHandlerInOnePlace(threads, before);
    NextKeeps(s0, End(t, id));
    TakenIsCalled(Next(s0, End(t, id)), after, t, s0.table[id]);
  }

  /** The same for the completion of a QoS 0 publish, whether its write failed or not. */
  lemma WriteCallsIt(
    threads: nat, before: seq<Action>, t: nat, i: nat, failed: bool, order: seq<nat>, after: seq<Action>)
    requires var s0 := Run(Init(threads), before);
      && t < |s0.hands| && i < |s0.writes|
      && var s2 := Run(Next(s0, WriteDone(t, i, failed, order)), after); t < |s2.hands| && s2.hands[t] == []
    ensures var s0 := Run(Init(threads), before);
      multiset(Run(Next(s0, WriteDone(t, i, failed, order)), after).called)[s0.writes[i]] == 1
  {
    hide Run, OnePlace;
    var s0 := Run(Init(threads), before);
    EveryHandlerInOnePlace(threads, before);
    NextKeeps(s0, WriteDone(t, i, failed, order));
    TakenIsCalled(Next(s0, WriteDone(t, i, failed, order)), after, t, s0.writes[i]);
  }

  // ---- how a handler was registered

  /** The registrations of a run, in order: handler `h` is the `h`-th. */
  function Registrations(s: Life, actions: seq<Action>): seq<Action>
    decreases actions
  {
    if actions == [] then []
    else
      var s1 := Next(s, actions[0]);
      (if s1.next > s.next then [actions[0]] else []) + Registrations(s1, actions[1..])
  }

  /** Lost are the handlers registered under id 0 and no others, and what the table has under an identifier was
      registered under it. */
  ghost predicate Known(s: Life, made: seq<Action>) {
    && s.next == |made|
    && (forall h :: 0 <= h < |made| ==> (h in s.lost <==> made[h] == Begin(0)))
    && (forall h :: h in s.lost ==> h < |made|)
    && (forall id :: id in s.table ==> s.table[id] < |made| && made[s.table[id]] == Begin(id))
    && (forall h :: h in s.writes ==> h < |made| && made[h] == PublishQos0)
  }

  lemma KnownStep(s: Life, made: seq<Action>, a: Action)
    requires Known(s, made)
    ensures Known(Next(s, a), made + if Next(s, a).next > s.next then [a] else [])
  {
    hide OrderOf, Taken;
    var s' := Next(s, a);
    if a.Begin? || a.PublishQos0? {
      assert made + [] == made;
    } else {
      assert s'.next == s.next && s'.lost == s.lost;
      assert forall id :: id in s'.table ==> id in s.table && s'.table[id] == s.table[id];
      assert forall h :: h in s'.writes ==> h in s.writes;
      assert made + [] == made;
    }
  }

  lemma {:induction false} KnownRun(s: Life, made: seq<Action>, actions: seq<Action>)
    requires Known(s, made)
    ensures Known(Run(s, actions), made + Registrations(s, actions))
    decreases actions
  {
    hide Known, Next;
    if actions == [] {
      assert made + [] == made;
    } else {
      var s1 := Next(s, actions[0]);
      var one := if s1.next > s.next then [actions[0]] else [];
      KnownStep(s, made, actions[0]);
      KnownRun(s1, made + one, actions[1..]);
      assert made + one + Registrations(s1, actions[1..]) == made + (one + Registrations(s1, actions[1..]));
    }
  }

  lemma RegisteredAs(threads: nat, actions: seq<Action>)
    ensures Known(Run(Init(threads), actions), Registrations(Init(threads), actions))
  {
    hide Run, Registrations;
    KnownRun(Init(threads), [], actions);
    assert [] + Registrations(Init(threads), actions) == Registrations(Init(threads), actions);
  }

  /** When nothing is left in table, writes and hands, every handler has been called exactly once, except those
      registered under id 0, which have not been called. */
  lemma AllCalledInTheEnd(threads: nat, actions: seq<Action>, h: nat)
    requires var s := Run(Init(threads), actions);
      s.table == NO_TABLE && s.writes == [] && Flatten(s.hands) == [] && h < s.next
    ensures var made := Registrations(Init(threads), actions);
      h < |made| && multiset(Run(Init(threads), actions).called)[h] == if made[h] == Begin(0) then 0 else 1
  {
    hide Run, Registrations;
    var s := Run(Init(threads), actions);
    EveryHandlerInOnePlace(threads, actions);
    RegisteredAs(threads, actions);
    assert NO_TABLE.Values == {} && Places(s, h) == 1;
    TimesNone(h);
    assert h in s.lost <==> Times(s.lost, h) > 0;
  }

  lemma CalledOnce(s: Life, h: nat)
    requires OnePlace(s)
    ensures multiset(s.called)[h] <= 1
  {
    assert Places(s, h) <= 1;
  }

  /** A handler registered when all ids were taken is never called. */
  lemma LostIsNeverCalled(threads: nat, before: seq<Action>, after: seq<Action>)
    ensures var s0 := Run(Init(threads), before);
      s0.next !in Run(Next(s0, Begin(0)), after).called
  {
    hide Run, OnePlace;
    var s0 := Run(Init(threads), before);
    var s1 := Next(s0, Begin(0));
    var s2 := Run(s1, after);
    EveryHandlerInOnePlace(threads, before);
    NextKeeps(s0, Begin(0));
    RunKeeps(s1, after);
    LostStays(s1, after, s0.next);
    LostNotCalled(s2, s0.next);
  }

  lemma LostNotCalled(s: Life, h: nat)
    requires OnePlace(s) && h in s.lost
    ensures h !in s.called
  {
    assert Places(s, h) <= 1;
    assert Times(s.lost, h) >= 1;
  }

  lemma {:induction false} LostStays(s: Life, actions: seq<Action>, h: nat)
    requires h in s.lost
    ensures h in Run(s, actions).lost
    decreases actions
  {
    if actions != [] {
      LostStays(Next(s, actions[0]), actions[1..], h);
    }
  }
}
