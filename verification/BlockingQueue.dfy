/** BlockingQueue: a monitor with two condition variables, run by any number of threads. */
module BlockingQueues {

  // ---- threads

  /** Where a thread is. Asleep threads wait on a condition variable; woken ones have still to take the
      lock again and recheck; a notifying one has released the lock and not yet notified. */
  datatype Pc<T> =
    | Idle
    | PushStart(x: T) | PushAsleep(x: T) | PushWoken(x: T) | PushNotify
    | TryPopStart
    | PopStart | PopAsleep | PopWoken | PopNotify
    | PopAllStart | PopAllNotify
    | ClearStart
    | StopStart | StopNotify

  datatype Tag = TPushAsleep | TPushWoken | TPushNotify | TPopAsleep | TPopWoken | TPopNotify
    | TPopAllStart | TPopAllNotify | TStopNotify | TOther

  function TagOf<T>(pc: Pc<T>): Tag {
    match pc
    case PushAsleep(_) => TPushAsleep
    case PushWoken(_) => TPushWoken
    case PushNotify => TPushNotify
    case PopAsleep => TPopAsleep
    case PopWoken => TPopWoken
    case PopNotify => TPopNotify
    case PopAllStart => TPopAllStart
    case PopAllNotify => TPopAllNotify
    case StopNotify => TStopNotify
    case _ => TOther
  }

  /** How many threads are at a place with this tag. */
  function Count<T>(pcs: seq<Pc<T>>, tag: Tag): nat {
    if pcs == [] then 0
    else Count(pcs[..|pcs| - 1], tag) + if TagOf(pcs[|pcs| - 1]) == tag then 1 else 0
  }

  lemma {:induction false} CountUpdate<T>(pcs: seq<Pc<T>>, t: nat, pc: Pc<T>, tag: Tag)
    requires t < |pcs|
    ensures Count(pcs[t := pc], tag) + (if TagOf(pcs[t]) == tag then 1 else 0)
         == Count(pcs, tag) + if TagOf(pc) == tag then 1 else 0
  {
    var n := |pcs| - 1;
    var front := pcs[..n];
    if t < n {
      assert pcs[t := pc][..n] == front[t := pc];
      CountUpdate(front, t, pc, tag);
    } else {
      assert pcs[t := pc][..n] == front;
    }
  }

  lemma {:induction false} CountAtLeast<T>(pcs: seq<Pc<T>>, t: nat)
    requires t < |pcs|
    ensures Count(pcs, TagOf(pcs[t])) >= 1
  {
    if t < |pcs| - 1 {
      CountAtLeast(pcs[..|pcs| - 1], t);
    }
  }

  /** notify_all: everybody asleep on one side is woken. */
  function WakeAll<T>(pcs: seq<Pc<T>>, consumers: bool): (r: seq<Pc<T>>)
    ensures |r| == |pcs|
  {
    if pcs == [] then []
    else
      var pc := pcs[|pcs| - 1];
      WakeAll(pcs[..|pcs| - 1], consumers) +
      [if consumers && pc.PopAsleep? then PopWoken
       else if !consumers && pc.PushAsleep? then PushWoken(pc.x)
       else pc]
  }

  /** The count of `tag` after notify_all. */
  function CountWoken<T>(pcs: seq<Pc<T>>, consumers: bool, tag: Tag): nat {
    var asleep := if consumers then TPopAsleep else TPushAsleep;
    if tag == asleep then 0
    else if tag == (if consumers then TPopWoken else TPushWoken) then Count(pcs, tag) + Count(pcs, asleep)
    else Count(pcs, tag)
  }

  lemma {:induction false} CountWakeAll<T>(pcs: seq<Pc<T>>, consumers: bool, tag: Tag)
    ensures Count(WakeAll(pcs, consumers), tag) == CountWoken(pcs, consumers, tag)
  {
    if pcs != [] {
      var r := WakeAll(pcs, consumers);
      assert r[..|r| - 1] == WakeAll(pcs[..|pcs| - 1], consumers);
      CountWakeAll(pcs[..|pcs| - 1], consumers, tag);
    }
  }

  // ---- the shared state and its atomic steps

  /** `pushed` and `taken` are histories: what has been pushed, and what has left the queue again. */
  datatype State<T> = State(
    elements: seq<T>, quit: bool, maxQueue: nat, pcs: seq<Pc<T>>,
    pushed: seq<T>, taken: seq<T>)

  datatype Call<T> = CallPush(x: T) | CallTryPop | CallPop | CallPopAll | CallClear | CallStop

  datatype Action<T> =
    | Enter(t: nat, call: Call<T>)  // an idle thread calls a method
    | Run(t: nat, w: nat)           // thread t takes its next step; a notify_one reaches thread w
    | Spurious(t: nat)              // a sleeping thread wakes up by itself

  function Init<T>(maxQueue: nat, threads: nat): State<T> {
    State([], false, maxQueue, seq(threads, _ => Idle), [], [])
  }

  function At<T>(s: State<T>, t: nat, pc: Pc<T>): State<T>
    requires t < |s.pcs|
  {
    s.(pcs := s.pcs[t := pc])
  }

  function Entered<T>(call: Call<T>): Pc<T> {
    match call
    case CallPush(x) => PushStart(x)
    case CallTryPop => TryPopStart
    case CallPop => PopStart
    case CallPopAll => PopAllStart
    case CallClear => ClearStart
    case CallStop => StopStart
  }

  function Enqueued<T>(s: State<T>, x: T): State<T> {
    s.(elements := s.elements + [x], pushed := s.pushed + [x])
  }

  function Dequeued<T>(s: State<T>): State<T>
    requires s.elements != []
  {
    s.(elements := s.elements[1..], taken := s.taken + [s.elements[0]])
  }

  function Emptied<T>(s: State<T>): State<T> {
    s.(elements := [], taken := s.taken + s.elements)
  }

  /** Push's locked section, up to the next wait, the early return, or the release of the lock. */
  function PushStep<T>(s: State<T>, t: nat, x: T): State<T>
    requires t < |s.pcs|
  {
    if s.maxQueue != 0 && |s.elements| > s.maxQueue then
      if s.quit then At(Enqueued(s, x), t, Idle) else At(s, t, PushAsleep(x))
    else At(Enqueued(s, x), t, PushNotify)
  }

  function TryPopStep<T>(s: State<T>, t: nat): State<T>
    requires t < |s.pcs|
  {
    if s.elements == [] then At(s, t, Idle) else At(Dequeued(s), t, PopNotify)
  }

  function PopStep<T>(s: State<T>, t: nat): State<T>
    requires t < |s.pcs|
  {
    if s.elements == [] && !s.quit then At(s, t, PopAsleep)
    else if s.quit then At(s, t, Idle)
    else At(Dequeued(s), t, PopNotify)
  }

  /** notify_one, reaching `w` if anybody is asleep on that side; then the notifier is done. */
  function NotifyStep<T>(s: State<T>, t: nat, w: nat, consumers: bool): State<T>
    requires t < |s.pcs|
  {
    var asleep := if consumers then TPopAsleep else TPushAsleep;
    if Count(s.pcs, asleep) == 0 then At(s, t, Idle)
    else if w < |s.pcs| && TagOf(s.pcs[w]) == asleep then At(At(s, w, Woken(s.pcs[w])), t, Idle)
    else s
  }

  function Woken<T>(pc: Pc<T>): Pc<T> {
    match pc
    case PushAsleep(x) => PushWoken(x)
    case PopAsleep => PopWoken
    case _ => pc
  }

  function NotifyAllStep<T>(s: State<T>, t: nat, consumers: bool, next: Pc<T>): State<T>
    requires t < |s.pcs|
  {
    At(s.(pcs := WakeAll(s.pcs, consumers)), t, next)
  }

  /** One action. An action that is not possible changes nothing. */
  function Next<T>(s: State<T>, a: Action<T>): State<T> {
    match a
    case Enter(t, call) =>
      if t < |s.pcs| && s.pcs[t].Idle? then At(s, t, Entered(call)) else s
    case Spurious(t) =>
      if t < |s.pcs| then At(s, t, Woken(s.pcs[t])) else s
    case Run(t, w) =>
      if t >= |s.pcs| then s
      else
        match s.pcs[t]
        case PushStart(x) => PushStep(s, t, x)
        case PushWoken(x) => PushStep(s, t, x)
        case PushNotify => NotifyStep(s, t, w, true)
        case TryPopStart => TryPopStep(s, t)
        case PopStart => PopStep(s, t)
        case PopWoken => PopStep(s, t)
        case PopNotify => NotifyStep(s, t, w, false)
        case PopAllStart => At(Emptied(s), t, PopAllNotify)
        case PopAllNotify => NotifyAllStep(s, t, false, Idle)
        case ClearStart => NotifyAllStep(Emptied(s), t, false, Idle)
        case StopStart => At(s.(quit := true), t, StopNotify)
        case StopNotify => NotifyAllStep(s, t, true, PopAllStart)
        case _ => s
  }

  function RunAll<T>(s: State<T>, actions: seq<Action<T>>): State<T> {
    if actions == [] then s
    else Next(RunAll(s, actions[..|actions| - 1]), actions[|actions| - 1])
  }

  // ---- what holds in every reachable state

  /** No wakeup meant for a sleeping consumer is lost: every element is matched by a notification still
      owed or by a woken consumer still to recheck, unless Stop is about to wake everybody. */
  ghost predicate ConsumersCovered<T>(s: State<T>) {
    Count(s.pcs, TPopAsleep) > 0 ==>
      || Count(s.pcs, TStopNotify) > 0
      || (!s.quit && |s.elements| <= Count(s.pcs, TPushNotify) + Count(s.pcs, TPopWoken))
  }

  /** The same for sleeping producers and free places (Push lets the queue grow to maxQueue + 1). */
  ghost predicate ProducersCovered<T>(s: State<T>) {
    Count(s.pcs, TPushAsleep) > 0 ==>
      && s.maxQueue > 0
      && (|| Count(s.pcs, TPopAllNotify) > 0
          || s.maxQueue + 1 <= |s.elements| + Count(s.pcs, TPopNotify) + Count(s.pcs, TPushWoken))
      && (s.quit ==> Count(s.pcs, TStopNotify) + Count(s.pcs, TPopAllStart) + Count(s.pcs, TPopAllNotify) > 0)
  }

  ghost predicate Inv<T>(s: State<T>) {
    && ConsumersCovered(s)
    && ProducersCovered(s)
    && (Count(s.pcs, TStopNotify) > 0 ==> s.quit)
    && (s.maxQueue > 0 && !s.quit ==> |s.elements| <= s.maxQueue + 1)
    && s.pushed == s.taken + s.elements
  }

  lemma {:induction false} CountIdle<T>(n: nat, tag: Tag)
    requires tag != TOther
    ensures Count(seq(n, _ => Pc<T>.Idle), tag) == 0
  {
    if n > 0 {
      assert seq(n, _ => Pc<T>.Idle)[..n - 1] == seq(n - 1, _ => Pc<T>.Idle);
      CountIdle<T>(n - 1, tag);
    }
  }

  lemma InitInv<T>(maxQueue: nat, threads: nat)
    ensures Inv(Init<T>(maxQueue, threads))
  {
    CountIdle<T>(threads, TPopAsleep);
    CountIdle<T>(threads, TPushAsleep);
    CountIdle<T>(threads, TStopNotify);
  }

  /** The count of `tag` after one thread moved. */
  ghost predicate Shift<T>(pcs: seq<Pc<T>>, t: nat, pc: Pc<T>, tag: Tag)
    requires t < |pcs|
  {
    Count(pcs[t := pc], tag) + (if TagOf(pcs[t]) == tag then 1 else 0)
    == Count(pcs, tag) + if TagOf(pc) == tag then 1 else 0
  }

  /** All counts after one thread moved. */
  lemma Moved<T>(pcs: seq<Pc<T>>, t: nat, pc: Pc<T>)
    requires t < |pcs|
    ensures Shift(pcs, t, pc, TPushAsleep) && Shift(pcs, t, pc, TPushWoken) && Shift(pcs, t, pc, TPushNotify)
    ensures Shift(pcs, t, pc, TPopAsleep) && Shift(pcs, t, pc, TPopWoken) && Shift(pcs, t, pc, TPopNotify)
    ensures Shift(pcs, t, pc, TPopAllStart) && Shift(pcs, t, pc, TPopAllNotify) && Shift(pcs, t, pc, TStopNotify)
    ensures Count(pcs, TagOf(pcs[t])) >= 1 && Count(pcs[t := pc], TagOf(pc)) >= 1
  {
    hide Count;
    CountUpdate(pcs, t, pc, TPushAsleep);
    CountUpdate(pcs, t, pc, TPushWoken);
    CountUpdate(pcs, t, pc, TPushNotify);
    CountUpdate(pcs, t, pc, TPopAsleep);
    CountUpdate(pcs, t, pc, TPopWoken);
    CountUpdate(pcs, t, pc, TPopNotify);
    CountUpdate(pcs, t, pc, TPopAllStart);
    CountUpdate(pcs, t, pc, TPopAllNotify);
    CountUpdate(pcs, t, pc, TStopNotify);
    CountAtLeast(pcs, t);
    CountAtLeast(pcs[t := pc], t);
  }

  lemma PushInv<T>(s: State<T>, t: nat, x: T)
    requires Inv(s) && t < |s.pcs| && (s.pcs[t] == PushStart(x) || s.pcs[t] == PushWoken(x))
    ensures Inv(PushStep(s, t, x))
  {
    hide Count;
    Moved(s.pcs, t, Idle);
    Moved(s.pcs, t, PushAsleep(x));
    Moved(s.pcs, t, PushNotify);
  }

  lemma TryPopInv<T>(s: State<T>, t: nat)
    requires Inv(s) && t < |s.pcs| && s.pcs[t] == TryPopStart
    ensures Inv(TryPopStep(s, t))
  {
    hide Count;
    Moved(s.pcs, t, Idle);
    Moved(s.pcs, t, PopNotify);
  }

  lemma PopInv<T>(s: State<T>, t: nat)
    requires Inv(s) && t < |s.pcs| && (s.pcs[t] == PopStart || s.pcs[t] == PopWoken)
    ensures Inv(PopStep(s, t))
  {
    hide Count;
    Moved(s.pcs, t, Idle);
    Moved(s.pcs, t, PopAsleep);
    Moved(s.pcs, t, PopNotify);
  }

  lemma NotifyInv<T>(s: State<T>, t: nat, w: nat, consumers: bool)
    requires Inv(s) && t < |s.pcs| && s.pcs[t] == if consumers then PushNotify else PopNotify
    ensures Inv(NotifyStep(s, t, w, consumers))
  {
    hide Count;
    Moved(s.pcs, t, Idle);
    var asleep := if consumers then TPopAsleep else TPushAsleep;
    if w < |s.pcs| && TagOf(s.pcs[w]) == asleep {
      Moved(s.pcs, w, Woken(s.pcs[w]));
      Moved(s.pcs[w := Woken(s.pcs[w])], t, Idle);
    }
  }

  lemma AllWoken<T>(pcs: seq<Pc<T>>, consumers: bool)
    ensures var woken := WakeAll(pcs, consumers);
      && Count(woken, TPushAsleep) == (if consumers then Count(pcs, TPushAsleep) else 0)
      && Count(woken, TPushWoken) == Count(pcs, TPushWoken) + (if consumers then 0 else Count(pcs, TPushAsleep))
      && Count(woken, TPopAsleep) == (if consumers then 0 else Count(pcs, TPopAsleep))
      && Count(woken, TPopWoken) == Count(pcs, TPopWoken) + (if consumers then Count(pcs, TPopAsleep) else 0)
      && Count(woken, TPushNotify) == Count(pcs, TPushNotify) && Count(woken, TPopNotify) == Count(pcs, TPopNotify)
      && Count(woken, TPopAllStart) == Count(pcs, TPopAllStart)
      && Count(woken, TPopAllNotify) == Count(pcs, TPopAllNotify)
      && Count(woken, TStopNotify) == Count(pcs, TStopNotify)
  {
    hide Count, WakeAll;
    CountWakeAll(pcs, consumers, TPushAsleep);
    CountWakeAll(pcs, consumers, TPushWoken);
    CountWakeAll(pcs, consumers, TPushNotify);
    CountWakeAll(pcs, consumers, TPopAsleep);
    CountWakeAll(pcs, consumers, TPopWoken);
    CountWakeAll(pcs, consumers, TPopNotify);
    CountWakeAll(pcs, consumers, TPopAllStart);
    CountWakeAll(pcs, consumers, TPopAllNotify);
    CountWakeAll(pcs, consumers, TStopNotify);
  }

  lemma {:induction false} WakeAllKeeps<T>(pcs: seq<Pc<T>>, consumers: bool, t: nat)
    requires t < |pcs| && !pcs[t].PopAsleep? && !pcs[t].PushAsleep?
    ensures WakeAll(pcs, consumers)[t] == pcs[t]
  {
    if t < |pcs| - 1 {
      WakeAllKeeps(pcs[..|pcs| - 1], consumers, t);
    }
  }

  lemma WakeInv<T>(s: State<T>, t: nat, consumers: bool, next: Pc<T>)
    requires Inv(s) && t < |s.pcs|
    requires consumers ==> s.pcs[t] == StopNotify && next == PopAllStart
    requires !consumers ==> s.pcs[t] == PopAllNotify && next == Idle
    ensures Inv(NotifyAllStep(s, t, consumers, next))
  {
    hide Count, WakeAll;
    AllWoken(s.pcs, consumers);
    WakeAllKeeps(s.pcs, consumers, t);
    Moved(WakeAll(s.pcs, consumers), t, next);
  }

  lemma PopAllInv<T>(s: State<T>, t: nat)
    requires Inv(s) && t < |s.pcs| && s.pcs[t] == PopAllStart
    ensures Inv(At(Emptied(s), t, PopAllNotify))
  {
    hide Count;
    Moved(s.pcs, t, PopAllNotify);
  }

  lemma ClearInv<T>(s: State<T>, t: nat)
    requires Inv(s) && t < |s.pcs| && s.pcs[t] == ClearStart
    ensures Inv(NotifyAllStep(Emptied(s), t, false, Idle))
  {
    hide Count, WakeAll;
    AllWoken(s.pcs, false);
    WakeAllKeeps(s.pcs, false, t);
    Moved(WakeAll(s.pcs, false), t, Idle);
  }

  lemma StopInv<T>(s: State<T>, t: nat)
    requires Inv(s) && t < |s.pcs| && s.pcs[t] == StopStart
    ensures Inv(At(s.(quit := true), t, StopNotify))
  {
    hide Count;
    Moved(s.pcs, t, StopNotify);
  }

  lemma NextInv<T>(s: State<T>, a: Action<T>)
    requires Inv(s)
    ensures Inv(Next(s, a))
  {
    hide Count, Inv, WakeAll;
    match a
    case Enter(t, call) =>
      if t < |s.pcs| && s.pcs[t].Idle? {
        EnterInv(s, t, call);
      }
    case Spurious(t) =>
      if t < |s.pcs| {
        SpuriousInv(s, t);
      }
    case Run(t, w) =>
      if t < |s.pcs| {
        match s.pcs[t]
        case PushStart(x) => PushInv(s, t, x);
        case PushWoken(x) => PushInv(s, t, x);
        case PushNotify => NotifyInv(s, t, w, true);
        case TryPopStart => TryPopInv(s, t);
        case PopStart => PopInv(s, t);
        case PopWoken => PopInv(s, t);
        case PopNotify => NotifyInv(s, t, w, false);
        case PopAllStart => PopAllInv(s, t);
        case PopAllNotify => WakeInv(s, t, false, Idle);
        case ClearStart => ClearInv(s, t);
        case StopStart => StopInv(s, t);
        case StopNotify => WakeInv(s, t, true, PopAllStart);
        case _ =>
      }
  }

  lemma EnterInv<T>(s: State<T>, t: nat, call: Call<T>)
    requires Inv(s) && t < |s.pcs| && s.pcs[t].Idle?
    ensures Inv(At(s, t, Entered(call)))
  {
    hide Count;
    Moved(s.pcs, t, Entered(call));
  }

  lemma SpuriousInv<T>(s: State<T>, t: nat)
    requires Inv(s) && t < |s.pcs|
    ensures Inv(At(s, t, Woken(s.pcs[t])))
  {
    hide Count;
    Moved(s.pcs, t, Woken(s.pcs[t]));
  }

  // ---- the theorems: any number of threads, any calls, any interleaving

  lemma {:induction false} NoLostWakeup<T>(maxQueue: nat, threads: nat, actions: seq<Action<T>>)
    ensures Inv(RunAll(Init(maxQueue, threads), actions))
  {
    hide Inv, Next, Init;
    if actions == [] {
      InitInv<T>(maxQueue, threads);
    } else {
      NoLostWakeup(maxQueue, threads, actions[..|actions| - 1]);
      NextInv(RunAll(Init(maxQueue, threads), actions[..|actions| - 1]), actions[|actions| - 1]);
    }
  }

  /** Nobody owes a notification, and nobody has been woken without having rechecked. */
  ghost predicate Settled<T>(s: State<T>) {
    forall t :: 0 <= t < |s.pcs| ==>
      var pc := s.pcs[t];
      !pc.PushNotify? && !pc.PopNotify? && !pc.PopAllNotify? && !pc.StopNotify? && !pc.PushWoken? && !pc.PopWoken?
  }

  lemma {:induction false} CountNone<T>(pcs: seq<Pc<T>>, tag: Tag)
    requires forall t :: 0 <= t < |pcs| ==> TagOf(pcs[t]) != tag
    ensures Count(pcs, tag) == 0
  {
    if pcs != [] {
      CountNone(pcs[..|pcs| - 1], tag);
    }
  }

  /** Once things have settled, a consumer sleeps only on an empty, running queue and a producer only on
      a full one; so the two sides never sleep at once. */
  lemma SettledSleepers<T>(maxQueue: nat, threads: nat, actions: seq<Action<T>>, t: nat)
    requires var s := RunAll(Init(maxQueue, threads), actions);
      Settled(s) && t < |s.pcs| && (s.pcs[t].PopAsleep? || s.pcs[t].PushAsleep?)
    ensures var s := RunAll(Init(maxQueue, threads), actions);
      && (s.pcs[t].PopAsleep? ==> s.elements == [] && !s.quit)
      && (s.pcs[t].PushAsleep? ==> |s.elements| > s.maxQueue > 0)
      && forall u :: 0 <= u < |s.pcs| ==>
           (s.pcs[t].PopAsleep? ==> !s.pcs[u].PushAsleep?) && (s.pcs[t].PushAsleep? ==> !s.pcs[u].PopAsleep?)
  {
    hide Count, RunAll, Init;
    var s := RunAll(Init(maxQueue, threads), actions);
    NoLostWakeup(maxQueue, threads, actions);
    SettledCounts(s);
    forall u | 0 <= u < |s.pcs|
      ensures Count(s.pcs, TagOf(s.pcs[u])) >= 1
    {
      CountAtLeast(s.pcs, u);
    }
  }

  lemma SettledCounts<T>(s: State<T>)
    requires Settled(s)
    ensures Count(s.pcs, TPushNotify) == Count(s.pcs, TPopNotify) == Count(s.pcs, TPopAllNotify) == 0
    ensures Count(s.pcs, TStopNotify) == Count(s.pcs, TPushWoken) == Count(s.pcs, TPopWoken) == 0
  {
    CountNone(s.pcs, TPushNotify);
    CountNone(s.pcs, TPopNotify);
    CountNone(s.pcs, TPopAllNotify);
    CountNone(s.pcs, TStopNotify);
    CountNone(s.pcs, TPushWoken);
    CountNone(s.pcs, TPopWoken);
  }

  /** After Stop, and with no thread inside Stop or PopAll any more, nobody is asleep. */
  lemma StopReleasesAll<T>(maxQueue: nat, threads: nat, actions: seq<Action<T>>, t: nat)
    requires var s := RunAll(Init(maxQueue, threads), actions);
      && s.quit && t < |s.pcs|
      && forall u :: 0 <= u < |s.pcs| ==> !s.pcs[u].StopNotify? && !s.pcs[u].PopAllStart? && !s.pcs[u].PopAllNotify?
    ensures var s := RunAll(Init(maxQueue, threads), actions);
      !s.pcs[t].PushAsleep? && !s.pcs[t].PopAsleep?
  {
    hide Count, RunAll, Init;
    var s := RunAll(Init(maxQueue, threads), actions);
    NoLostWakeup(maxQueue, threads, actions);
    CountNone(s.pcs, TStopNotify);
    CountNone(s.pcs, TPopAllStart);
    CountNone(s.pcs, TPopAllNotify);
    CountAtLeast(s.pcs, t);
  }

  /** Elements leave in the order in which they came, none twice and none made up; and while the queue
      runs it holds at most maxQueue + 1. */
  lemma FirstInFirstOut<T>(maxQueue: nat, threads: nat, actions: seq<Action<T>>)
    ensures var s := RunAll(Init(maxQueue, threads), actions);
      && s.taken <= s.pushed && s.elements == s.pushed[|s.taken|..]
      && (s.maxQueue > 0 && !s.quit ==> |s.elements| <= s.maxQueue + 1)
  {
    hide Count, RunAll, Init;
    NoLostWakeup(maxQueue, threads, actions);
  }

  /** notify_one reaches any one sleeper of the other side, and the notifier is done; with none asleep, it is done. */
  lemma NotifyOne<T>(s: State<T>, t: nat, w: nat)
    requires t < |s.pcs| && w < |s.pcs| && (s.pcs[t].PushNotify? || s.pcs[t].PopNotify?)
    ensures s.pcs[t].PushNotify? && s.pcs[w].PopAsleep? ==>
      Next(s, Run(t, w)) == s.(pcs := s.pcs[w := PopWoken][t := Idle])
    ensures s.pcs[t].PopNotify? && s.pcs[w].PushAsleep? ==>
      Next(s, Run(t, w)) == s.(pcs := s.pcs[w := PushWoken(s.pcs[w].x)][t := Idle])
    ensures (forall u :: 0 <= u < |s.pcs| ==>
               !(if s.pcs[t].PushNotify? then s.pcs[u].PopAsleep? else s.pcs[u].PushAsleep?))
      ==> Next(s, Run(t, w)) == s.(pcs := s.pcs[t := Idle])
  {
    hide Count;
    CountAtLeast(s.pcs, w);
    if forall u :: 0 <= u < |s.pcs| ==> !(if s.pcs[t].PushNotify? then s.pcs[u].PopAsleep? else s.pcs[u].PushAsleep?) {
      CountNone(s.pcs, if s.pcs[t].PushNotify? then TPopAsleep else TPushAsleep);
    }
  }

  // ---- what goes in comes out once: by the calls alone, without the histories of the state

  /** What this action puts into the queue: the element of a Push whose locked section does not wait. */
  function In<T>(s: State<T>, a: Action<T>): seq<T> {
    if !a.Run? || a.t >= |s.pcs| then []
    else if s.pcs[a.t].PushStart? || s.pcs[a.t].PushWoken? then
      if s.maxQueue != 0 && |s.elements| > s.maxQueue && !s.quit then [] else [s.pcs[a.t].x]
    else []
  }

  /** What it hands out or throws away: the front for TryPop and for WaitForPop before Stop, everything for PopAll
      and Clear. */
  function Out<T>(s: State<T>, a: Action<T>): seq<T> {
    if !a.Run? || a.t >= |s.pcs| || s.elements == [] then []
    else
      match s.pcs[a.t]
      case TryPopStart => [s.elements[0]]
      case PopStart => if s.quit then [] else [s.elements[0]]
      case PopWoken => if s.quit then [] else [s.elements[0]]
      case PopAllStart => s.elements
      case ClearStart => s.elements
      case _ => []
  }

  function AllIn<T>(s: State<T>, actions: seq<Action<T>>): seq<T> {
    if actions == [] then []
    else
      var front := actions[..|actions| - 1];
      AllIn(s, front) + In(RunAll(s, front), actions[|actions| - 1])
  }

  function AllOut<T>(s: State<T>, actions: seq<Action<T>>): seq<T> {
    if actions == [] then []
    else
      var front := actions[..|actions| - 1];
      AllOut(s, front) + Out(RunAll(s, front), actions[|actions| - 1])
  }

  lemma OneInOut<T>(s: State<T>, a: Action<T>)
    ensures s.elements + In(s, a) == Out(s, a) + Next(s, a).elements
    ensures Next(s, a).taken == s.taken + Out(s, a) && Next(s, a).pushed == s.pushed + In(s, a)
  {
    hide Count, WakeAll;
  }

  /** In every run: what the calls have put in is, in this order, what the calls have handed out and what is still in
      the queue. So each element leaves at most once; and the histories are these records. */
  lemma {:induction false} InIsOut<T>(maxQueue: nat, threads: nat, actions: seq<Action<T>>)
    ensures var s0 := Init<T>(maxQueue, threads); var s := RunAll(s0, actions);
      && AllIn(s0, actions) == AllOut(s0, actions) + s.elements
      && s.taken == AllOut(s0, actions) && s.pushed == AllIn(s0, actions)
  {
    hide Next, In, Out;
    if actions != [] {
      var front := actions[..|actions| - 1];
      InIsOut(maxQueue, threads, front);
      var s := RunAll(Init<T>(maxQueue, threads), front);
      OneInOut(s, actions[|actions| - 1]);
      var x, y := AllOut(Init<T>(maxQueue, threads), front), actions[|actions| - 1];
      assert x + s.elements + In(s, y) == x + (s.elements + In(s, y));
    }
  }

  /** Who is woken by notify_all, thread by thread. */
  lemma {:induction false} WokenAt<T>(pcs: seq<Pc<T>>, consumers: bool, t: nat)
    requires t < |pcs|
    ensures WakeAll(pcs, consumers)[t] ==
      match pcs[t]
      case PopAsleep => if consumers then PopWoken else PopAsleep
      case PushAsleep(x) => if consumers then PushAsleep(x) else PushWoken(x)
      case _ => pcs[t]
  {
    if t < |pcs| - 1 {
      WokenAt(pcs[..|pcs| - 1], consumers, t);
    }
  }

  // ---- the bound: maxQueue + 1 while the queue runs, none once it has been stopped

  /** A Push takes the queue past its bound exactly when the queue is full already. */
  lemma PushPassesBoundIff<T>(s: State<T>, t: nat, w: nat, x: T)
    requires t < |s.pcs| && (s.pcs[t] == PushStart(x) || s.pcs[t] == PushWoken(x))
    requires !s.quit && s.maxQueue > 0 && |s.elements| <= s.maxQueue
    ensures |Next(s, Run(t, w)).elements| > s.maxQueue <==> |s.elements| == s.maxQueue
  {
  }

  /** Thread 0 pushes `x`, `n` times in a row. */
  function Pushes<T>(x: T, n: nat): seq<Action<T>> {
    if n == 0 then [] else Pushes(x, n - 1) + [Enter(0, CallPush(x)), Run(0, 0), Run(0, 0)]
  }

  function Copies<T>(x: T, n: nat): seq<T> {
    if n == 0 then [] else Copies(x, n - 1) + [x]
  }

  lemma {:induction false} CopiesLength<T>(x: T, n: nat)
    ensures |Copies(x, n)| == n
  {
    if n > 0 {
      CopiesLength(x, n - 1);
    }
  }

  ghost predicate Quiet<T>(s: State<T>) {
    s.pcs != [] && forall t :: 0 <= t < |s.pcs| ==> s.pcs[t].Idle?
  }

  lemma RunOne<T>(s: State<T>, front: seq<Action<T>>, a: Action<T>)
    ensures RunAll(s, front + [a]) == Next(RunAll(s, front), a)
  {
    hide Next;
    assert (front + [a])[..|front|] == front;
  }

  lemma RunThree<T>(s: State<T>, front: seq<Action<T>>, a: Action<T>, b: Action<T>, c: Action<T>)
    ensures RunAll(s, front + [a, b, c]) == Next(Next(Next(RunAll(s, front), a), b), c)
  {
    hide Next, RunAll;
    RunOne(s, front, a);
    RunOne(s, front + [a], b);
    RunOne(s, front + [a] + [b], c);
    assert front + [a, b, c] == front + [a] + [b] + [c];
  }

  lemma OnePush<T>(s: State<T>, x: T)
    requires Quiet(s) && (s.quit || s.maxQueue == 0 || |s.elements| <= s.maxQueue)
    ensures Next(Next(Next(s, Enter(0, CallPush(x))), Run(0, 0)), Run(0, 0)) == Enqueued(s, x)
  {
    hide Count;
    var s2 := Next(Next(s, Enter(0, CallPush(x))), Run(0, 0));
    CountNone(s2.pcs, TPopAsleep);
    assert Next(s2, Run(0, 0)).pcs == s.pcs;
  }

  lemma {:induction false} PushesAppend<T>(s: State<T>, x: T, n: nat)
    requires Quiet(s) && (s.quit || s.maxQueue == 0 || |s.elements| + n <= s.maxQueue + 1)
    ensures RunAll(s, Pushes(x, n)) == s.(elements := s.elements + Copies(x, n), pushed := s.pushed + Copies(x, n))
  {
    hide Next;
    if n > 0 {
      PushesAppend(s, x, n - 1);
      CopiesLength(x, n - 1);
      RunThree(s, Pushes(x, n - 1), Enter(0, CallPush(x)), Run(0, 0), Run(0, 0));
      OnePush(RunAll(s, Pushes(x, n - 1)), x);
      assert s.elements + Copies(x, n - 1) + [x] == s.elements + Copies(x, n);
      assert s.pushed + Copies(x, n - 1) + [x] == s.pushed + Copies(x, n);
    }
  }

  /** For every bound, maxQueue + 1 elements are reached, with any number of threads. */
  lemma OneTooMany<T>(maxQueue: nat, threads: nat, x: T)
    requires maxQueue > 0 && threads > 0
    ensures var s := RunAll(Init(maxQueue, threads), Pushes(x, maxQueue + 1));
      !s.quit && |s.elements| == maxQueue + 1
  {
    PushesAppend(Init(maxQueue, threads), x, maxQueue + 1);
    CopiesLength(x, maxQueue + 1);
  }

  lemma {:induction false} RunConcat<T>(s: State<T>, p: seq<Action<T>>, q: seq<Action<T>>)
    ensures RunAll(s, p + q) == RunAll(RunAll(s, p), q)
    decreases |q|
  {
    hide Next;
    if q == [] {
      assert p + q == p;
    } else {
      assert (p + q)[..|p + q| - 1] == p + q[..|q| - 1];
      RunConcat(s, p, q[..|q| - 1]);
    }
  }

  function StopRun<T>(): seq<Action<T>> {
    [Enter(0, CallStop), Run(0, 0), Run(0, 0)] + [Run(0, 0), Run(0, 0)]
  }

  lemma {:induction false} NobodyWakes<T>(pcs: seq<Pc<T>>, consumers: bool)
    requires forall t :: 0 <= t < |pcs| ==> !pcs[t].PushAsleep? && !pcs[t].PopAsleep?
    ensures WakeAll(pcs, consumers) == pcs
  {
    if pcs != [] {
      NobodyWakes(pcs[..|pcs| - 1], consumers);
    }
  }

  lemma Stopping<T>(s: State<T>)
    requires Quiet(s)
    ensures Next(Next(Next(s, Enter(0, CallStop)), Run(0, 0)), Run(0, 0)) == At(s.(quit := true), 0, PopAllStart)
  {
    hide WakeAll, Count;
    NobodyWakes(s.pcs[0 := StopNotify], true);
    var s2 := Next(Next(s, Enter(0, CallStop)), Run(0, 0));
    assert s2.pcs == s.pcs[0 := StopNotify];
    assert s.pcs[0 := StopNotify][0 := PopAllStart] == s.pcs[0 := PopAllStart];
  }

  lemma PoppingAll<T>(s: State<T>)
    requires Quiet(s) && s.elements == []
    ensures Next(Next(At(s, 0, PopAllStart), Run(0, 0)), Run(0, 0)) == s
  {
    hide WakeAll, Count;
    NobodyWakes(s.pcs[0 := PopAllNotify], false);
    var s1 := Next(At(s, 0, PopAllStart), Run(0, 0));
    assert s1.pcs == s.pcs[0 := PopAllNotify];
    assert s.pcs[0 := PopAllNotify][0 := Idle] == s.pcs;
  }

  lemma StopStops<T>(s: State<T>)
    requires Quiet(s) && s.elements == []
    ensures RunAll(s, StopRun()) == s.(quit := true)
  {
    hide Next, RunAll;
    var a: Action<T> := Run(0, 0);
    var front := [Enter(0, CallStop), a, a];
    RunThree(s, [], Enter(0, CallStop), a, a);
    assert [] + [Enter(0, CallStop), a, a] == front;
    assert RunAll(s, []) == s by {
      NoActions(s);
    }
    Stopping(s);
    RunOne(s, front, a);
    RunOne(s, front + [a], a);
    assert front + [a] + [a] == StopRun();
    PoppingAll(s.(quit := true));
  }

  lemma NoActions<T>(s: State<T>)
    ensures RunAll(s, []) == s
  {
  }

  /** After Stop nothing bounds the queue: any number of elements is reached. */
  lemma StoppedHasNoBound<T>(maxQueue: nat, threads: nat, x: T, n: nat)
    requires threads > 0
    ensures var s := RunAll(Init(maxQueue, threads), StopRun() + Pushes(x, n)); s.quit && |s.elements| == n
  {
    hide StopRun, Next;
    var s := Init<T>(maxQueue, threads);
    RunConcat(s, StopRun(), Pushes(x, n));
    StopStops(s);
    PushesAppend(s.(quit := true), x, n);
    CopiesLength(x, n);
  }

  // ---- the class: each method body below is one locked section, run by thread `t`

  /** How a locked section ends: waiting on the condition variable, returning at once, or releasing the
      lock with a notification to follow. */
  datatype Outcome = Waits | Returns | Notifies

  class BlockingQueue<T(0)> {
    const maxQueue: nat
    var quit: bool
    var elements: seq<T>
    ghost var pcs: seq<Pc<T>>
    ghost var pushed: seq<T>
    ghost var taken: seq<T>

    ghost function Shared(): State<T>
      reads this
    {
      State(elements, quit, maxQueue, pcs, pushed, taken)
    }

    constructor (maxQueue: nat, ghost threads: nat)
      ensures Shared() == Init(maxQueue, threads) && Inv(Shared())
    {
      this.maxQueue, quit, elements := maxQueue, false, [];
      pcs, pushed, taken := seq(threads, _ => Idle), [], [];
      new;
      InitInv<T>(maxQueue, threads);
    }

    method Push(element: T, ghost t: nat) returns (outcome: Outcome)
      requires Inv(Shared()) && t < |pcs| && (pcs[t] == PushStart(element) || pcs[t] == PushWoken(element))
      modifies this
      ensures Shared() == PushStep(old(Shared()), t, element) && Inv(Shared())
      ensures pcs[t] == match outcome case Waits => PushAsleep(element) case Returns => Idle case Notifies => PushNotify
      ensures var full := maxQueue != 0 && |old(elements)| > maxQueue;
        && outcome == (if full then if quit then Returns else Waits else Notifies) && quit == old(quit)
        && elements == old(elements) + (if outcome == Waits then [] else [element])
      ensures In(old(Shared()), Run(t, 0)) == if outcome == Waits then [] else [element]
    {
      PushInv(Shared(), t, element);
      if maxQueue != 0 {
        if |elements| > maxQueue {
          if quit {
            elements := elements + [element];
            pushed, pcs := pushed + [element], pcs[t := Idle];
            return Returns;
          }
          pcs := pcs[t := PushAsleep(element)];
          return Waits;
        }
      }
      elements := elements + [element];
      pushed, pcs := pushed + [element], pcs[t := PushNotify];
      outcome := Notifies;
    }

    method TryPop(ghost t: nat) returns (ok: bool, element: T)
      requires Inv(Shared()) && t < |pcs| && pcs[t] == TryPopStart
      modifies this
      ensures Shared() == TryPopStep(old(Shared()), t) && Inv(Shared())
      ensures ok == (old(elements) != []) && (ok ==> pcs[t] == PopNotify)
      ensures old(elements) == (if ok then [element] else []) + elements && quit == old(quit)
      ensures Out(old(Shared()), Run(t, 0)) == if ok then [element] else []
    {
      TryPopInv(Shared(), t);
      element := *;
      if elements == [] {
        pcs := pcs[t := Idle];
        return false, element;
      }
      element := elements[0];
      taken, pcs := taken + [element], pcs[t := PopNotify];
      elements := elements[1..];
      ok := true;
    }

    method WaitForPop(ghost t: nat) returns (outcome: Outcome, result: T)
      requires Inv(Shared()) && t < |pcs| && (pcs[t] == PopStart || pcs[t] == PopWoken)
      modifies this
      ensures Shared() == PopStep(old(Shared()), t) && Inv(Shared())
      ensures pcs[t] == match outcome case Waits => PopAsleep case Returns => Idle case Notifies => PopNotify
      ensures old(elements) == (if outcome == Notifies then [result] else []) + elements && quit == old(quit)
      ensures outcome == if quit then Returns else if old(elements) == [] then Waits else Notifies
      ensures Out(old(Shared()), Run(t, 0)) == if outcome == Notifies then [result] else []
    {
      PopInv(Shared(), t);
      result := *;
      if elements == [] && !quit {
        pcs := pcs[t := PopAsleep];
        return Waits, result;
      }
      if quit {
        pcs := pcs[t := Idle];
        return Returns, result;
      }
      result := elements[0];
      taken, pcs := taken + [result], pcs[t := PopNotify];
      elements := elements[1..];
      outcome := Notifies;
    }

    method PopAll(ghost t: nat) returns (result: seq<T>)
      requires Inv(Shared()) && t < |pcs| && pcs[t] == PopAllStart
      modifies this
      ensures Shared() == At(Emptied(old(Shared())), t, PopAllNotify) && Inv(Shared())
      ensures result == old(elements) && elements == [] && taken == old(taken) + result && quit == old(quit)
      ensures Out(old(Shared()), Run(t, 0)) == result
    {
      PopAllInv(Shared(), t);
      result := elements;
      taken, pcs := taken + elements, pcs[t := PopAllNotify];
      elements := [];
    }

    /** Here the notify_all is inside the locked section. */
    method Clear(ghost t: nat)
      requires Inv(Shared()) && t < |pcs| && pcs[t] == ClearStart
      modifies this
      ensures Shared() == NotifyAllStep(Emptied(old(Shared())), t, false, Idle) && Inv(Shared())
      ensures elements == [] && taken == old(taken) + old(elements) && quit == old(quit)
      ensures forall u :: 0 <= u < |pcs| && u != t ==>
        pcs[u] == if old(pcs[u]).PushAsleep? then PushWoken(old(pcs[u]).x) else old(pcs[u])
      ensures Out(old(Shared()), Run(t, 0)) == old(elements)
    {
      ClearInv(Shared(), t);
      forall u | 0 <= u < |pcs|
        ensures WakeAll(pcs, false)[u] == if pcs[u].PushAsleep? then PushWoken(pcs[u].x) else pcs[u]
      {
        WokenAt(pcs, false, u);
      }
      taken, pcs := taken + elements, WakeAll(pcs, false)[t := Idle];
      elements := [];
    }

    method Stop(ghost t: nat)
      requires Inv(Shared()) && t < |pcs| && pcs[t] == StopStart
      modifies this
      ensures Shared() == At(old(Shared()).(quit := true), t, StopNotify) && Inv(Shared())
      ensures quit && elements == old(elements) && pcs == old(pcs)[t := StopNotify]
    {
      StopInv(Shared(), t);
      quit := true;
      pcs := pcs[t := StopNotify];
    }
  }
}
