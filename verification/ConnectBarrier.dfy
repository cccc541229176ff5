/** The completion barrier of a device that connects many channels at once. */
module ConnectBarrier {

  datatype Status = Connected | Disconnected

  /** Where the connect handler of one channel is; `complete` is what its own increment told it. */
  datatype Pc = Waiting | Counted(complete: bool) | Added(complete: bool) | Done(complete: bool)

  datatype Handler = Handler(failed: bool, pc: Pc)

  /** `connects` and `fails` are the two atomic counters. */
  datatype State = State(handlers: seq<Handler>, connects: nat, fails: nat, reports: seq<Status>)

  function Init(failed: seq<bool>): State {
    State(seq(|failed|, i requires 0 <= i < |failed| => Handler(failed[i], Waiting)), 0, 0, [])
  }

  /** One atomic piece of handler `i`. */
  function Piece(s: State, i: nat): State {
    if i >= |s.handlers| then s else
    var h := s.handlers[i];
    match h.pc
    case Waiting => At(s.(connects := s.connects + 1), i, Counted(s.connects + 1 >= |s.handlers|))
    case Counted(complete) => At(if h.failed then s.(fails := s.fails + 1) else s, i, Added(complete))
    case Added(complete) =>
      At(if complete then s.(reports := s.reports + [StatusNow(s)]) else s, i, Done(complete))
    case Done(_) => s
  }

  function At(s: State, i: nat, pc: Pc): State
    requires i < |s.handlers|
  {
    s.(handlers := s.handlers[i := Handler(s.handlers[i].failed, pc)])
  }

  function StatusNow(s: State): Status {
    if s.fails == |s.handlers| then Disconnected else Connected
  }

  function Run(s: State, schedule: seq<nat>): State
    decreases schedule
  {
    if schedule == [] then s else Run(Piece(s, schedule[0]), schedule[1..])
  }

  // ---- counting handlers

  function Count(q: seq<Handler>, p: Handler -> bool): (n: nat)
    ensures n <= |q|
  {
    if q == [] then 0 else (if p(q[0]) then 1 else 0) + Count(q[1..], p)
  }

  lemma {:induction false} CountUpdate(q: seq<Handler>, i: nat, h: Handler, p: Handler -> bool)
    requires i < |q|
    ensures Count(q[i := h], p) + (if p(q[i]) then 1 else 0) == Count(q, p) + if p(h) then 1 else 0
  {
    if i == 0 {
      assert q[0 := h][1..] == q[1..];
    } else {
      assert q[i := h][1..] == q[1..][i - 1 := h];
      CountUpdate(q[1..], i - 1, h, p);
    }
  }

  lemma {:induction false} CountAll(q: seq<Handler>, p: Handler -> bool)
    ensures Count(q, p) == |q| <==> forall i :: 0 <= i < |q| ==> p(q[i])
  {
    if q != [] {
      CountAll(q[1..], p);
      assert forall i :: 0 < i < |q| ==> q[i] == q[1..][i - 1];
    }
  }

  lemma {:induction false} CountNone(q: seq<Handler>, p: Handler -> bool)
    requires forall i :: 0 <= i < |q| ==> !p(q[i])
    ensures Count(q, p) == 0
  {
    if q != [] {
      CountNone(q[1..], p);
    }
  }

  lemma {:induction false} CountSome(q: seq<Handler>, i: nat, p: Handler -> bool)
    requires i < |q| && p(q[i])
    ensures Count(q, p) >= 1
  {
    if i > 0 {
      CountSome(q[1..], i - 1, p);
    }
  }

  const ENTERED := (h: Handler) => !h.pc.Waiting?
  const FAILED := (h: Handler) => h.failed && (h.pc.Added? || h.pc.Done?)
  const CHOSEN := (h: Handler) => !h.pc.Waiting? && h.pc.complete
  const REPORTED := (h: Handler) => h.pc.Done? && h.pc.complete

  ghost predicate Inv(s: State) {
    && s.connects == Count(s.handlers, ENTERED)
    && s.fails == Count(s.handlers, FAILED)
    && Count(s.handlers, CHOSEN) == (if s.connects == |s.handlers| && s.handlers != [] then 1 else 0)
    && |s.reports| == Count(s.handlers, REPORTED) <= Count(s.handlers, CHOSEN)
    && (Disconnected in s.reports ==> forall i :: 0 <= i < |s.handlers| ==> s.handlers[i].failed)
  }

  lemma InitInv(failed: seq<bool>)
    ensures Inv(Init(failed))
  {
    var q := Init(failed).handlers;
    CountNone(q, ENTERED);
    CountNone(q, FAILED);
    CountNone(q, CHOSEN);
    CountNone(q, REPORTED);
  }

  lemma PieceKeeps(s: State, i: nat)
    requires Inv(s)
    ensures Inv(Piece(s, i))
  {
    hide Count;
    if i < |s.handlers| {
      var h := Piece(s, i).handlers[i];
      CountUpdate(s.handlers, i, h, ENTERED);
      CountUpdate(s.handlers, i, h, FAILED);
      CountUpdate(s.handlers, i, h, CHOSEN);
      CountUpdate(s.handlers, i, h, REPORTED);
      assert Piece(s, i).handlers == s.handlers[i := h];
      AllFailed(s);
      StillOpen(s, i);
    }
  }

  /** Before its increment a handler is missing in the count, and one that has yet to report is chosen
      and not reported. */
  lemma StillOpen(s: State, i: nat)
    requires i < |s.handlers|
    ensures s.handlers[i].pc.Waiting? ==> Count(s.handlers, ENTERED) < |s.handlers|
    ensures s.handlers[i].pc.Added? && s.handlers[i].pc.complete ==>
              Count(s.handlers, REPORTED) < Count(s.handlers, CHOSEN)
  {
    hide Count;
    CountAll(s.handlers, ENTERED);
    if s.handlers[i].pc.Added? && s.handlers[i].pc.complete {
      var done := Handler(s.handlers[i].failed, Done(true));
      CountUpdate(s.handlers, i, done, REPORTED);
      CountUpdate(s.handlers, i, done, CHOSEN);
      Fewer(s.handlers[i := done]);
    }
  }

  lemma {:induction false} Fewer(q: seq<Handler>)
    ensures Count(q, REPORTED) <= Count(q, CHOSEN)
  {
    if q != [] {
      Fewer(q[1..]);
    }
  }

  lemma AllFailed(s: State)
    requires s.fails == Count(s.handlers, FAILED)
    ensures StatusNow(s) == Disconnected <==>
            forall i :: 0 <= i < |s.handlers| ==>
              s.handlers[i].failed && (s.handlers[i].pc.Added? || s.handlers[i].pc.Done?)
  {
    CountAll(s.handlers, FAILED);
  }

  lemma {:induction false} RunKeeps(s: State, schedule: seq<nat>)
    requires Inv(s)
    ensures Inv(Run(s, schedule))
    decreases schedule
  {
    hide Inv, Piece;
    if schedule != [] {
      PieceKeeps(s, schedule[0]);
      RunKeeps(Piece(s, schedule[0]), schedule[1..]);
    }
  }

  // ---- the theorems: any number of channels, any outcomes, any interleaving

  /** The final status is reported at most once, and exactly once when all handlers have run. */
  lemma OneReport(failed: seq<bool>, schedule: seq<nat>)
    ensures var s := Run(Init(failed), schedule);
      && |s.reports| <= 1
      && (failed != [] && (forall i :: 0 <= i < |s.handlers| ==> s.handlers[i].pc.Done?) ==> |s.reports| == 1)
  {
    hide Run, Count;
    InitInv(failed);
    RunKeeps(Init(failed), schedule);
    RunShape(Init(failed), schedule);
    var s := Run(Init(failed), schedule);
    if failed != [] && forall i :: 0 <= i < |s.handlers| ==> s.handlers[i].pc.Done? {
      CountAll(s.handlers, ENTERED);
      SameCount(s.handlers);
    }
  }

  lemma {:induction false} SameCount(q: seq<Handler>)
    requires forall i :: 0 <= i < |q| ==> q[i].pc.Done?
    ensures Count(q, REPORTED) == Count(q, CHOSEN)
  {
    if q != [] {
      SameCount(q[1..]);
    }
  }

  /** The handlers' outcomes never change. */
  lemma {:induction false} RunShape(s: State, schedule: seq<nat>)
    ensures var s' := Run(s, schedule);
      && |s'.handlers| == |s.handlers|
      && forall i :: 0 <= i < |s.handlers| ==> s'.handlers[i].failed == s.handlers[i].failed
    decreases schedule
  {
    if schedule != [] {
      RunShape(Piece(s, schedule[0]), schedule[1..]);
    }
  }

  /** Disconnected is reported only if every channel failed. */
  lemma DisconnectedIsTrue(failed: seq<bool>, schedule: seq<nat>, i: nat)
    requires Disconnected in Run(Init(failed), schedule).reports && i < |failed|
    ensures failed[i]
  {
    hide Run, Count;
    InitInv(failed);
    RunKeeps(Init(failed), schedule);
    RunShape(Init(failed), schedule);
    assert Run(Init(failed), schedule).handlers[i].failed;
  }

  /** The report is right exactly if some channel succeeded, or all the failures had been added when it was
      made: Connected can be wrong when the handlers overlap. */
  lemma ReportIsRightIff(failed: seq<bool>, schedule: seq<nat>, i: nat)
    requires var s := Run(Init(failed), schedule); |Piece(s, i).reports| > |s.reports|
    ensures var s := Run(Init(failed), schedule);
      Piece(s, i).reports == [if false in failed then Connected else Disconnected] <==>
      false in failed || forall j :: 0 <= j < |s.handlers| ==> s.handlers[j].pc.Added? || s.handlers[j].pc.Done?
  {
    hide Run, Count;
    InitInv(failed);
    RunKeeps(Init(failed), schedule);
    RunShape(Init(failed), schedule);
    OneReport(failed, schedule);
    var s := Run(Init(failed), schedule);
    PieceKeeps(s, i);
    AtMostOne(Piece(s, i));
    AllFailed(s);
    assert Piece(s, i).reports == [StatusNow(s)];
    if false in failed {
      var j :| 0 <= j < |failed| && failed[j] == false;
      assert !s.handlers[j].failed;
    }
  }

  lemma AtMostOne(s: State)
    requires Inv(s)
    ensures |s.reports| <= 1
  {
  }

  lemma RunOne(s: State, i: nat, rest: seq<nat>)
    ensures Run(s, [i] + rest) == Run(Piece(s, i), rest)
  {
    assert ([i] + rest)[1..] == rest;
  }

  lemma {:induction false} RunConcat(s: State, p: seq<nat>, q: seq<nat>)
    ensures Run(s, p + q) == Run(Run(s, p), q)
    decreases |p|
  {
    hide Piece;
    if p == [] {
      assert p + q == q;
    } else {
      assert (p + q)[1..] == p[1..] + q;
      RunConcat(Piece(s, p[0]), p[1..], q);
    }
  }

  function AllFail(n: nat): seq<bool> {
    seq(n, _ => true)
  }

  /** Handler 0 makes its first increment; then handlers 1 to `j` - 1 run through. */
  function Overtaking(j: nat): seq<nat> {
    if j <= 1 then [0] else Overtaking(j - 1) + [j - 1, j - 1, j - 1]
  }

  ghost predicate Overtaken(s: State, n: nat, j: nat) {
    && |s.handlers| == n && s.connects == j && s.fails == j - 1 && s.reports == []
    && (forall i :: 0 <= i < n ==> s.handlers[i].failed)
    && (forall i :: j <= i < n ==> s.handlers[i].pc == Waiting)
  }

  lemma RunThree(s: State, i: nat)
    ensures Run(s, [i, i, i]) == Piece(Piece(Piece(s, i), i), i)
  {
    hide Piece;
    RunOne(s, i, [i, i]);
    RunOne(Piece(s, i), i, [i]);
    RunOne(Piece(Piece(s, i), i), i, []);
    assert [i] + [i, i] == [i, i, i] && [i] + [i] == [i, i] && [i] + [] == [i];
  }

  lemma OneOvertakes(s: State, n: nat, j: nat)
    requires 1 <= j < n && Overtaken(s, n, j)
    ensures var s' := Piece(Piece(Piece(s, j), j), j);
      if j + 1 < n then Overtaken(s', n, j + 1) else s'.reports == [Connected]
  {
  }

  lemma {:induction false} OvertakingRuns(n: nat, j: nat)
    requires 1 <= j < n
    ensures Overtaken(Run(Init(AllFail(n)), Overtaking(j)), n, j)
  {
    var s0 := Init(AllFail(n));
    if j == 1 {
      RunOne(s0, 0, []);
      assert [0] + [] == [0 as nat];
    } else {
      OvertakingRuns(n, j - 1);
      RunConcat(s0, Overtaking(j - 1), [j - 1, j - 1, j - 1]);
      RunThree(Run(s0, Overtaking(j - 1)), j - 1);
      OneOvertakes(Run(s0, Overtaking(j - 1)), n, j - 1);
    }
  }

  /** The others overtake the first handler between its two increments: all failed, reported as Connected. */
  lemma ConnectedThoughAllFailed(n: nat)
    requires n >= 2
    ensures Run(Init(AllFail(n)), Overtaking(n)).reports == [Connected]
  {
    hide Piece, Overtaken;
    var s0 := Init(AllFail(n));
    OvertakingRuns(n, n - 1);
    RunConcat(s0, Overtaking(n - 1), [n - 1, n - 1, n - 1]);
    RunThree(Run(s0, Overtaking(n - 1)), n - 1);
    OneOvertakes(Run(s0, Overtaking(n - 1)), n, n - 1);
  }

  /** A single handler is in no one's way. */
  lemma {:induction false} AloneIsRight(s: State, schedule: seq<nat>)
    requires Inv(s) && |s.handlers| <= 1 && (forall i :: 0 <= i < |s.handlers| ==> s.handlers[i].failed)
    requires Connected !in s.reports
    ensures Connected !in Run(s, schedule).reports
    decreases schedule
  {
    hide Count;
    if schedule != [] {
      PieceKeeps(s, schedule[0]);
      AllFailed(s);
      AloneIsRight(Piece(s, schedule[0]), schedule[1..]);
    }
  }

  /** When every channel fails, some run misreports it exactly if there are at least two channels. */
  lemma MisreportIff(n: nat)
    ensures (exists schedule :: Connected in Run(Init(AllFail(n)), schedule).reports) <==> n >= 2
  {
    hide Run;
    if n >= 2 {
      ConnectedThoughAllFailed(n);
      assert Connected in Run(Init(AllFail(n)), Overtaking(n)).reports;
    } else {
      InitInv(AllFail(n));
      forall schedule: seq<nat>
        ensures Connected !in Run(Init(AllFail(n)), schedule).reports
      {
        AloneIsRight(Init(AllFail(n)), schedule);
      }
    }
  }

  // ---- the handlers one at a time

  class MultipleClient {
    var channels: nat
    var connectCounter: nat
    var failedCounter: nat
    var statuses: seq<Status>

    method OnConnect(failed: bool)
      modifies this
      ensures channels == old(channels) && connectCounter == old(connectCounter) + 1
      ensures failedCounter == old(failedCounter) + if failed then 1 else 0
      ensures statuses == old(statuses) + if connectCounter < channels then [] else
                            [if failedCounter == channels then Disconnected else Connected]
    {
      connectCounter := connectCounter + 1;
      var complete := connectCounter >= channels;
      if failed {
        failedCounter := failedCounter + 1;
      }
      if complete {
        if failedCounter == channels {
          statuses := statuses + [Disconnected];
        } else {
          statuses := statuses + [Connected];
        }
      }
    }

    /** Run one after the other, the handlers report once, and Connected exactly if a channel succeeded; with no
        channels at all nothing is reported. */
    method Start(failed: seq<bool>)
      modifies this
      ensures statuses == old(statuses) + if failed == [] then [] else
                            [if false in failed then Connected else Disconnected]
    {
      channels, connectCounter, failedCounter := |failed|, 0, 0;
      for i := 0 to |failed|
        invariant channels == |failed| && connectCounter == i && failedCounter <= i
        invariant failedCounter == i <==> false !in failed[..i]
        invariant statuses == old(statuses) + if i == 0 || i < |failed| then [] else
                                [if false in failed then Connected else Disconnected]
      {
        assert failed[..i + 1] == failed[..i] + [failed[i]];
        assert failed[..|failed|] == failed;
        OnConnect(failed[i]);
      }
    }
  }
}
