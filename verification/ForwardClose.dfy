/** Two linked forward channels closing each other through compare-and-swap. */
module ForwardClose {
  import opened Bytes

  /** Where a call of CloseChannel(ec) is. */
  datatype Pc =
    | Start
    | Locked(target: bool)     // m_Target has been locked
    | Won(target: bool)        // the exchange on the own flag succeeded
    | Cut(target: bool)        // the own target is reset and the socket closed
    | OtherWon                 // inside TargetCloseChannel: the exchange on the other flag succeeded
    | OtherCut
    | Last                     // to report itself
    | Returned

  datatype Call = Call(channel: nat, pc: Pc)

  /** Channels 0 and 1. `linked[c]` says that m_Target of `c` is set; `wins[c]` counts the successful
      exchanges on its flag; `reports` lists the notifications the owner got. */
  datatype State = State(isOpen: seq<bool>, linked: seq<bool>, wins: seq<nat>, reports: seq<nat>, calls: seq<Call>)

  datatype Action = Begin(channel: nat) | Go(i: nat)

  const INIT := State([true, true], [true, true], [0, 0], [], [])

  predicate Shaped(s: State) {
    |s.isOpen| == 2 && |s.linked| == 2 && |s.wins| == 2 && forall i :: 0 <= i < |s.calls| ==> s.calls[i].channel < 2
  }

  /** One atomic piece of call `i`. */
  function Piece(s: State, i: nat): (r: State)
    requires Shaped(s) && i < |s.calls|
    ensures Shaped(r)
  {
    var c := s.calls[i].channel;
    match s.calls[i].pc
    case Start => At(s, i, Locked(s.linked[c]))
    case Locked(t) => if s.isOpen[c] then At(Exchange(s, c), i, Won(t)) else At(s, i, Returned)
    case Won(t) => At(s.(linked := s.linked[c := false]), i, Cut(t))
    case Cut(t) => if t && s.isOpen[1 - c] then At(Exchange(s, 1 - c), i, OtherWon) else At(s, i, Last)
    case OtherWon => At(s.(linked := s.linked[1 - c := false]), i, OtherCut)
    case OtherCut => At(s.(reports := s.reports + [1 - c]), i, Last)
    case Last => At(s.(reports := s.reports + [c]), i, Returned)
    case Returned => s
  }

  function At(s: State, i: nat, pc: Pc): State
    requires i < |s.calls|
  {
    s.(calls := s.calls[i := Call(s.calls[i].channel, pc)])
  }

  function Exchange(s: State, c: nat): State
    requires Shaped(s) && c < 2
  {
    s.(isOpen := s.isOpen[c := false], wins := s.wins[c := s.wins[c] + 1])
  }

  function Next(s: State, a: Action): (r: State)
    requires Shaped(s)
    ensures Shaped(r)
  {
    match a
    case Begin(c) => if c < 2 then s.(calls := s.calls + [Call(c, Start)]) else s
    case Go(i) => if i < |s.calls| then Piece(s, i) else s
  }

  function Run(s: State, actions: seq<Action>): (r: State)
    requires Shaped(s)
    ensures Shaped(r)
    decreases actions
  {
    if actions == [] then s else Run(Next(s, actions[0]), actions[1..])
  }

  // ---- the invariant

  /** A call that has closed channel `c` and not reported it yet. */
  predicate Owes(call: Call, c: nat) {
    if call.channel == c then call.pc.Won? || call.pc.Cut? || call.pc.OtherWon? || call.pc.OtherCut? || call.pc.Last?
    else call.pc.OtherWon? || call.pc.OtherCut?
  }

  /** A call that has closed `c` and will still try the other one. */
  predicate WillClose(call: Call, c: nat) {
    call.channel == c && (call.pc.Won? || call.pc.Cut?)
  }

  function Owing(calls: seq<Call>, c: nat): nat {
    if calls == [] then 0 else (if Owes(calls[0], c) then 1 else 0) + Owing(calls[1..], c)
  }

  function Closing(calls: seq<Call>, c: nat): nat {
    if calls == [] then 0 else (if WillClose(calls[0], c) then 1 else 0) + Closing(calls[1..], c)
  }

  ghost predicate Balanced(s: State, c: nat)
    requires Shaped(s) && c < 2
  {
    && s.wins[c] == (if s.isOpen[c] then 0 else 1)
    && s.wins[c] == Owing(s.calls, c) + Times(s.reports, c)
    && (!s.linked[c] ==> !s.isOpen[c])
    && (!s.isOpen[c] && s.isOpen[1 - c] ==> Closing(s.calls, c) >= 1)
  }

  /** A winner had its target: it was locked before the exchange, and only a closed channel loses it. */
  predicate Sensible(s: State, call: Call)
    requires Shaped(s) && call.channel < 2
  {
    match call.pc
    case Locked(t) => t || !s.isOpen[call.channel]
    case Won(t) => t
    case Cut(t) => t
    case Returned => !s.isOpen[call.channel]
    case _ => true
  }

  ghost predicate Inv(s: State) {
    && Shaped(s) && Balanced(s, 0) && Balanced(s, 1)
    && (forall x :: x in s.reports ==> x < 2)
    && forall i :: 0 <= i < |s.calls| ==> Sensible(s, s.calls[i])
  }

  // ---- counting

  lemma {:induction false} Concat(p: seq<Call>, q: seq<Call>, c: nat)
    ensures Owing(p + q, c) == Owing(p, c) + Owing(q, c) && Closing(p + q, c) == Closing(p, c) + Closing(q, c)
  {
    hide Owes, WillClose;
    if p == [] {
      assert p + q == q;
    } else {
      assert (p + q)[1..] == p[1..] + q;
      Concat(p[1..], q, c);
    }
  }

  lemma Split(p: seq<Call>, i: nat, c: nat)
    requires i < |p|
    ensures Owing(p, c) == Owing(p[..i], c) + (if Owes(p[i], c) then 1 else 0) + Owing(p[i + 1..], c)
    ensures Closing(p, c) == Closing(p[..i], c) + (if WillClose(p[i], c) then 1 else 0) + Closing(p[i + 1..], c)
  {
    hide Owes, WillClose;
    assert p == p[..i] + p[i..] && p[i..][1..] == p[i + 1..];
    Concat(p[..i], p[i..], c);
  }

  lemma Update(p: seq<Call>, i: nat, x: Call, c: nat)
    requires i < |p|
    ensures Owing(p[i := x], c) + (if Owes(p[i], c) then 1 else 0) == Owing(p, c) + if Owes(x, c) then 1 else 0
    ensures Closing(p[i := x], c) + (if WillClose(p[i], c) then 1 else 0)
            == Closing(p, c) + if WillClose(x, c) then 1 else 0
  {
    hide Owes, WillClose, Owing, Closing;
    Split(p, i, c);
    Split(p[i := x], i, c);
    assert p[i := x][..i] == p[..i] && p[i := x][i + 1..] == p[i + 1..];
  }

  lemma {:induction false} Nobody(p: seq<Call>, c: nat)
    requires forall i :: 0 <= i < |p| ==> p[i].pc.Returned?
    ensures Owing(p, c) == 0 && Closing(p, c) == 0
  {
    if p != [] {
      Nobody(p[1..], c);
    }
  }

  // ---- every step

  lemma BeginKeeps(s: State, c: nat)
    requires Inv(s) && c < 2
    ensures Inv(Next(s, Begin(c)))
  {
    hide Owing, Closing;
    var call := Call(c, Start);
    assert [call][1..] == [];
    Concat(s.calls, [call], 0);
    Concat(s.calls, [call], 1);
    OneStart(c, 0);
    OneStart(c, 1);
  }

  lemma OneStart(c: nat, d: nat)
    ensures Owing([Call(c, Start)], d) == 0 && Closing([Call(c, Start)], d) == 0
  {
    assert [Call(c, Start)][1..] == [];
  }

  lemma OneMoreReport(reports: seq<nat>, x: nat, d: nat)
    ensures Times(reports + [x], d) == Times(reports, d) + if x == d then 1 else 0
  {
    TimesConcat(reports, [x], d);
    TimesOne(x, d);
  }

  lemma OwnBalance(s: State, i: nat)
    requires Inv(s) && i < |s.calls|
    ensures Balanced(Piece(s, i), s.calls[i].channel)
  {
    hide Owing, Closing, Times;
    var c, x := s.calls[i].channel, Piece(s, i).calls[i];
    assert Sensible(s, s.calls[i]);
    Update(s.calls, i, x, c);
    Split(s.calls, i, c);
    Split(s.calls, i, 1 - c);
    OneMoreReport(s.reports, c, c);
    OneMoreReport(s.reports, 1 - c, c);
  }

  lemma OtherBalance(s: State, i: nat)
    requires Inv(s) && i < |s.calls|
    ensures Balanced(Piece(s, i), 1 - s.calls[i].channel)
  {
    hide Owing, Closing, Times;
    var c, x := s.calls[i].channel, Piece(s, i).calls[i];
    assert Sensible(s, s.calls[i]);
    Update(s.calls, i, x, 1 - c);
    Split(s.calls, i, c);
    Split(s.calls, i, 1 - c);
    OneMoreReport(s.reports, c, 1 - c);
    OneMoreReport(s.reports, 1 - c, 1 - c);
  }

  lemma SensibleKeeps(s: State, i: nat, j: nat)
    requires Inv(s) && i < |s.calls| && j < |s.calls|
    ensures Sensible(Piece(s, i), Piece(s, i).calls[j])
  {
    hide Owing, Closing, Times;
    Split(s.calls, i, s.calls[i].channel);
    assert Sensible(s, s.calls[i]) && Sensible(s, s.calls[j]);
  }

  lemma PieceKeeps(s: State, i: nat)
    requires Inv(s) && i < |s.calls|
    ensures Inv(Piece(s, i))
  {
    hide Balanced, Sensible;
    var s' := Piece(s, i);
    assert |s'.calls| == |s.calls| && s.calls[i].channel < 2;
    OwnBalance(s, i);
    OtherBalance(s, i);
    assert forall x :: x in s'.reports ==> x < 2;
    forall j | 0 <= j < |s.calls|
      ensures Sensible(Piece(s, i), Piece(s, i).calls[j])
    {
      SensibleKeeps(s, i, j);
    }
  }

  lemma {:induction false} RunKeeps(s: State, actions: seq<Action>)
    requires Inv(s)
    ensures Inv(Run(s, actions))
    decreases actions
  {
    hide Piece, Balanced, Sensible;
    if actions != [] {
      match actions[0] {
        case Begin(c) => if c < 2 { BeginKeeps(s, c); }
        case Go(i) => if i < |s.calls| { PieceKeeps(s, i); }
      }
      RunKeeps(Next(s, actions[0]), actions[1..]);
    }
  }

  lemma Reachable(actions: seq<Action>)
    ensures Inv(Run(INIT, actions))
  {
    RunKeeps(INIT, actions);
  }

  // ---- the links

  /** A call that has closed channel `c` and is about to reset its link. */
  predicate Unlinks(call: Call, c: nat) {
    if call.channel == c then call.pc.Won? else call.pc.OtherWon?
  }

  /** A closed channel has lost its link, or is about to. */
  ghost predicate Unlinked(s: State, c: nat)
    requires Shaped(s) && c < 2
  {
    !s.isOpen[c] && s.linked[c] ==> exists i :: 0 <= i < |s.calls| && Unlinks(s.calls[i], c)
  }

  lemma PieceUnlinks(s: State, i: nat, c: nat)
    requires Shaped(s) && i < |s.calls| && c < 2 && Unlinked(s, c)
    ensures Unlinked(Piece(s, i), c)
  {
    var s' := Piece(s, i);
    if !s'.isOpen[c] && s'.linked[c] {
      if s.isOpen[c] {
        assert Unlinks(s'.calls[i], c);
      } else {
        var j :| 0 <= j < |s.calls| && Unlinks(s.calls[j], c);
        assert Unlinks(s'.calls[j], c);
      }
    }
  }

  lemma BeginUnlinks(s: State, d: nat, c: nat)
    requires Shaped(s) && d < 2 && c < 2 && Unlinked(s, c)
    ensures Unlinked(Next(s, Begin(d)), c)
  {
    var s' := Next(s, Begin(d));
    if i :| 0 <= i < |s.calls| && Unlinks(s.calls[i], c) {
      assert Unlinks(s'.calls[i], c);
    }
  }

  lemma {:induction false} RunUnlinks(s: State, actions: seq<Action>, c: nat)
    requires Shaped(s) && c < 2 && Unlinked(s, c)
    ensures Unlinked(Run(s, actions), c)
    decreases actions
  {
    hide Piece, Unlinked;
    if actions != [] {
      match actions[0] {
        case Begin(d) => if d < 2 { BeginUnlinks(s, d, c); }
        case Go(i) => if i < |s.calls| { PieceUnlinks(s, i, c); }
      }
      RunUnlinks(Next(s, actions[0]), actions[1..], c);
    }
  }

  // ---- the theorems, for any number of closing threads and every interleaving

  /** No channel is closed by two winners or reported twice. */
  lemma ClosedOnceReportedOnce(actions: seq<Action>, c: nat)
    requires c < 2
    ensures var s := Run(INIT, actions);
      s.wins[c] <= 1 && multiset(s.reports)[c] <= s.wins[c] && (s.wins[c] == 1 <==> !s.isOpen[c])
  {
    hide Run;
    Reachable(actions);
    assert Balanced(Run(INIT, actions), c);
  }

  /** Once every close call begun on the pair has returned, and there was one, both channels are closed and
      each has lost its link and been reported exactly once. */
  lemma BothClosedAndReported(actions: seq<Action>, c: nat)
    requires var s := Run(INIT, actions);
      c < 2 && s.calls != [] && forall i :: 0 <= i < |s.calls| ==> s.calls[i].pc.Returned?
    ensures var s := Run(INIT, actions);
      !s.isOpen[c] && !s.linked[c] && s.wins[c] == 1 && multiset(s.reports)[c] == 1
  {
    hide Run;
    Reachable(actions);
    RunUnlinks(INIT, actions, c);
    var s := Run(INIT, actions);
    assert Sensible(s, s.calls[0]);
    Nobody(s.calls, 0);
    Nobody(s.calls, 1);
    assert Balanced(s, 0) && Balanced(s, 1);
  }

  /** Every call comes back after at most seven pieces of its own, whatever the others do. */
  function Left(pc: Pc): nat {
    match pc
    case Start => 7
    case Locked(_) => 6
    case Won(_) => 5
    case Cut(_) => 4
    case OtherWon => 3
    case OtherCut => 2
    case Last => 1
    case Returned => 0
  }

  lemma NeverBlocked(s: State, i: nat, j: nat)
    requires Shaped(s) && i < |s.calls| && j < |s.calls|
    ensures var s' := Piece(s, i);
      && (s.calls[i].pc.Returned? || Left(s'.calls[i].pc) < Left(s.calls[i].pc))
      && (j != i ==> s'.calls[j] == s.calls[j])
  {
  }

  // ---- one thread on its own

  class TCPForwardServer {
    var disconnected: seq<TcpForwardChannel>

    method NotifyChannelClose(channel: TcpForwardChannel)
      modifies this
      ensures disconnected == old(disconnected) + [channel]
    {
      disconnected := disconnected + [channel];
    }
  }

  class TcpForwardChannel {
    var isOpen: bool
    var target: TcpForwardChannel?

    /** CloseChannel(): the exchange, and what its winner does. */
    method CloseSocket() returns (won: bool)
      modifies this
      ensures won == old(isOpen) && !isOpen
      ensures target == if won then null else old(target)
    {
      won := isOpen;
      if won {
        isOpen := false;
        target := null;
      }
    }

    method TargetCloseChannel(owner: TCPForwardServer)
      modifies this, owner
      ensures !isOpen && target == if old(isOpen) then null else old(target)
      ensures owner.disconnected == old(owner.disconnected) + if old(isOpen) then [this] else []
    {
      var won := CloseSocket();
      if won {
        owner.NotifyChannelClose(this);
      }
    }

    /** Run without interference, one call closes and reports the pair, or changes nothing. */
    method CloseChannel(owner: TCPForwardServer)
      requires target != null ==> target != this
      modifies this, target, owner
      ensures !isOpen
      ensures old(isOpen) ==> target == null
      ensures old(isOpen) && old(target) != null ==>
                !old(target).isOpen && owner.disconnected ==
                old(owner.disconnected) + (if old(target.isOpen) then [old(target)] else []) + [this]
      ensures old(isOpen) && old(target) != null && old(target.isOpen) ==> old(target).target == null
      ensures old(isOpen) && old(target) == null ==> owner.disconnected == old(owner.disconnected) + [this]
      ensures !old(isOpen) ==> target == old(target) && owner.disconnected == old(owner.disconnected)
      ensures !old(isOpen) && target != null ==> target.isOpen == old(target.isOpen)
    {
      var other := target;
      var won := CloseSocket();
      if won {
        if other != null {
          other.TargetCloseChannel(owner);
        }
        owner.NotifyChannelClose(this);
      }
    }
  }
}
