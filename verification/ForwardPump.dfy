/** One direction of a forward: the read loop, the write to the target and the buffer they share. */
module ForwardPump {
  import opened Bytes

  /** An async_write of the first `size` bytes of the buffer, which are those of `read` from position `from` on;
      `done` of them have been taken so far. */
  datatype Write = Write(size: nat, done: nat, from: nat)

  /** A call of the read loop's handler that is about to run; `thenClose` says that its caller goes on to
      close the channels, which it does behind the handler. */
  datatype Handler = Handler(ok: bool, n: nat, thenClose: bool)

  /** The error code of a completion. Canceled is what a closed socket gives. */
  datatype Code = Success | Failed | Canceled

  /** All bytes read from the source, taken by the target and shown to the user; `sentAt` are the positions in
      `read` of those sent. `broken` says that a write has failed or the target was gone, `before` is what was
      sent until then; `skipped`, that a write has ended with bytes untaken or the target was gone, `late`,
      that a byte has been taken after that. */
  datatype History = History(
    read: seq<byte>, sent: seq<byte>, sentAt: seq<nat>, shown: seq<byte>,
    broken: bool, before: seq<byte>, skipped: bool, late: bool)

  /** `reading` counts the outstanding reads into `buffer`, `closes` the calls of CloseChannel a handler has
      left to its caller. `isClosed` says that the pair is closed, `gone` that the target has been found lost. */
  datatype State = State(
    buffer: seq<byte>, reading: nat, writes: seq<Write>, handlers: seq<Handler>, closes: nat,
    isClosed: bool, gone: bool, stopped: bool, log: History)

  datatype Action =
    | Fill(bytes: seq<byte>)                                // the source socket writes into the buffer
    | ReadDone(bytes: seq<byte>, ec: Code, target: bool)    // target: whether m_Target is still there
    | Take(n: nat)                                          // the target socket takes n more bytes
    | WriteDone(ec: Code)
    | Handle                                                // the handler of ReadChannelData runs
    | CloseNow                                              // the CloseChannel behind a handler
    | CloseElsewhere                                        // the other direction or the owner closes the pair

  function Init(buffer: seq<byte>): State {
    State(buffer, 1, [], [], 0, false, false, false, History([], [], [], [], false, [], false, false))
  }

  /** The bytes laid over the start of the buffer. */
  function Over(buffer: seq<byte>, bytes: seq<byte>): seq<byte>
    requires |bytes| <= |buffer|
  {
    bytes + buffer[|bytes|..]
  }

  /** The completion handler of async_read_some in ReadSome. A closed channel has no target any more. */
  function AfterRead(s: State, bytes: seq<byte>, ec: Code, target: bool): State
    requires s.reading > 0 && |bytes| <= |s.buffer|
  {
    if ec.Success? && bytes != [] then
      var s1 := s.(reading := s.reading - 1, buffer := Over(s.buffer, bytes),
                   log := s.log.(read := s.log.read + bytes));
      if target && !s.gone && !s.isClosed then s1.(writes := s1.writes + [Write(|bytes|, 0, |s.log.read|)])
      else s1.(gone := true, handlers := s1.handlers + [Handler(true, |bytes|, false)],
               log := s1.log.(broken := true, skipped := true))
    else s.(reading := s.reading - 1, handlers := s.handlers + [Handler(false, |bytes|, !ec.Canceled?)])
  }

  function Positions(from: nat, n: nat): (r: seq<nat>)
    ensures |r| == n && forall i :: 0 <= i < n ==> r[i] == from + i
  {
    seq(n, i requires 0 <= i < n => from + i)
  }

  function AfterTake(s: State, n: nat): State
    requires s.writes != [] && s.writes[0].done + n <= s.writes[0].size <= |s.buffer|
  {
    var w := s.writes[0];
    var taken := s.buffer[w.done..w.done + n];
    s.(writes := [w.(done := w.done + n)] + s.writes[1..],
       log := s.log.(sent := s.log.sent + taken, sentAt := s.log.sentAt + Positions(w.from + w.done, n),
                     before := if s.log.broken then s.log.before else s.log.before + taken,
                     late := s.log.late || (s.log.skipped && n > 0)))
  }

  /** The completion handler of async_write in Write, which tells the reader of success either way. */
  function AfterWrite(s: State, ec: Code): State
    requires s.writes != []
  {
    var w := s.writes[0];
    s.(writes := s.writes[1..], handlers := s.handlers + [Handler(true, w.size, ec.Failed?)],
       log := s.log.(broken := s.log.broken || !ec.Success?, skipped := s.log.skipped || w.done < w.size))
  }

  /** The handler of ReadChannelData: the buffer is cut to the bytes read and widened again. */
  function AfterHandler(s: State): State
    requires s.handlers != [] && s.handlers[0].n <= |s.buffer|
  {
    var h := s.handlers[0];
    var s1 := s.(handlers := s.handlers[1..], closes := s.closes + if h.thenClose then 1 else 0);
    if !h.ok then s1.(stopped := true)
    else if h.n > 0 then
      s1.(buffer := s.buffer[..h.n] + Repeat(0, |s.buffer| - h.n), reading := s.reading + 1,
          log := s.log.(shown := s.log.shown + s.buffer[..h.n]))
    else s1.(reading := s.reading + 1)
  }

  predicate CanRead(s: State, bytes: seq<byte>, ec: Code) {
    s.reading > 0 && |bytes| <= |s.buffer| && (ec.Canceled? ==> s.isClosed)
  }

  predicate CanTake(s: State, n: nat) {
    !s.isClosed && s.writes != [] && s.writes[0].done + n <= s.writes[0].size <= |s.buffer|
  }

  predicate CanWrite(s: State, ec: Code) {
    s.writes != [] && (ec.Canceled? ==> s.isClosed) && (ec.Success? ==> s.writes[0].done == s.writes[0].size)
  }

  function Next(s: State, a: Action): State {
    match a
    case Fill(bytes) => if s.reading > 0 && |bytes| <= |s.buffer| then s.(buffer := Over(s.buffer, bytes)) else s
    case ReadDone(bytes, ec, target) => if CanRead(s, bytes, ec) then AfterRead(s, bytes, ec, target) else s
    case Take(n) => if CanTake(s, n) then AfterTake(s, n) else s
    case WriteDone(ec) => if CanWrite(s, ec) then AfterWrite(s, ec) else s
    case Handle => if s.handlers != [] && s.handlers[0].n <= |s.buffer| then AfterHandler(s) else s
    case CloseNow => if s.closes > 0 then s.(closes := s.closes - 1, isClosed := true) else s
    case CloseElsewhere => s.(isClosed := true)
  }

  function Run(s: State, actions: seq<Action>): State
    decreases actions
  {
    if actions == [] then s else Run(Next(s, actions[0]), actions[1..])
  }

  // ---- the invariant

  /** The bytes of the buffer still to be taken, and those still to be shown. */
  function Unsent(s: State): seq<byte> {
    if s.writes != [] && s.writes[0].done <= s.writes[0].size <= |s.buffer|
    then s.buffer[s.writes[0].done..s.writes[0].size] else []
  }

  function Unshown(s: State): seq<byte> {
    if s.writes != [] && s.writes[0].size <= |s.buffer| then s.buffer[..s.writes[0].size]
    else if s.handlers != [] && s.handlers[0].ok && s.handlers[0].n <= |s.buffer| then s.buffer[..s.handlers[0].n]
    else []
  }

  /** The position in `read` of the next byte that could be taken. */
  function Front(s: State): nat {
    if s.writes != [] then s.writes[0].from + s.writes[0].done else |s.log.read|
  }

  /** One user of the buffer at a time. */
  ghost predicate OneUser(s: State) {
    && s.reading + |s.writes| + |s.handlers| == (if s.stopped then 0 else 1)
    && (s.writes != [] ==> s.writes[0].done <= s.writes[0].size <= |s.buffer|)
    && (s.handlers != [] ==> s.handlers[0].n <= |s.buffer|)
  }

  ghost predicate Forwarded(s: State) {
    && (!s.log.broken ==> s.log.before == s.log.sent && s.log.read == s.log.sent + Unsent(s))
    && s.log.before <= s.log.read
    && s.log.read == s.log.shown + Unshown(s)
  }

  predicate InOrder(at: seq<nat>) {
    forall i :: 0 <= i < |at| ==> at[i] == i
  }

  /** What is sent was read, later bytes from later positions; in order just until a byte is taken late. */
  ghost predicate Placed(s: State) {
    && |s.log.sent| == |s.log.sentAt| <= Front(s) <= |s.log.read|
    && (s.writes != [] ==> s.writes[0].from + s.writes[0].size == |s.log.read|)
    && (forall i :: 0 <= i < |s.log.sent| ==>
          s.log.sentAt[i] < Front(s) && s.log.sent[i] == s.log.read[s.log.sentAt[i]])
    && Rising(s.log.sentAt)
    && (Front(s) == |s.log.sentAt| <==> !s.log.skipped)
    && (InOrder(s.log.sentAt) <==> !s.log.late)
  }

  /** Until the pair is closed, what has gone wrong is followed by a close. */
  ghost predicate CloseOwed(s: State) {
    && (s.gone ==> s.writes == [])
    && (s.log.skipped ==> s.log.broken)
    && (s.log.broken && !s.isClosed && !s.gone ==> s.closes > 0 || (s.handlers != [] && s.handlers[0].thenClose))
    && (s.handlers != [] && !s.handlers[0].ok && !s.isClosed ==> s.handlers[0].thenClose)
    && (s.stopped ==> s.isClosed || s.closes > 0)
  }

  ghost predicate Inv(s: State) {
    OneUser(s) && Forwarded(s) && Placed(s) && CloseOwed(s)
  }

  // ---- every step

  /** Placed depends on these alone. */
  lemma PlacedStays(s: State, s': State)
    requires Placed(s) && s'.writes == s.writes && s'.log == s.log.(shown := s'.log.shown)
    ensures Placed(s')
  {
    hide InOrder;
  }

  lemma FillKeeps(s: State, bytes: seq<byte>)
    requires Inv(s)
    ensures Inv(Next(s, Fill(bytes)))
  {
    hide Placed, InOrder;
    PlacedStays(s, Next(s, Fill(bytes)));
  }

  lemma ReadForwards(s: State, bytes: seq<byte>, ec: Code, target: bool)
    requires OneUser(s) && Forwarded(s) && CloseOwed(s) && CanRead(s, bytes, ec)
    ensures var s' := AfterRead(s, bytes, ec, target); OneUser(s') && Forwarded(s') && CloseOwed(s')
  {
    assert s.log.read == s.log.shown;
    assert Over(s.buffer, bytes)[..|bytes|] == bytes;
  }

  lemma ReadPlaces(s: State, bytes: seq<byte>, ec: Code, target: bool)
    requires OneUser(s) && Placed(s) && CanRead(s, bytes, ec)
    ensures Placed(AfterRead(s, bytes, ec, target))
  {
    hide InOrder, Over;
    assert s.writes == [];
  }

  lemma ReadKeeps(s: State, bytes: seq<byte>, ec: Code, target: bool)
    requires Inv(s) && CanRead(s, bytes, ec)
    ensures Inv(AfterRead(s, bytes, ec, target))
  {
    hide OneUser, Forwarded, Placed, CloseOwed, AfterRead;
    ReadForwards(s, bytes, ec, target);
    ReadPlaces(s, bytes, ec, target);
  }

  /** What the target takes is the front of what it has still to get. */
  lemma TakeOfUnsent(s: State, n: nat)
    requires CanTake(s, n)
    ensures var w := s.writes[0];
      Unsent(s) == s.buffer[w.done..w.done + n] + Unsent(AfterTake(s, n))
  {
    hide Positions, Unsent;
    var w, s' := s.writes[0], AfterTake(s, n);
    UnsentIs(s);
    UnsentIs(s');
    assert s'.writes[0] == Write(w.size, w.done + n, w.from);
    assert s.buffer[w.done..w.size] == s.buffer[w.done..w.done + n] + s.buffer[w.done + n..w.size];
  }

  lemma UnsentIs(s: State)
    requires s.writes != [] && s.writes[0].done <= s.writes[0].size <= |s.buffer|
    ensures Unsent(s) == s.buffer[s.writes[0].done..s.writes[0].size]
  {
  }

  lemma TakeShows(s: State, n: nat)
    requires CanTake(s, n)
    ensures Unshown(AfterTake(s, n)) == Unshown(s)
  {
    hide Positions;
  }

  lemma TakeForwards(s: State, n: nat)
    requires OneUser(s) && Forwarded(s) && CloseOwed(s) && CanTake(s, n)
    ensures OneUser(AfterTake(s, n)) && Forwarded(AfterTake(s, n)) && CloseOwed(AfterTake(s, n))
  {
    hide Positions, Unsent, Unshown;
    TakeOfUnsent(s, n);
    TakeShows(s, n);
    var taken, s' := s.buffer[s.writes[0].done..s.writes[0].done + n], AfterTake(s, n);
    assert s.log.sent + (taken + Unsent(s')) == s.log.sent + taken + Unsent(s');
  }

  /** The buffer holds the end of what has been read. */
  lemma BufferIsRead(s: State, k: nat)
    requires Inv(s) && s.writes != [] && k < s.writes[0].size
    ensures s.buffer[k] == s.log.read[s.writes[0].from + k]
  {
    assert s.log.read == s.log.shown + s.buffer[..s.writes[0].size];
  }

  /** Where an old and a newly taken byte stand. */
  lemma OldAt(s: State, n: nat, i: nat)
    requires Placed(s) && CanTake(s, n) && i < |s.log.sent|
    ensures var s' := AfterTake(s, n);
      |s'.log.sent| == |s'.log.sentAt| && s'.log.sent[i] == s.log.sent[i] && s'.log.sentAt[i] == s.log.sentAt[i]
  {
    hide InOrder, Rising, Front;
  }

  lemma NewAt(s: State, n: nat, j: nat)
    requires |s.log.sent| == |s.log.sentAt| && CanTake(s, n) && j < n
    ensures var s', i := AfterTake(s, n), |s.log.sent| + j;
      && |s'.log.sent| == |s'.log.sentAt| == |s.log.sent| + n
      && s'.log.sent[i] == s.buffer[s.writes[0].done + j]
      && s'.log.sentAt[i] == s.writes[0].from + s.writes[0].done + j
  {
  }

  lemma TakenAt(s: State, n: nat, i: nat)
    requires Inv(s) && CanTake(s, n) && i < |s.log.sent| + n
    ensures var s' := AfterTake(s, n);
      && |s'.log.sent| == |s'.log.sentAt| == |s.log.sent| + n
      && s'.log.sentAt[i] < Front(s) + n && s'.log.sent[i] == s.log.read[s'.log.sentAt[i]]
  {
    hide Forwarded, CloseOwed, InOrder, Rising, AfterTake;
    TakenSize(s, n);
    if i < |s.log.sent| {
      OldAt(s, n, i);
      assert s.log.sentAt[i] < Front(s);
    } else {
      var j := i - |s.log.sent|;
      NewAt(s, n, j);
      BufferIsRead(s, s.writes[0].done + j);
    }
  }

  lemma TakenSize(s: State, n: nat)
    requires |s.log.sent| == |s.log.sentAt| && CanTake(s, n)
    ensures var s' := AfterTake(s, n); |s'.log.sent| == |s'.log.sentAt| == |s.log.sent| + n
  {
  }

  predicate Rising(at: seq<nat>) {
    forall i, j :: 0 <= i < j < |at| ==> at[i] < at[j]
  }

  lemma RisingGrows(at: seq<nat>, from: nat, n: nat)
    requires Rising(at) && forall i :: 0 <= i < |at| ==> at[i] < from
    ensures Rising(at + Positions(from, n))
  {
  }

  lemma TakePlaces(s: State, n: nat)
    requires Inv(s) && CanTake(s, n)
    ensures Placed(AfterTake(s, n))
  {
    hide Forwarded, CloseOwed, InOrder, Rising;
    var s', w := AfterTake(s, n), s.writes[0];
    forall i | 0 <= i < |s'.log.sent|
      ensures s'.log.sentAt[i] < Front(s') && s'.log.sent[i] == s'.log.read[s'.log.sentAt[i]]
    {
      TakenAt(s, n, i);
    }
    OrderGrows(s.log.sentAt, w.from + w.done, n);
    RisingGrows(s.log.sentAt, w.from + w.done, n);
  }

  lemma OrderGrows(at: seq<nat>, from: nat, n: nat)
    requires |at| <= from
    ensures InOrder(at + Positions(from, n)) <==> InOrder(at) && (n == 0 || from == |at|)
  {
    var more := at + Positions(from, n);
    assert forall i :: 0 <= i < |at| ==> more[i] == at[i];
    if n > 0 {
      assert more[|at|] == from;
    }
  }

  lemma TakeKeeps(s: State, n: nat)
    requires Inv(s) && CanTake(s, n)
    ensures Inv(AfterTake(s, n))
  {
    hide OneUser, Forwarded, Placed, CloseOwed;
    TakeForwards(s, n);
    TakePlaces(s, n);
  }

  lemma WriteForwards(s: State, ec: Code)
    requires OneUser(s) && Forwarded(s) && CloseOwed(s) && CanWrite(s, ec)
    ensures var s' := AfterWrite(s, ec); OneUser(s') && Forwarded(s') && CloseOwed(s')
  {
  }

  lemma WritePlaces(s: State, ec: Code)
    requires OneUser(s) && Placed(s) && CanWrite(s, ec)
    ensures Placed(AfterWrite(s, ec))
  {
    hide InOrder;
  }

  lemma WriteKeeps(s: State, ec: Code)
    requires Inv(s) && CanWrite(s, ec)
    ensures Inv(AfterWrite(s, ec))
  {
    hide OneUser, Forwarded, Placed, CloseOwed, AfterWrite;
    WriteForwards(s, ec);
    WritePlaces(s, ec);
  }

  lemma HandleKeeps(s: State)
    requires Inv(s) && s.handlers != [] && s.handlers[0].n <= |s.buffer|
    ensures Inv(AfterHandler(s))
  {
    hide Placed;
    PlacedStays(s, AfterHandler(s));
    assert s.log.read == s.log.shown + Unshown(s);
  }

  lemma CloseKeeps(s: State, closes: nat)
    requires Inv(s)
    ensures Inv(s.(closes := closes, isClosed := true)) && Inv(s.(isClosed := true))
  {
    hide Placed;
    PlacedStays(s, s.(closes := closes, isClosed := true));
    PlacedStays(s, s.(isClosed := true));
  }

  lemma NextKeeps(s: State, a: Action)
    requires Inv(s)
    ensures Inv(Next(s, a))
  {
    hide Inv, AfterRead, AfterTake, AfterWrite, AfterHandler;
    match a
    case Fill(bytes) => FillKeeps(s, bytes);
    case ReadDone(bytes, ec, target) => if CanRead(s, bytes, ec) { ReadKeeps(s, bytes, ec, target); }
    case Take(n) => if CanTake(s, n) { TakeKeeps(s, n); }
    case WriteDone(ec) => if CanWrite(s, ec) { WriteKeeps(s, ec); }
    case Handle => if s.handlers != [] && s.handlers[0].n <= |s.buffer| { HandleKeeps(s); }
    case CloseNow => if s.closes > 0 { CloseKeeps(s, s.closes - 1); }
    case CloseElsewhere => CloseKeeps(s, 0);
  }

  lemma {:induction false} RunKeeps(s: State, actions: seq<Action>)
    requires Inv(s)
    ensures Inv(Run(s, actions))
    decreases actions
  {
    hide Inv, Next;
    if actions != [] {
      NextKeeps(s, actions[0]);
      RunKeeps(Next(s, actions[0]), actions[1..]);
    }
  }

  lemma Reachable(buffer: seq<byte>, actions: seq<Action>)
    ensures Inv(Run(Init(buffer), actions))
  {
    RunKeeps(Init(buffer), actions);
  }

  // ---- the theorems, for every run of one direction

  /** What was sent up to the first failed write or lost target is a prefix of what was read; and while
      nothing has failed, everything read has been sent but for the rest of the pending write. */
  lemma ForwardedInOrder(buffer: seq<byte>, actions: seq<Action>)
    ensures var s := Run(Init(buffer), actions);
      && s.log.before <= s.log.read
      && (!s.log.broken ==> s.log.sent <= s.log.read && (s.writes == [] ==> s.log.sent == s.log.read))
  {
    hide Run, Init, Placed, CloseOwed;
    Reachable(buffer, actions);
  }

  /** Whatever fails, each byte sent is one that was read, and no byte is sent twice or before an earlier one. */
  lemma SentIsRead(buffer: seq<byte>, actions: seq<Action>, i: nat)
    requires i < |Run(Init(buffer), actions).log.sent|
    ensures var s := Run(Init(buffer), actions);
      && |s.log.sentAt| == |s.log.sent| && s.log.sentAt[i] < |s.log.read|
      && s.log.sent[i] == s.log.read[s.log.sentAt[i]]
      && forall j :: 0 <= j < i ==> s.log.sentAt[j] < s.log.sentAt[i]
  {
    hide Run, Init, Forwarded, CloseOwed, InOrder;
    Reachable(buffer, actions);
  }

  /** The positions sent are 0, 1, 2, ... exactly if no byte was taken after a write that ended with bytes
      untaken, or after the target was lost. */
  lemma NoGapIff(buffer: seq<byte>, actions: seq<Action>)
    ensures var s := Run(Init(buffer), actions);
      (forall i :: 0 <= i < |s.log.sentAt| ==> s.log.sentAt[i] == i) <==> !s.log.late
  {
    hide Run, Init, Forwarded, CloseOwed;
    Reachable(buffer, actions);
  }

  /** Such a byte can be taken only in the window between the read a failed write's handler starts and the close
      that follows it; with the pair closed none is taken at all. */
  lemma LateOnlyInWindow(buffer: seq<byte>, actions: seq<Action>, n: nat)
    requires var s := Run(Init(buffer), actions); |Next(s, Take(n)).log.sent| > |s.log.sent|
    ensures var s := Run(Init(buffer), actions); !s.isClosed && (s.log.skipped ==> s.closes > 0)
  {
    hide Run, Init, Forwarded, Placed;
    Reachable(buffer, actions);
  }

  /** The window is real: for any two chunks, the first write failing and the second one succeeding before the
      close, the target receives the second chunk alone. */
  lemma GapAfterFailedWrite(buffer: seq<byte>, x: seq<byte>, y: seq<byte>)
    requires 0 < |x| <= |buffer| && 0 < |y| <= |buffer|
    ensures var s := Run(Init(buffer), GapRun(x, y));
      && s.log.read == x + y && s.log.sent == y && s.log.sentAt == Positions(|x|, |y|) && s.log.late
      && s.closes == 1 && !s.isClosed
  {
    hide Next;
    var s0 := Init(buffer);
    FirstChunk(buffer, x);
    var s1 := Next(s0, ReadDone(x, Success, true));
    var s2 := Next(s1, WriteDone(Failed));
    var s3 := Next(s2, Handle);
    SecondChunk(s3, y);
    var s4 := Next(s3, ReadDone(y, Success, true));
    var s5 := Next(s4, Take(|y|));
    var s6 := Next(s5, WriteDone(Success));
    RunOne(s5, WriteDone(Success), []);
    RunOne(s4, Take(|y|), [WriteDone(Success)]);
    RunOne(s3, ReadDone(y, Success, true), [Take(|y|), WriteDone(Success)]);
    RunOne(s2, Handle, [ReadDone(y, Success, true), Take(|y|), WriteDone(Success)]);
    RunOne(s1, WriteDone(Failed), [Handle, ReadDone(y, Success, true), Take(|y|), WriteDone(Success)]);
    RunOne(s0, ReadDone(x, Success, true),
           [WriteDone(Failed), Handle, ReadDone(y, Success, true), Take(|y|), WriteDone(Success)]);
    assert [] + y == y && [] + Positions(|x|, |y|) == Positions(|x|, |y|);
  }

  function GapRun(x: seq<byte>, y: seq<byte>): seq<Action> {
    [ReadDone(x, Success, true), WriteDone(Failed), Handle, ReadDone(y, Success, true), Take(|y|), WriteDone(Success)]
  }

  /** At the start of the window: the read after a write that failed before it took anything. */
  predicate InWindow(s: State, x: seq<byte>) {
    && s.reading == 1 && s.writes == [] && s.handlers == [] && s.closes == 1 && !s.isClosed && !s.gone
    && s.log.read == x && s.log.sent == [] && s.log.sentAt == [] && s.log.skipped && s.log.broken && !s.log.late
  }

  lemma FirstChunk(buffer: seq<byte>, x: seq<byte>)
    requires 0 < |x| <= |buffer|
    ensures var s := Next(Next(Next(Init(buffer), ReadDone(x, Success, true)), WriteDone(Failed)), Handle);
      InWindow(s, x) && |s.buffer| == |buffer|
  {
  }

  lemma SecondChunk(s: State, y: seq<byte>)
    requires s.reading == 1 && 0 < |y| <= |s.buffer| && InWindow(s, s.log.read)
    ensures var s' := Next(Next(Next(s, ReadDone(y, Success, true)), Take(|y|)), WriteDone(Success));
      && s'.log.read == s.log.read + y && s'.log.sent == s.log.sent + y
      && s'.log.sentAt == s.log.sentAt + Positions(|s.log.read|, |y|)
      && s'.log.late && s'.closes == s.closes && !s'.isClosed
  {
    assert Over(s.buffer, y)[0..|y|] == y;
  }

  lemma RunOne(s: State, a: Action, rest: seq<Action>)
    ensures Run(s, [a] + rest) == Run(Next(s, a), rest)
  {
    assert ([a] + rest)[1..] == rest;
  }

  /** The buffer is never being filled while a write from it is pending, or while its bytes are still to
      be shown; and the loop ends only with a failed or empty read. */
  lemma BufferHasOneUser(buffer: seq<byte>, actions: seq<Action>)
    ensures var s := Run(Init(buffer), actions);
      s.reading + |s.writes| + |s.handlers| == if s.stopped then 0 else 1
  {
    Reachable(buffer, actions);
  }

  /** A loop that has come to its end leaves no pair open: it is closed, or a close is still to come. */
  lemma StoppedIsClosed(buffer: seq<byte>, actions: seq<Action>)
    ensures var s := Run(Init(buffer), actions); s.stopped ==> s.isClosed || s.closes > 0
  {
    hide Run, Init, Forwarded, Placed;
    Reachable(buffer, actions);
  }

  /** After a failed write too, at the latest behind the handler that is about to run. */
  lemma BrokenIsClosed(buffer: seq<byte>, actions: seq<Action>)
    ensures var s := Run(Init(buffer), actions);
      s.log.broken && !s.gone ==> s.isClosed || s.closes > 0 || (s.handlers != [] && s.handlers[0].thenClose)
  {
    hide Run, Init, Forwarded, Placed;
    Reachable(buffer, actions);
  }

  /** Every read has the whole buffer. */
  lemma {:induction false} SizeKept(s: State, actions: seq<Action>)
    ensures |Run(s, actions).buffer| == |s.buffer|
    decreases actions
  {
    if actions != [] {
      SizeKept(Next(s, actions[0]), actions[1..]);
    }
  }

  /** Everything read is shown in order, whether it could be forwarded or not. */
  lemma ShownInOrder(buffer: seq<byte>, actions: seq<Action>)
    ensures var s := Run(Init(buffer), actions);
      s.log.shown <= s.log.read && (s.reading > 0 || s.stopped ==> s.log.shown == s.log.read)
  {
    hide Run, Init, Placed, CloseOwed;
    Reachable(buffer, actions);
  }

  // ---- the callbacks as code

  class ForwardLoop {
    var buffer: seq<byte>            // the vector shared by read, write and handler
    var reading: nat
    var writes: seq<Write>
    var handlers: seq<Handler>
    var closes: nat
    var isClosed: bool
    var gone: bool
    var stopped: bool
    ghost var log: History

    ghost function Now(): State
      reads this
    {
      State(buffer, reading, writes, handlers, closes, isClosed, gone, stopped, log)
    }

    constructor (capacity: nat)
      ensures Now() == Init(Repeat(0, capacity))
    {
      buffer, reading, writes, handlers, closes := Repeat(0, capacity), 1, [], [], 0;
      isClosed, gone, stopped := false, false, false;
      log := History([], [], [], [], false, [], false, false);
    }

    /** The completion handler in ReadSome; `target` is what locking m_Target gives. `position` counts the bytes
        read before. */
    method OnReadSome(bytes: seq<byte>, ec: Code, target: bool, position: nat)
      requires CanRead(Now(), bytes, ec) && position == |log.read|
      modifies this
      ensures Now() == Next(old(Now()), ReadDone(bytes, ec, target))
    {
      hide AfterTake, AfterWrite, AfterHandler, CanTake, CanWrite;
      reading := reading - 1;
      if ec.Success? && |bytes| > 0 {
        buffer := bytes + buffer[|bytes|..];
        log := log.(read := log.read + bytes);
        if target && !gone && !isClosed {
          writes := writes + [Write(|bytes|, 0, position)];
        } else {
          handlers := handlers + [Handler(true, |bytes|, false)];
          gone, log := true, log.(broken := true, skipped := true);
        }
      } else {
        handlers := handlers + [Handler(false, |bytes|, !ec.Canceled?)];
      }
    }

    /** The completion handler in Write: ReadSome's handler is told of success either way, and unless the operation
        was canceled the channels are closed behind it. */
    method OnWrite(ec: Code)
      requires CanWrite(Now(), ec)
      modifies this
      ensures Now() == Next(old(Now()), WriteDone(ec))
    {
      hide AfterTake, AfterRead, AfterHandler, CanTake, CanRead;
      var w := writes[0];
      writes := writes[1..];
      handlers := handlers + [Handler(true, w.size, ec.Failed?)];
      log := log.(broken := log.broken || !ec.Success?, skipped := log.skipped || w.done < w.size);
    }

    /** The handler of ReadChannelData, which starts the next read; `appended` goes to the receive view. */
    method OnChannelData() returns (appended: seq<byte>)
      requires handlers != [] && handlers[0].n <= |buffer|
      modifies this
      ensures Now() == Next(old(Now()), Handle)
      ensures log.shown == old(log.shown) + appended
    {
      hide AfterTake, AfterRead, AfterWrite, CanTake, CanRead, CanWrite;
      var h := handlers[0];
      handlers := handlers[1..];
      appended := [];
      var capacity := |buffer|;
      if h.ok && h.n > 0 {
        buffer := buffer[..h.n];
        appended := buffer;
        log := log.(shown := log.shown + appended);
        buffer := buffer + Repeat(0, capacity - h.n);
      }
      if h.ok {
        reading := reading + 1;
      } else {
        stopped := true;
      }
      if h.thenClose {
        closes := closes + 1;
      }
    }

    /** CloseChannel behind a handler. */
    method OnClose()
      requires closes > 0
      modifies this
      ensures Now() == Next(old(Now()), CloseNow)
    {
      closes, isClosed := closes - 1, true;
    }
  }
}
