/** One data stream: a bounded queue between writer calls and a single worker,
    with the close handshake, as interleaved atomic steps
    (sensor-server/data-stream.go). */
module DataStreams {
  import opened Results
  import opened SegmentNames
  import opened Words

  /** A Write call, by the statement it is about to execute. All but the last
      hold the read lock. */
  datatype Writing =
    | Entered                   // about to load the closed flag
    | Selecting                 // in the select
    | Queued                    // sent, about to count the acceptance
    | Refusing                  // about to count the drop
    | Unlocking(ok: bool)
    | Returned(ok: bool)

  /** A Close call. */
  datatype Closing =
    | Called                    // about to enter the once
    | WantsLock
    | HoldsLock                 // about to set the closed flag
    | FlagSet                   // about to close the queue
    | QueueShut                 // about to release the lock
    | LockReleased              // about to leave the once
    | AwaitsDone
    | CloseReturned

  datatype Once = NotRun | RunBy(closer: nat) | OnceDone

  /** The run goroutine. */
  datatype Worker =
    | Ready
    | Handling(id: nat)         // received, record writer being tried
    | Stored(id: nat)           // about to count it as written
    | Failed(id: nat)           // about to count the error
    | ErrorCounted(id: nat)     // about to count the drop
    | Finishing                 // queue drained, about to flush and close the record writer
    | Done

  /** The counters of the stream and the dirty flag of the worker. failed are the
      records the worker dropped, flushed the written records that a successful
      flush has covered. */
  datatype Tally = Tally(
    accepted: nat, written: nat, dropped: nat, errors: nat, dirty: bool, failed: nat, flushed: nat, flushErrors: nat)

  /** Records are named by the Write call that brings them. sent, handled,
      counted and refused are logs: what went into the queue, what was handed to
      the record writer, which calls were counted as accepted and which were
      refused. */
  datatype State = State(
    capacity: nat,
    writers: map<nat, Writing>, closers: map<nat, Closing>,
    once: Once, locked: Option<nat>, closed: bool,
    queue: seq<nat>, queueClosed: bool, panicked: bool,
    worker: Worker, tally: Tally,
    sent: seq<nat>, handled: seq<nat>, counted: set<nat>, refused: set<nat>)

  datatype Action =
    | Call(w: nat) | Check(w: nat) | Send(w: nat) | Count(w: nat) | GiveUp(w: nat) | Drop(w: nat) | Unlock(w: nat)
    | CallClose(c: nat) | EnterOnce(c: nat) | SkipOnce(c: nat) | Lock(c: nat) | SetFlag(c: nat) | ShutQueue(c: nat)
    | Release(c: nat) | LeaveOnce(c: nat) | SeeDone(c: nat)
    | Receive | Store | CountStored | Fail | CountError | CountFailed | Tick(ok: bool) | Drained | Stop(ok: bool)

  function Initial(capacity: nat): (s: State)
  {
    State(capacity, map[], map[], NotRun, None, false, [], false, false,
          Ready, Tally(0, 0, 0, 0, false, 0, 0, 0), [], [], {}, {})
  }

  predicate HoldsRead(p: Writing)
  {
    !p.Returned?
  }

  predicate HoldsWrite(p: Closing)
  {
    p.HoldsLock? || p.FlagSet? || p.QueueShut?
  }

  predicate At(s: State, w: nat, p: Writing)
  {
    w in s.writers && s.writers[w] == p
  }

  predicate ClosesAt(s: State, c: nat, p: Closing)
  {
    c in s.closers && s.closers[c] == p
  }

  predicate ByWriter(a: Action)
  {
    a.Call? || a.Check? || a.Send? || a.Count? || a.GiveUp? || a.Drop? || a.Unlock?
  }

  predicate ByWorker(a: Action)
  {
    || a.Receive? || a.Store? || a.CountStored? || a.Fail? || a.CountError? || a.CountFailed?
    || a.Tick? || a.Drained? || a.Stop?
  }

  /** A send waits for room in the queue, unless the queue is closed: then it is
      ready at once, and panics. */
  predicate WriterEnabled(s: State, a: Action)
    requires ByWriter(a)
  {
    match a
    case Call(w) => w !in s.writers && s.locked.None?
    case Check(w) => At(s, w, Entered)
    case Send(w) => At(s, w, Selecting) && (|s.queue| < s.capacity || s.queueClosed)
    case Count(w) => At(s, w, Queued)
    case GiveUp(w) => At(s, w, Selecting)
    case Drop(w) => At(s, w, Refusing)
    case Unlock(w) => w in s.writers && s.writers[w].Unlocking?
  }

  ghost predicate CloserEnabled(s: State, a: Action)
    requires !ByWriter(a) && !ByWorker(a)
  {
    match a
    case CallClose(c) => c !in s.closers
    case EnterOnce(c) => ClosesAt(s, c, Called) && s.once.NotRun?
    case SkipOnce(c) => ClosesAt(s, c, Called) && s.once.OnceDone?
    case Lock(c) =>
      && ClosesAt(s, c, WantsLock) && s.locked.None?
      && forall w :: w in s.writers ==> !HoldsRead(s.writers[w])
    case SetFlag(c) => ClosesAt(s, c, HoldsLock)
    case ShutQueue(c) => ClosesAt(s, c, FlagSet)
    case Release(c) => ClosesAt(s, c, QueueShut)
    case LeaveOnce(c) => ClosesAt(s, c, LockReleased)
    case SeeDone(c) => ClosesAt(s, c, AwaitsDone) && s.worker.Done?
  }

  predicate WorkerEnabled(s: State, a: Action)
    requires ByWorker(a)
  {
    match a
    case Receive => s.worker.Ready? && s.queue != []
    case Store => s.worker.Handling?
    case CountStored => s.worker.Stored?
    case Fail => s.worker.Handling?
    case CountError => s.worker.Failed?
    case CountFailed => s.worker.ErrorCounted?
    case Tick(_) => s.worker.Ready?
    case Drained => s.worker.Ready? && s.queue == [] && s.queueClosed
    case Stop(_) => s.worker.Finishing?
  }

  ghost predicate Enabled(s: State, a: Action)
  {
    if ByWriter(a) then WriterEnabled(s, a) else if ByWorker(a) then WorkerEnabled(s, a) else CloserEnabled(s, a)
  }

  /** A flush of what was written since the last one, if anything was. */
  function FlushIfDirty(n: Tally, ok: bool): (t: Tally)
  {
    if !n.dirty then n
    else if ok then n.(dirty := false, flushed := n.written)
    else n.(errors := n.errors + 1, flushErrors := n.flushErrors + 1)
  }

  function Move(s: State, w: nat, p: Writing): (t: State)
  {
    s.(writers := s.writers[w := p])
  }

  function MoveCloser(s: State, c: nat, p: Closing): (t: State)
  {
    s.(closers := s.closers[c := p])
  }

  /** A send on a closed channel panics. */
  function WriterApply(s: State, a: Action): (t: State)
    requires ByWriter(a) && WriterEnabled(s, a)
  {
    match a
    case Call(w) => Move(s, w, Entered)
    case Check(w) => Move(s, w, if s.closed then Refusing else Selecting)
    case Send(w) =>
      Move(s, w, Queued).(queue := s.queue + [w], sent := s.sent + [w], panicked := s.panicked || s.queueClosed)
    case Count(w) => Move(s, w, Unlocking(true)).(tally := s.tally.(accepted := s.tally.accepted + 1),
                                                  counted := s.counted + {w})
    case GiveUp(w) => Move(s, w, Refusing)
    case Drop(w) => Move(s, w, Unlocking(false)).(tally := s.tally.(dropped := s.tally.dropped + 1),
                                                  refused := s.refused + {w})
    case Unlock(w) => Move(s, w, Returned(s.writers[w].ok))
  }

  /** A second close of the channel panics. */
  ghost function CloserApply(s: State, a: Action): (t: State)
    requires !ByWriter(a) && !ByWorker(a) && CloserEnabled(s, a)
  {
    match a
    case CallClose(c) => MoveCloser(s, c, Called)
    case EnterOnce(c) => MoveCloser(s, c, WantsLock).(once := RunBy(c))
    case SkipOnce(c) => MoveCloser(s, c, AwaitsDone)
    case Lock(c) => MoveCloser(s, c, HoldsLock).(locked := Some(c))
    case SetFlag(c) => MoveCloser(s, c, FlagSet).(closed := true)
    case ShutQueue(c) => MoveCloser(s, c, QueueShut).(queueClosed := true, panicked := s.panicked || s.queueClosed)
    case Release(c) => MoveCloser(s, c, LockReleased).(locked := None)
    case LeaveOnce(c) => MoveCloser(s, c, AwaitsDone).(once := OnceDone)
    case SeeDone(c) => MoveCloser(s, c, CloseReturned)
  }

  function WorkerApply(s: State, a: Action): (t: State)
    requires ByWorker(a) && WorkerEnabled(s, a)
  {
    match a
    case Receive => s.(worker := Handling(s.queue[0]), queue := s.queue[1..])
    case Store => s.(worker := Stored(s.worker.id), handled := s.handled + [s.worker.id])
    case CountStored => s.(worker := Ready, tally := s.tally.(written := s.tally.written + 1, dirty := true))
    case Fail => s.(worker := Failed(s.worker.id), handled := s.handled + [s.worker.id])
    case CountError => s.(worker := ErrorCounted(s.worker.id), tally := s.tally.(errors := s.tally.errors + 1))
    case CountFailed =>
      s.(worker := Ready, tally := s.tally.(dropped := s.tally.dropped + 1, failed := s.tally.failed + 1))
    case Tick(ok) => s.(tally := FlushIfDirty(s.tally, ok))
    case Drained => s.(worker := Finishing)
    case Stop(ok) => s.(worker := Done, tally := FlushIfDirty(s.tally, ok))
  }

  ghost function Apply(s: State, a: Action): (t: State)
    requires Enabled(s, a)
  {
    if ByWriter(a) then WriterApply(s, a) else if ByWorker(a) then WorkerApply(s, a) else CloserApply(s, a)
  }

  // ---- what every step keeps ----

  /** The read-write lock excludes, and only the closer that runs the once holds it. */
  ghost predicate LockInv(s: State)
  {
    && (forall c :: c in s.closers && HoldsWrite(s.closers[c]) ==> s.locked == Some(c))
    && (s.locked.Some? ==> s.locked.value in s.closers && HoldsWrite(s.closers[s.locked.value]))
    && (s.locked.Some? ==> forall w :: w in s.writers ==> !HoldsRead(s.writers[w]))
  }

  /** Where each Close call is determines the once, the flag and the queue. */
  ghost predicate CloseInv(s: State)
  {
    && (forall c :: c in s.closers ==>
          match s.closers[c]
          case Called => true
          case WantsLock => s.once == RunBy(c) && !s.closed && !s.queueClosed
          case HoldsLock => s.once == RunBy(c) && !s.closed && !s.queueClosed
          case FlagSet => s.once == RunBy(c) && s.closed && !s.queueClosed
          case QueueShut => s.once == RunBy(c) && s.closed && s.queueClosed
          case LockReleased => s.once == RunBy(c) && s.closed && s.queueClosed
          case AwaitsDone => s.once.OnceDone?
          case CloseReturned => s.once.OnceDone? && s.worker.Done?)
    && (s.once.NotRun? ==> !s.closed && !s.queueClosed)
    && (s.once.OnceDone? ==> s.closed && s.queueClosed)
    && (s.once.RunBy? ==> s.once.closer in s.closers && !s.closers[s.once.closer].Called?)
    && (s.queueClosed ==> s.closed)
    && (s.worker.Finishing? || s.worker.Done? ==> s.queueClosed && s.queue == [])
    && !s.panicked
  }

  /** A call in the select has seen the flag clear and keeps it clear. */
  ghost predicate SelectInv(s: State)
  {
    s.closed ==> forall w :: w in s.writers ==> !s.writers[w].Selecting?
  }

  ghost predicate Distinct(s: seq<nat>)
  {
    forall i, j :: 0 <= i < j < |s| ==> s[i] != s[j]
  }

  /** The record the worker has taken but not yet handed on. */
  function InFlight(worker: Worker): (s: seq<nat>)
  {
    if worker.Handling? then [worker.id] else []
  }

  ghost predicate OrderInv(s: State)
  {
    s.sent == s.handled + InFlight(s.worker) + s.queue && Distinct(s.sent)
  }

  /** Where each Write call is determines in which logs it is. */
  ghost predicate MemberInv(s: State)
  {
    && (forall w :: w in s.sent <==>
        w in s.writers && (s.writers[w].Queued? || s.writers[w] == Unlocking(true) || s.writers[w] == Returned(true)))
    && (forall w :: w in s.counted <==>
        w in s.writers && (s.writers[w] == Unlocking(true) || s.writers[w] == Returned(true)))
    && (forall w :: w in s.refused <==>
        w in s.writers && (s.writers[w] == Unlocking(false) || s.writers[w] == Returned(false)))
  }

  ghost predicate CountInv(s: State)
  {
    TallyInv(s.tally, s.worker, |s.handled|, |s.refused|) && s.tally.accepted == |s.counted|
  }

  predicate TallyInv(n: Tally, worker: Worker, handled: nat, refused: nat)
  {
    && n.written + n.failed + (if worker.Stored? || worker.Failed? || worker.ErrorCounted? then 1 else 0) == handled
    && n.dropped == refused + n.failed
    && n.errors == n.failed + n.flushErrors + (if worker.ErrorCounted? then 1 else 0)
    && n.flushed <= n.written && (!n.dirty ==> n.flushed == n.written)
    && (worker.Done? ==> n.flushed == n.written || n.flushErrors > 0)
  }

  ghost predicate Inv(s: State)
  {
    ControlInv(s) && OrderInv(s) && MemberInv(s) && CountInv(s)
  }

  ghost predicate ControlInv(s: State)
  {
    LockInv(s) && CloseInv(s) && SelectInv(s)
  }

  /** A send finds the queue open: the sender holds the read lock since it saw
      the flag clear. */
  lemma WriterControl(s: State, a: Action)
    requires ControlInv(s) && ByWriter(a) && WriterEnabled(s, a)
    ensures ControlInv(WriterApply(s, a))
  {
    if a.Send? {
      assert !s.queueClosed;
    }
  }

  lemma WorkerControl(s: State, a: Action)
    requires ControlInv(s) && ByWorker(a) && WorkerEnabled(s, a)
    ensures ControlInv(WorkerApply(s, a))
  {
    var t := WorkerApply(s, a);
    assert t.closers == s.closers && t.writers == s.writers && t.once == s.once;
  }

  lemma CloserControl(s: State, a: Action)
    requires ControlInv(s) && !ByWriter(a) && !ByWorker(a) && CloserEnabled(s, a)
    ensures ControlInv(CloserApply(s, a))
  {
    var t := CloserApply(s, a);
    assert t.writers == s.writers && t.queue == s.queue && t.worker == s.worker;
  }

  lemma Logged(s: seq<nat>, w: nat)
    requires Distinct(s) && w !in s
    ensures Distinct(s + [w]) && forall x :: x in s + [w] <==> x in s || x == w
  {
  }

  /** A call enters a log when it leaves the place before it, so only once. */
  lemma NotLoggedYet(s: State, w: nat)
    requires MemberInv(s)
    ensures At(s, w, Selecting) ==> w !in s.sent
    ensures At(s, w, Queued) ==> w !in s.counted
    ensures At(s, w, Refusing) ==> w !in s.refused
  {
  }

  lemma WriterOrder(s: State, a: Action)
    requires OrderInv(s) && MemberInv(s) && ByWriter(a) && WriterEnabled(s, a)
    ensures OrderInv(WriterApply(s, a))
  {
    hide Distinct, MemberInv;
    if a.Send? {
      NotLoggedYet(s, a.w);
      Logged(s.sent, a.w);
      assert s.handled + InFlight(s.worker) + (s.queue + [a.w]) == s.handled + InFlight(s.worker) + s.queue + [a.w];
    }
  }

  lemma WorkerOrder(s: State, a: Action)
    requires OrderInv(s) && ByWorker(a) && WorkerEnabled(s, a)
    ensures OrderInv(WorkerApply(s, a))
  {
    hide Distinct;
    var t := WorkerApply(s, a);
    if a.Receive? {
      assert [s.queue[0]] + s.queue[1..] == s.queue;
      assert s.handled + [s.queue[0]] + s.queue[1..] == s.handled + ([s.queue[0]] + s.queue[1..]);
    } else if a.Store? || a.Fail? {
      assert t.handled + [] == s.handled + [s.worker.id];
    } else {
      assert t.handled == s.handled && t.queue == s.queue && InFlight(t.worker) == InFlight(s.worker);
    }
  }

  lemma WriterMember(s: State, a: Action)
    requires MemberInv(s) && ByWriter(a) && WriterEnabled(s, a)
    ensures MemberInv(WriterApply(s, a))
  {
    var t := WriterApply(s, a);
    assert t.writers == s.writers[a.w := t.writers[a.w]];
    if a.Send? {
      assert forall x :: x in t.sent <==> x in s.sent || x == a.w;
      assert t.counted == s.counted && t.refused == s.refused;
    } else {
      assert t.sent == s.sent;
    }
  }

  lemma WriterCount(s: State, a: Action)
    requires CountInv(s) && MemberInv(s) && ByWriter(a) && WriterEnabled(s, a)
    ensures CountInv(WriterApply(s, a))
  {
    hide MemberInv, TallyInv, WriterEnabled, WriterApply;
    WriterLogs(s, a);
    TallyAccepted(s.tally, s.worker, |s.handled|, |s.refused|);
    TallyRefused(s.tally, s.worker, |s.handled|, |s.refused|);
  }

  /** What a writer's step does to the counters and the logs behind them. */
  lemma WriterLogs(s: State, a: Action)
    requires MemberInv(s) && ByWriter(a) && WriterEnabled(s, a)
    ensures var t := WriterApply(s, a);
            && t.worker == s.worker && t.handled == s.handled
            && |t.counted| == |s.counted| + (if a.Count? then 1 else 0)
            && |t.refused| == |s.refused| + (if a.Drop? then 1 else 0)
            && t.tally == if a.Count? then s.tally.(accepted := s.tally.accepted + 1)
                          else if a.Drop? then s.tally.(dropped := s.tally.dropped + 1)
                          else s.tally
  {
    hide MemberInv;
    NotLoggedYet(s, a.w);
  }

  lemma TallyAccepted(n: Tally, worker: Worker, handled: nat, refused: nat)
    requires TallyInv(n, worker, handled, refused)
    ensures TallyInv(n.(accepted := n.accepted + 1), worker, handled, refused)
  {
  }

  lemma TallyRefused(n: Tally, worker: Worker, handled: nat, refused: nat)
    requires TallyInv(n, worker, handled, refused)
    ensures TallyInv(n.(dropped := n.dropped + 1), worker, handled, refused + 1)
  {
  }

  lemma WorkerCount(s: State, a: Action)
    requires CountInv(s) && ByWorker(a) && WorkerEnabled(s, a)
    ensures CountInv(WorkerApply(s, a))
  {
  }

  /** A step outside the calls leaves their places and logs alone. */
  lemma SameLogs(s: State, t: State)
    requires t.writers == s.writers && t.sent == s.sent && t.counted == s.counted && t.refused == s.refused
    ensures MemberInv(s) ==> MemberInv(t)
  {
  }

  lemma CloserKeeps(s: State, a: Action)
    requires !ByWriter(a) && !ByWorker(a) && CloserEnabled(s, a)
    ensures var t := CloserApply(s, a);
            && t.writers == s.writers && t.sent == s.sent && t.counted == s.counted && t.refused == s.refused
            && t.handled == s.handled && t.queue == s.queue && t.worker == s.worker && t.tally == s.tally
  {
  }

  lemma SameProgress(s: State, t: State)
    requires t.sent == s.sent && t.handled == s.handled && t.queue == s.queue && t.worker == s.worker
    requires t.tally == s.tally && t.counted == s.counted && t.refused == s.refused
    ensures (OrderInv(s) ==> OrderInv(t)) && (CountInv(s) ==> CountInv(t))
  {
    hide Distinct, TallyInv;
  }

  lemma WorkerKeeps(s: State, a: Action)
    requires ByWorker(a) && WorkerEnabled(s, a)
    ensures var t := WorkerApply(s, a);
            && t.writers == s.writers && t.closers == s.closers
            && t.sent == s.sent && t.counted == s.counted && t.refused == s.refused
  {
  }

  lemma InvStep(s: State, a: Action)
    requires Inv(s) && Enabled(s, a)
    ensures Inv(Apply(s, a))
  {
    hide ControlInv, OrderInv, MemberInv, CountInv, TallyInv, WriterEnabled, WorkerEnabled, CloserEnabled,
         WriterApply, WorkerApply, CloserApply;
    if ByWriter(a) {
      WriterControl(s, a);
      WriterOrder(s, a);
      WriterMember(s, a);
      WriterCount(s, a);
    } else if ByWorker(a) {
      WorkerControl(s, a);
      WorkerOrder(s, a);
      WorkerCount(s, a);
      WorkerKeeps(s, a);
      SameLogs(s, Apply(s, a));
    } else {
      CloserControl(s, a);
      CloserKeeps(s, a);
      SameProgress(s, Apply(s, a));
      SameLogs(s, Apply(s, a));
    }
  }

  /** What no step takes back: a call once made, its result, a returned Close. */
  lemma StepKeeps(s: State, a: Action)
    requires Enabled(s, a)
    ensures forall w :: w in s.writers ==> w in Apply(s, a).writers
    ensures forall w, ok :: At(s, w, Returned(ok)) ==> At(Apply(s, a), w, Returned(ok))
    ensures forall c :: ClosesAt(s, c, CloseReturned) ==> ClosesAt(Apply(s, a), c, CloseReturned)
  {
    hide WriterEnabled, WorkerEnabled, CloserEnabled, WriterApply, WorkerApply, CloserApply;
    if ByWriter(a) {
      WriterMoves(s, a);
    } else if ByWorker(a) {
      WorkerKeeps(s, a);
    } else {
      CloserMoves(s, a);
    }
  }

  lemma WriterMoves(s: State, a: Action)
    requires ByWriter(a) && WriterEnabled(s, a)
    ensures var t := WriterApply(s, a);
            a.w in t.writers && t.writers == s.writers[a.w := t.writers[a.w]] && t.closers == s.closers
    ensures a.w in s.writers ==> !s.writers[a.w].Returned?
  {
  }

  lemma CloserMoves(s: State, a: Action)
    requires !ByWriter(a) && !ByWorker(a) && CloserEnabled(s, a)
    ensures var t := CloserApply(s, a);
            a.c in t.closers && t.closers == s.closers[a.c := t.closers[a.c]] && t.writers == s.writers
    ensures a.c in s.closers ==> !s.closers[a.c].CloseReturned?
  {
  }

  ghost function Exec(s: State, actions: seq<Action>): (r: Result<State>)
    decreases |actions|
  {
    if actions == [] then Ok(s)
    else if !Enabled(s, actions[0]) then Err(NotEnabled)
    else Exec(Apply(s, actions[0]), actions[1..])
  }

  lemma {:induction false} InvRun(s: State, actions: seq<Action>)
    requires Inv(s) && Exec(s, actions).Ok?
    ensures Inv(Exec(s, actions).value)
    decreases |actions|
  {
    hide Inv, Enabled, Apply;
    if actions != [] {
      InvStep(s, actions[0]);
      InvRun(Apply(s, actions[0]), actions[1..]);
    }
  }

  /** In every interleaving: nothing is sent on the closed queue and it is
      closed once; what was sent is handled in queue order, each record once,
      apart from what is still in the queue or in the worker's hand. */
  lemma StreamSafety(capacity: nat, actions: seq<Action>)
    requires Exec(Initial(capacity), actions).Ok?
    ensures var s := Exec(Initial(capacity), actions).value;
            && !s.panicked
            && s.sent == s.handled + InFlight(s.worker) + s.queue && Distinct(s.sent)
            && (forall w :: w in s.writers && s.writers[w] == Returned(true) ==> w in s.sent)
            && (forall w :: w in s.writers && s.writers[w] == Returned(false) ==> w !in s.sent)
  {
    hide Exec, Enabled, Apply;
    InitialInv(capacity);
    InvRun(Initial(capacity), actions);
  }

  lemma InitialInv(capacity: nat)
    ensures Inv(Initial(capacity))
  {
  }

  // ---- when a call is refused ----

  /** A call on its way to a refusal, or refused. */
  predicate Refused(s: State, w: nat)
  {
    w in s.writers && (s.writers[w].Refusing? || s.writers[w] == Unlocking(false) || s.writers[w] == Returned(false))
  }

  /** The queue is within its capacity, and a call is refused only if it gave up
      or found the stream closed. */
  ghost predicate WaitInv(s: State, w: nat, gaveUp: bool)
  {
    |s.queue| <= s.capacity && (Refused(s, w) && !gaveUp ==> s.closed)
  }

  lemma WaitStep(s: State, a: Action, w: nat, gaveUp: bool)
    requires Inv(s) && Enabled(s, a) && WaitInv(s, w, gaveUp)
    ensures WaitInv(Apply(s, a), w, gaveUp || a == GiveUp(w))
  {
    hide OrderInv, MemberInv, CountInv, LockInv;
    if ByWriter(a) {
      WriterWaits(s, a, w);
    } else if ByWorker(a) {
      WorkerWaits(s, a);
    } else {
      CloserWaits(s, a);
    }
  }

  lemma WriterWaits(s: State, a: Action, w: nat)
    requires ByWriter(a) && WriterEnabled(s, a) && SelectInv(s) && CloseInv(s)
    ensures var t := WriterApply(s, a);
            && t.closed == s.closed && t.capacity == s.capacity
            && (|s.queue| <= s.capacity ==> |t.queue| <= t.capacity)
            && (Refused(t, w) ==> Refused(s, w) || s.closed || a == GiveUp(w))
  {
  }

  lemma WorkerWaits(s: State, a: Action)
    requires ByWorker(a) && WorkerEnabled(s, a)
    ensures var t := WorkerApply(s, a);
            t.closed == s.closed && t.capacity == s.capacity && |t.queue| <= |s.queue| && t.writers == s.writers
  {
  }

  lemma CloserWaits(s: State, a: Action)
    requires !ByWriter(a) && !ByWorker(a) && CloserEnabled(s, a)
    ensures var t := CloserApply(s, a);
            (s.closed ==> t.closed) && t.capacity == s.capacity && t.queue == s.queue && t.writers == s.writers
  {
  }

  lemma {:induction false} WaitRun(s: State, actions: seq<Action>, w: nat, gaveUp: bool)
    requires Inv(s) && WaitInv(s, w, gaveUp) && Exec(s, actions).Ok?
    ensures Inv(Exec(s, actions).value) && WaitInv(Exec(s, actions).value, w, gaveUp || GiveUp(w) in actions)
    decreases |actions|
  {
    hide Inv, Enabled, Apply, WaitInv;
    if actions != [] {
      InvStep(s, actions[0]);
      WaitStep(s, actions[0], w, gaveUp);
      WaitRun(Apply(s, actions[0]), actions[1..], w, gaveUp || actions[0] == GiveUp(w));
      assert GiveUp(w) in actions <==> actions[0] == GiveUp(w) || GiveUp(w) in actions[1..];
    } else {
      assert !(GiveUp(w) in actions);
    }
  }

  /** In every interleaving the queue stays within its capacity, and a Write call
      that did not give up waiting is refused only by a closed stream. */
  lemma RefusedOnlyWhenClosed(capacity: nat, actions: seq<Action>, w: nat)
    requires Exec(Initial(capacity), actions).Ok?
    ensures var s := Exec(Initial(capacity), actions).value;
            && |s.queue| <= capacity
            && (w in s.writers && s.writers[w] == Returned(false) && GiveUp(w) !in actions ==> s.closed)
  {
    hide Exec, Enabled, Apply, Inv;
    InitialInv(capacity);
    WaitRun(Initial(capacity), actions, w, false);
    SameCapacity(Initial(capacity), actions);
  }

  lemma {:induction false} SameCapacity(s: State, actions: seq<Action>)
    requires Exec(s, actions).Ok?
    ensures Exec(s, actions).value.capacity == s.capacity
    decreases |actions|
  {
    hide WriterEnabled, WorkerEnabled, CloserEnabled, WriterApply, WorkerApply, CloserApply;
    if actions != [] {
      assert Apply(s, actions[0]).capacity == s.capacity by { StepCapacity(s, actions[0]); }
      SameCapacity(Apply(s, actions[0]), actions[1..]);
    }
  }

  lemma StepCapacity(s: State, a: Action)
    requires Enabled(s, a)
    ensures Apply(s, a).capacity == s.capacity
  {
    hide WriterApply, WriterEnabled;
    if ByWriter(a) {
      WriterCapacity(s, a);
    } else if ByWorker(a) {
      WorkerWaits(s, a);
    } else {
      CloserWaits(s, a);
    }
  }

  lemma WriterCapacity(s: State, a: Action)
    requires ByWriter(a) && WriterEnabled(s, a)
    ensures WriterApply(s, a).capacity == s.capacity
  {
  }

  function Elements(s: seq<nat>): (e: set<nat>)
    ensures forall x :: x in e <==> x in s
  {
    set x | x in s
  }

  lemma {:induction false} CountDistinct(s: seq<nat>)
    requires Distinct(s)
    ensures |Elements(s)| == |s|
  {
    if s != [] {
      var front, last := s[..|s| - 1], s[|s| - 1];
      CountDistinct(front);
      assert s == front + [last] && last !in front;
      assert Elements(s) == Elements(front) + {last};
    }
  }

  /** When any Close call has returned, every record for which Write returned
      success has been handed to the record writer, in queue order and exactly
      once, and nothing can be added any more. */
  ghost predicate FullyDrained(s: State)
  {
    && s.handled == s.sent && Distinct(s.handled) && s.queue == [] && s.queueClosed
    && (forall w :: w in s.writers && s.writers[w] == Returned(true) ==> w in s.handled)
    && (forall w :: w in s.writers ==> !s.writers[w].Selecting?)
  }

  lemma DrainedWhenClosed(s: State, c: nat)
    requires Inv(s) && ClosesAt(s, c, CloseReturned)
    ensures FullyDrained(s)
  {
    assert s.handled + [] + [] == s.handled;
  }

  lemma CloseDrains(capacity: nat, actions: seq<Action>, c: nat)
    requires Exec(Initial(capacity), actions).Ok? && ClosesAt(Exec(Initial(capacity), actions).value, c, CloseReturned)
    ensures FullyDrained(Exec(Initial(capacity), actions).value)
  {
    hide Exec, Enabled, Apply, Inv, FullyDrained;
    InitialInv(capacity);
    InvRun(Initial(capacity), actions);
    DrainedWhenClosed(Exec(Initial(capacity), actions).value, c);
  }

  /** When all Write calls have returned, those accepted and those refused are
      all of them. */
  lemma LogsPartition(s: State)
    requires MemberInv(s) && forall w :: w in s.writers ==> s.writers[w].Returned?
    ensures s.counted == Elements(s.sent)
    ensures s.writers.Keys == s.counted + s.refused && s.counted !! s.refused
  {
  }

  /** In every interleaving, once a Close and all Write calls have returned, the
      Write calls are exactly the written and the dropped records, every counted
      error is a dropped record or a failed flush, and without a failed flush
      all written records have been flushed. */
  lemma EveryCallCounted(capacity: nat, actions: seq<Action>, c: nat)
    requires Exec(Initial(capacity), actions).Ok?
    requires ClosesAt(Exec(Initial(capacity), actions).value, c, CloseReturned)
    requires forall w :: w in Exec(Initial(capacity), actions).value.writers ==>
                           Exec(Initial(capacity), actions).value.writers[w].Returned?
    ensures var s := Exec(Initial(capacity), actions).value;
            var n := s.tally;
            && |s.writers| == n.written + n.dropped && n.accepted == |s.handled| == n.written + n.failed
            && n.errors == n.failed + n.flushErrors && (n.flushErrors == 0 ==> n.flushed == n.written)
  {
    hide Exec, Enabled, Apply, LockInv, SelectInv, OrderInv, MemberInv, Elements, Distinct;
    InitialInv(capacity);
    InvRun(Initial(capacity), actions);
    var s := Exec(Initial(capacity), actions).value;
    DrainedWhenClosed(s, c);
    CountDistinct(s.sent);
    LogsPartition(s);
    assert |s.writers| == |s.writers.Keys| == |s.counted| + |s.refused|;
  }

  // ---- no deadlock ----

  /** A step that neither makes a new call nor relies on a clock. */
  predicate OnItsOwn(a: Action)
  {
    !a.Call? && !a.CallClose? && !a.Tick? && !a.GiveUp?
  }

  /** Some call has not returned, or a record is on its way. */
  ghost predicate Unfinished(s: State)
  {
    || (exists w :: w in s.writers && !s.writers[w].Returned?)
    || (exists c :: c in s.closers && !s.closers[c].CloseReturned?)
    || s.queue != [] || s.worker.Handling? || s.worker.Stored? || s.worker.Failed? || s.worker.ErrorCounted?
  }

  lemma WorkerHasStep(s: State) returns (a: Action)
    requires !s.worker.Done? && (s.worker.Ready? ==> s.queue != [] || s.queueClosed)
    ensures OnItsOwn(a) && Enabled(s, a)
  {
    a := match s.worker
      case Ready => if s.queue != [] then Receive else Drained
      case Handling(_) => Store
      case Stored(_) => CountStored
      case Failed(_) => CountError
      case ErrorCounted(_) => CountFailed
      case Finishing => Stop(true)
      case Done => Store;
  }

  lemma WriterHasStep(s: State, w: nat) returns (a: Action)
    requires Inv(s) && s.capacity >= 1 && w in s.writers && !s.writers[w].Returned?
    ensures OnItsOwn(a) && Enabled(s, a)
  {
    hide OrderInv, MemberInv, CountInv, LockInv;
    var p := s.writers[w];
    if p.Selecting? && |s.queue| >= s.capacity {
      assert !s.queueClosed && s.queue != [];
      a := WorkerHasStep(s);
    } else {
      a := match p
        case Entered => Check(w)
        case Selecting => Send(w)
        case Queued => Count(w)
        case Refusing => Drop(w)
        case Unlocking(_) => Unlock(w)
        case Returned(_) => Unlock(w);
    }
  }

  lemma CloserHasStep(s: State, c: nat) returns (a: Action)
    requires Inv(s) && s.capacity >= 1 && c in s.closers && !s.closers[c].CloseReturned?
    ensures OnItsOwn(a) && Enabled(s, a)
  {
    hide OrderInv, MemberInv, CountInv;
    var p := s.closers[c];
    if p.Called? && s.once.RunBy? {
      a := RunnerHasStep(s, s.once.closer);
    } else if p.Called? {
      a := if s.once.NotRun? then EnterOnce(c) else SkipOnce(c);
    } else if p.AwaitsDone? && s.worker.Done? {
      a := SeeDone(c);
    } else if p.AwaitsDone? {
      a := WorkerHasStep(s);
    } else {
      a := RunnerHasStep(s, c);
    }
  }

  /** The closer that runs the once waits only for calls that hold the lock. */
  lemma RunnerHasStep(s: State, c: nat) returns (a: Action)
    requires Inv(s) && s.capacity >= 1 && s.once == RunBy(c)
    ensures OnItsOwn(a) && Enabled(s, a)
  {
    hide OrderInv, MemberInv, CountInv;
    assert c in s.closers;
    var p := s.closers[c];
    if p.WantsLock? && exists w :: w in s.writers && HoldsRead(s.writers[w]) {
      var w :| w in s.writers && HoldsRead(s.writers[w]);
      a := WriterHasStep(s, w);
    } else if p.WantsLock? {
      assert s.locked.None? by { OnlyRunnerLocks(s, c); }
      a := Lock(c);
    } else {
      a := if p.HoldsLock? then SetFlag(c) else if p.FlagSet? then ShutQueue(c) else if p.QueueShut? then Release(c)
           else LeaveOnce(c);
    }
  }

  lemma OnlyRunnerLocks(s: State, c: nat)
    requires LockInv(s) && CloseInv(s) && s.once == RunBy(c) && c in s.closers && s.closers[c].WantsLock?
    ensures s.locked.None?
  {
    assert s.locked.Some? ==> s.locked.value in s.closers && HoldsWrite(s.closers[s.locked.value]);
  }

  /** No deadlock: in every interleaving with a queue of at least one place, as long
      as a call has not returned or a record is on its way, some step is possible
      that needs neither a new call nor a clock nor anyone to give up. */
  lemma NoDeadlock(capacity: nat, actions: seq<Action>)
    requires capacity >= 1 && Exec(Initial(capacity), actions).Ok?
    ensures var s := Exec(Initial(capacity), actions).value;
            Unfinished(s) ==> exists a :: OnItsOwn(a) && Enabled(s, a)
  {
    hide Exec, Inv, Enabled, Apply;
    InitialInv(capacity);
    InvRun(Initial(capacity), actions);
    SameCapacity(Initial(capacity), actions);
    var s := Exec(Initial(capacity), actions).value;
    if Unfinished(s) {
      var a := SomeStep(s);
    }
  }

  lemma SomeStep(s: State) returns (a: Action)
    requires Inv(s) && s.capacity >= 1 && Unfinished(s)
    ensures OnItsOwn(a) && Enabled(s, a)
  {
    hide Enabled, LockInv, SelectInv, OrderInv, MemberInv, CountInv;
    if w :| w in s.writers && !s.writers[w].Returned? {
      a := WriterHasStep(s, w);
    } else if c :| c in s.closers && !s.closers[c].CloseReturned? {
      a := CloserHasStep(s, c);
    } else {
      a := WorkerHasStep(s);
    }
  }

  /** A call that waits in the select can send exactly while the queue has room. */
  lemma SendsExactlyWhenRoom(capacity: nat, actions: seq<Action>, w: nat)
    requires Exec(Initial(capacity), actions).Ok?
    requires var s := Exec(Initial(capacity), actions).value; w in s.writers && s.writers[w].Selecting?
    ensures var s := Exec(Initial(capacity), actions).value; Enabled(s, Send(w)) <==> |s.queue| < capacity
  {
    hide Exec, Apply, OrderInv, MemberInv, CountInv, LockInv;
    InitialInv(capacity);
    InvRun(Initial(capacity), actions);
    SameCapacity(Initial(capacity), actions);
  }

  // ---- retry ----

  const TWO_63: int := 0x8000_0000_0000_0000

  /** Signed 64-bit wrap-around. */
  function Wrap64(x: int): (w: int)
    ensures -TWO_63 <= w < TWO_63
    ensures -TWO_63 <= x < TWO_63 ==> w == x
  {
    (x + TWO_63) % (2 * TWO_63) - TWO_63
  }

  function NextBackoff(backoff: int, maximum: int): (b: int)
  {
    if Wrap64(2 * backoff) > maximum then maximum else Wrap64(2 * backoff)
  }

  /** The backoff the code has after k waits. */
  function Backoff(initial: int, maximum: int, k: nat): (b: int)
  {
    if k == 0 then initial else NextBackoff(Backoff(initial, maximum, k - 1), maximum)
  }

  /** Capped doubling: min(initial * 2^k, maximum). */
  function Capped(initial: nat, maximum: nat, k: nat): (b: nat)
  {
    if initial * Pow2(k) < maximum then initial * Pow2(k) else maximum
  }

  ghost predicate Options(initial: int, maximum: int)
  {
    0 < initial <= maximum < TWO_63
  }

  /** Where the backoff is right, the next one is right exactly if its double
      fits 64 bits; otherwise it becomes negative. */
  lemma NextIsCapped(initial: nat, maximum: nat, k: nat)
    requires Options(initial, maximum) && Backoff(initial, maximum, k) == Capped(initial, maximum, k)
    ensures 2 * Capped(initial, maximum, k) < TWO_63 ==>
              Backoff(initial, maximum, k + 1) == Capped(initial, maximum, k + 1)
    ensures 2 * Capped(initial, maximum, k) >= TWO_63 ==>
              Backoff(initial, maximum, k + 1) ==
                2 * Capped(initial, maximum, k) - 2 * TWO_63 < 0 < Capped(initial, maximum, k + 1)
    ensures Capped(initial, maximum, k) <= Capped(initial, maximum, k + 1)
  {
    CappedStep(initial, maximum, k);
    hide Capped;
    if 2 * Capped(initial, maximum, k) >= TWO_63 {
      assert Wrap64(2 * Capped(initial, maximum, k)) == 2 * Capped(initial, maximum, k) - 2 * TWO_63;
    }
  }

  lemma CappedStep(initial: nat, maximum: nat, k: nat)
    requires 0 < initial <= maximum
    ensures var c := Capped(initial, maximum, k);
            0 < c <= maximum && Capped(initial, maximum, k + 1) == if 2 * c < maximum then 2 * c else maximum
  {
    ScaleDouble(initial, Pow2(k));
    assert Pow2(k + 1) == 2 * Pow2(k);
    ScaleUp(initial, Pow2(k));
    hide Pow2;
  }

  lemma ScaleUp(a: nat, p: nat)
    requires p > 0
    ensures a * p >= a
  {
  }

  lemma ScaleDouble(a: nat, p: nat)
    ensures a * (2 * p) == 2 * (a * p)
  {
  }

  lemma {:induction false} CappedMonotone(initial: nat, maximum: nat, j: nat, k: nat)
    requires 0 < initial <= maximum && j <= k
    ensures Capped(initial, maximum, j) <= Capped(initial, maximum, k)
    decreases k
  {
    hide Capped;
    if j < k {
      CappedMonotone(initial, maximum, j, k - 1);
      CappedStep(initial, maximum, k - 1);
    }
  }

  /** As long as the doubles of the waits before it fit 64 bits, a wait is the
      capped doubling. */
  lemma {:induction false} BackoffIsCapped(initial: nat, maximum: nat, k: nat)
    requires Options(initial, maximum) && (k == 0 || 2 * Capped(initial, maximum, k - 1) < TWO_63)
    ensures Backoff(initial, maximum, k) == Capped(initial, maximum, k)
  {
    if k > 0 {
      if k > 1 {
        CappedMonotone(initial, maximum, k - 2, k - 1);
      }
      BackoffIsCapped(initial, maximum, k - 1);
      NextIsCapped(initial, maximum, k - 1);
    } else {
      assert Pow2(0) == 1;
    }
  }

  /** The first wait whose predecessor does not double within 64 bits is wrong:
      it is negative. */
  lemma BackoffOverflows(initial: nat, maximum: nat, k: nat)
    requires Options(initial, maximum) && 2 * Capped(initial, maximum, k) >= TWO_63
    requires k == 0 || 2 * Capped(initial, maximum, k - 1) < TWO_63
    ensures Backoff(initial, maximum, k + 1) == 2 * Capped(initial, maximum, k) - 2 * TWO_63 < 0
  {
    hide Capped;
    BackoffIsCapped(initial, maximum, k);
    NextIsCapped(initial, maximum, k);
  }

  /** A failing input: with both options at 2^62 the second wait is -2^63. */
  lemma BackoffOverflowInput()
    ensures Backoff(TWO_63 / 2, TWO_63 / 2, 1) == -TWO_63 && Capped(TWO_63 / 2, TWO_63 / 2, 1) == TWO_63 / 2
  {
    var half := TWO_63 / 2;
    assert Backoff(half, half, 0) == half;
    assert Pow2(0) == 1 && Pow2(1) == 2;
  }

  /** All waits that a call with this retry count can make stay in 64 bits. */
  predicate WaitsFit(initial: nat, maximum: nat, retryCount: nat)
  {
    retryCount <= 1 || 2 * Capped(initial, maximum, retryCount - 2) < TWO_63
  }

  /** The waits of a call are min(initial * 2^k, maximum) exactly when the double
      of the last wait but one is a 64-bit value. */
  lemma BackoffExactlyWhen(initial: nat, maximum: nat, retryCount: nat)
    requires Options(initial, maximum)
    ensures (forall k: nat :: k < retryCount ==> Backoff(initial, maximum, k) == Capped(initial, maximum, k))
            <==> WaitsFit(initial, maximum, retryCount)
  {
    hide Capped, Backoff;
    if WaitsFit(initial, maximum, retryCount) {
      forall k: nat | k < retryCount
        ensures Backoff(initial, maximum, k) == Capped(initial, maximum, k)
      {
        if k > 0 {
          CappedMonotone(initial, maximum, k - 1, retryCount - 2);
        }
        BackoffIsCapped(initial, maximum, k);
      }
    } else {
      var k := retryCount - 2;
      if Backoff(initial, maximum, k) == Capped(initial, maximum, k) {
        NextIsCapped(initial, maximum, k);
        assert Backoff(initial, maximum, k + 1) != Capped(initial, maximum, k + 1);
      }
    }
  }

  datatype Attempt = Success | RetryableError | PermanentError

  /** The retry loop: at most retryCount + 1 attempts, a wait of the current
      backoff between two attempts, and success exactly when the last attempt
      stored the record. */
  method WriteWithRetry(retryCount: nat, initial: nat, maximum: nat)
    returns (ok: bool, attempts: seq<Attempt>, waits: seq<int>)
    ensures 1 <= |attempts| <= retryCount + 1 && |waits| == |attempts| - 1
    ensures forall i :: 0 <= i < |waits| ==> attempts[i].RetryableError? && waits[i] == Backoff(initial, maximum, i)
    ensures Options(initial, maximum) && WaitsFit(initial, maximum, retryCount) ==>
              forall i :: 0 <= i < |waits| ==> waits[i] == Capped(initial, maximum, i)
    ensures ok <==> attempts[|attempts| - 1].Success?
    ensures attempts[|attempts| - 1].RetryableError? ==> |attempts| == retryCount + 1
  {
    hide Wrap64, Capped, WaitsFit;
    if Options(initial, maximum) {
      BackoffExactlyWhen(initial, maximum, retryCount);
    }
    var backoff: int := initial;
    attempts, waits := [], [];
    while true
      invariant |attempts| == |waits| <= retryCount
      invariant backoff == Backoff(initial, maximum, |waits|)
      invariant forall i :: 0 <= i < |waits| ==> attempts[i].RetryableError? && waits[i] == Backoff(initial, maximum, i)
      decreases retryCount - |attempts|
    {
      var outcome: Attempt := *;
      var attempt := |attempts|;
      attempts := attempts + [outcome];
      if outcome.Success? {
        return true, attempts, waits;
      }
      if attempt >= retryCount || !outcome.RetryableError? {
        return false, attempts, waits;
      }
      waits := waits + [backoff];
      assert Backoff(initial, maximum, |waits|) == NextBackoff(backoff, maximum);
      backoff := Wrap64(2 * backoff);
      if backoff > maximum {
        backoff := maximum;
      }
    }
  }
}
