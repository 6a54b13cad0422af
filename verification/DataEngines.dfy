/** The data engine: streams created on demand under a mutex, and a Close that
    must find all of them, as interleaved atomic steps over the steps of the
    streams (sensor-server/data-engine.go). */
module DataEngines {
  import opened Results
  import opened SegmentNames
  import S = DataStreams

  datatype Key = Key(floor: nat, room: nat, sensorType: nat)

  /** A WriteSensorData call, by the statement it is about to execute. */
  datatype Writing =
    | Starting(key: Key)              // about to load the closed flag
    | WantsMutex(key: Key)
    | Locked(key: Key)                // holds the mutex, about to load the flag again
    | Creating(key: Key)              // holds the mutex, running the factory
    | GotStream(key: Key)             // about to call Write on the stream
    | InStream(key: Key)
    | WriteReturned(key: Key, ok: bool)

  /** A Close call. */
  datatype Closing =
    | Swapped                         // its compare-and-swap set the flag
    | Draining(todo: set<Key>)        // streams still to be closed
    | InClose(key: Key, todo: set<Key>)
    | ClosedFirst                     // returned after draining
    | ClosedAgain                     // returned at once: the flag was set

  datatype State = State(
    capacity: nat, closed: bool, mutex: Option<nat>,
    streams: map<Key, S.State>,
    writers: map<nat, Writing>, closers: map<nat, Closing>,
    first: Option<nat>, snapshot: Option<set<Key>>)

  datatype Action =
    | Call(w: nat, key: Key) | Check(w: nat) | Lock(w: nat) | Look(w: nat) | Create(w: nat) | FactoryFails(w: nat)
    | Stream(key: Key, step: S.Action) | Return(w: nat)
    | CallClose(c: nat) | Snapshot(c: nat) | StreamClosed(c: nat) | FinishClose(c: nat)

  function Initial(capacity: nat): (s: State)
  {
    State(capacity, false, None, map[], map[], map[], None, None)
  }

  /** A stream moves on its own, except that a Write or Close call on it is
      made by an engine call that has come to that point. */
  ghost predicate StreamEnabled(s: State, key: Key, step: S.Action)
  {
    && key in s.streams && S.Enabled(s.streams[key], step)
    && (step.Call? ==> step.w in s.writers && s.writers[step.w] == GotStream(key))
    && (step.CallClose? ==> step.c in s.closers && s.closers[step.c].Draining? && key in s.closers[step.c].todo)
  }

  ghost predicate Enabled(s: State, a: Action)
  {
    match a
    case Call(w, _) => w !in s.writers
    case Check(w) => w in s.writers && s.writers[w].Starting?
    case Lock(w) => w in s.writers && s.writers[w].WantsMutex? && s.mutex.None?
    case Look(w) => w in s.writers && s.writers[w].Locked?
    case Create(w) => w in s.writers && s.writers[w].Creating?
    case FactoryFails(w) => w in s.writers && s.writers[w].Creating?
    case Stream(key, step) => StreamEnabled(s, key, step)
    case Return(w) =>
      && w in s.writers && s.writers[w].InStream? && s.writers[w].key in s.streams
      && w in s.streams[s.writers[w].key].writers && s.streams[s.writers[w].key].writers[w].Returned?
    case CallClose(c) => c !in s.closers
    case Snapshot(c) => c in s.closers && s.closers[c].Swapped? && s.mutex.None?
    case StreamClosed(c) =>
      && c in s.closers && s.closers[c].InClose? && s.closers[c].key in s.streams
      && S.ClosesAt(s.streams[s.closers[c].key], c, S.CloseReturned)
    case FinishClose(c) => c in s.closers && s.closers[c] == Draining({})
  }

  function Move(s: State, w: nat, p: Writing): (t: State)
  {
    s.(writers := s.writers[w := p])
  }

  function MoveCloser(s: State, c: nat, p: Closing): (t: State)
  {
    s.(closers := s.closers[c := p])
  }

  ghost function StreamStep(s: State, key: Key, step: S.Action): (t: State)
    requires StreamEnabled(s, key, step)
  {
    var t := s.(streams := s.streams[key := S.Apply(s.streams[key], step)]);
    if step.Call? then Move(t, step.w, InStream(key))
    else if step.CallClose? then MoveCloser(t, step.c, InClose(key, s.closers[step.c].todo - {key}))
    else t
  }

  ghost function Apply(s: State, a: Action): (t: State)
    requires Enabled(s, a)
  {
    match a
    case Call(w, key) => Move(s, w, Starting(key))
    case Check(w) =>
      var key := s.writers[w].key;
      Move(s, w, if s.closed then WriteReturned(key, false) else WantsMutex(key))
    case Lock(w) => Move(s, w, Locked(s.writers[w].key)).(mutex := Some(w))
    case Look(w) =>
      var key := s.writers[w].key;
      if s.closed then Move(s, w, WriteReturned(key, false)).(mutex := None)
      else if key in s.streams then Move(s, w, GotStream(key)).(mutex := None)
      else Move(s, w, Creating(key))
    case Create(w) =>
      var key := s.writers[w].key;
      Move(s, w, GotStream(key)).(mutex := None, streams := s.streams[key := S.Initial(s.capacity)])
    case FactoryFails(w) => Move(s, w, WriteReturned(s.writers[w].key, false)).(mutex := None)
    case Stream(key, step) => StreamStep(s, key, step)
    case Return(w) => Move(s, w, WriteReturned(s.writers[w].key, s.streams[s.writers[w].key].writers[w].ok))
    case CallClose(c) =>
      if s.closed then MoveCloser(s, c, ClosedAgain)
      else MoveCloser(s, c, Swapped).(closed := true, first := Some(c))
    case Snapshot(c) => MoveCloser(s, c, Draining(s.streams.Keys)).(snapshot := Some(s.streams.Keys))
    case StreamClosed(c) => MoveCloser(s, c, Draining(s.closers[c].todo))
    case FinishClose(c) => MoveCloser(s, c, ClosedFirst)
  }

  // ---- what every step keeps ----

  ghost predicate StreamsInv(s: State)
  {
    forall k :: k in s.streams ==> S.Inv(s.streams[k])
  }

  predicate HoldsMutex(p: Writing)
  {
    p.Locked? || p.Creating?
  }

  /** One holder of the mutex; a stream is created only under it, for a key
      that has none, and not once the snapshot is taken. */
  ghost predicate MutexInv(s: State)
  {
    && (forall w :: w in s.writers && HoldsMutex(s.writers[w]) ==> s.mutex == Some(w))
    && (forall w :: w in s.writers && s.writers[w].Creating? ==> s.writers[w].key !in s.streams && s.snapshot.None?)
    && (s.snapshot.Some? ==> s.closed && s.snapshot.value == s.streams.Keys)
  }

  /** A call inside a stream is known there, and its result is the stream's. */
  ghost predicate CallOk(s: State, w: nat, p: Writing)
  {
    && (p.GotStream? ==> p.key in s.streams)
    && (p.InStream? ==> p.key in s.streams && w in s.streams[p.key].writers)
    && (p.WriteReturned? && p.ok ==> p.key in s.streams && S.At(s.streams[p.key], w, S.Returned(true)))
  }

  ghost predicate CallInv(s: State)
  {
    forall w :: w in s.writers ==> CallOk(s, w, s.writers[w])
  }

  predicate StreamIsClosed(s: State, c: nat, k: Key)
  {
    k in s.streams && S.ClosesAt(s.streams[k], c, S.CloseReturned)
  }

  /** The first Close call works through the snapshot: all streams but those
      in `open` have been closed by it. */
  ghost predicate Drained(s: State, c: nat, open: set<Key>)
  {
    s.first == Some(c) && s.snapshot.Some? && forall k :: k in s.snapshot.value ==> k in open || StreamIsClosed(s, c, k)
  }

  ghost predicate CloserOk(s: State, c: nat, p: Closing)
  {
    match p
    case Swapped => s.first == Some(c) && s.snapshot.None?
    case Draining(todo) => Drained(s, c, todo)
    case InClose(key, todo) => Drained(s, c, todo + {key})
    case ClosedFirst => Drained(s, c, {})
    case ClosedAgain => s.closed
  }

  ghost predicate CloseInv(s: State)
  {
    && (s.closed <==> s.first.Some?)
    && (s.snapshot.Some? ==> s.closed)
    && (forall c :: c in s.closers ==> CloserOk(s, c, s.closers[c]))
  }

  ghost predicate Inv(s: State)
  {
    StreamsInv(s) && MutexInv(s) && CallInv(s) && CloseInv(s)
  }

  lemma StreamsStep(s: State, a: Action)
    requires StreamsInv(s) && Enabled(s, a)
    ensures StreamsInv(Apply(s, a))
  {
    hide S.Inv, S.Enabled, S.Apply;
    match a
    case Stream(key, step) => S.InvStep(s.streams[key], step);
    case Create(_) => S.InitialInv(s.capacity);
    case _ =>
  }

  lemma MutexStep(s: State, a: Action)
    requires MutexInv(s) && CloseInv(s) && Enabled(s, a)
    ensures MutexInv(Apply(s, a))
  {
    hide S.Enabled, S.Apply, S.Initial, Drained;
    if a.Snapshot? {
      assert CloserOk(s, a.c, s.closers[a.c]);
    }
  }

  lemma CallStep(s: State, a: Action)
    requires CallInv(s) && MutexInv(s) && Enabled(s, a)
    ensures CallInv(Apply(s, a))
  {
    hide S.Initial, S.Enabled, S.Apply;
    var t := Apply(s, a);
    if a.Stream? {
      S.StepKeeps(s.streams[a.key], a.step);
      if a.step.Call? {
        StreamCalled(s.streams[a.key], a.step);
      }
    }
    forall w | w in t.writers
      ensures CallOk(t, w, t.writers[w])
    {
      assert w in s.writers ==> CallOk(s, w, s.writers[w]);
    }
  }

  lemma StreamCalled(s: S.State, step: S.Action)
    requires S.Enabled(s, step) && step.Call?
    ensures step.w in S.Apply(s, step).writers
  {
  }

  lemma CloseStep(s: State, a: Action)
    requires CloseInv(s) && MutexInv(s) && Enabled(s, a)
    ensures CloseInv(Apply(s, a))
  {
    hide S.Initial, S.Enabled, S.Apply, Drained, StreamIsClosed;
    var t := Apply(s, a);
    assert forall c, k :: StreamIsClosed(s, c, k) ==> StreamIsClosed(t, c, k) by { ClosedStays(s, a); }
    forall c | c in t.closers
      ensures CloserOk(t, c, t.closers[c])
    {
      if c in s.closers {
        assert CloserOk(s, c, s.closers[c]);
        CloserStep(s, a, c);
      }
    }
  }

  lemma ClosedStays(s: State, a: Action)
    requires MutexInv(s) && Enabled(s, a)
    ensures forall c, k :: StreamIsClosed(s, c, k) ==> StreamIsClosed(Apply(s, a), c, k)
  {
    hide S.Initial, S.Enabled, S.Apply;
    if a.Stream? {
      S.StepKeeps(s.streams[a.key], a.step);
    }
  }

  lemma CloserStep(s: State, a: Action, c: nat)
    requires CloseInv(s) && MutexInv(s) && Enabled(s, a) && c in s.closers && CloserOk(s, c, s.closers[c])
    requires forall k :: StreamIsClosed(s, c, k) ==> StreamIsClosed(Apply(s, a), c, k)
    ensures c in Apply(s, a).closers && CloserOk(Apply(s, a), c, Apply(s, a).closers[c])
  {
    hide S.Initial, S.Enabled, S.Apply;
    var t := Apply(s, a);
    match a
    case Snapshot(d) =>
      assert CloserOk(s, d, s.closers[d]);
    case CallClose(d) =>
    case Stream(key, step) =>
      if step.CallClose? && step.c == c {
        assert s.closers[c].todo - {key} + {key} == s.closers[c].todo;
      }
    case StreamClosed(d) =>
    case _ =>
  }

  lemma InvStep(s: State, a: Action)
    requires Inv(s) && Enabled(s, a)
    ensures Inv(Apply(s, a))
  {
    hide StreamsInv, MutexInv, CallInv, CloseInv, Enabled, Apply;
    StreamsStep(s, a);
    MutexStep(s, a);
    CallStep(s, a);
    CloseStep(s, a);
  }

  ghost function Exec(s: State, actions: seq<Action>): (r: Result<State>)
    decreases |actions|
  {
    if actions == [] then Ok(s)
    else if !Enabled(s, actions[0]) then Err(NotEnabled)
    else Exec(Apply(s, actions[0]), actions[1..])
  }

  lemma {:induction false} InvRun(s: State, actions: seq<Action>)
    requires Inv(s) && Exec(s, actions).Ok?
    ensures Inv(Exec(s, actions).value)
    decreases |actions|
  {
    hide Inv, Enabled, Apply;
    if actions != [] {
      InvStep(s, actions[0]);
      InvRun(Apply(s, actions[0]), actions[1..]);
    }
  }

  lemma InitialInv(capacity: nat)
    ensures Inv(Initial(capacity))
  {
  }

  /** Every record whose WriteSensorData call returned success has been handed to
      the record writer of its stream, and each stream has handled all it was
      sent, once and in order. */
  ghost predicate AllDrained(s: State)
  {
    && (forall w :: w in s.writers && s.writers[w].WriteReturned? && s.writers[w].ok ==>
          s.writers[w].key in s.streams && w in s.streams[s.writers[w].key].handled)
    && (forall k :: k in s.streams ==>
          && s.streams[k].handled == s.streams[k].sent && S.Distinct(s.streams[k].handled)
          && s.streams[k].queue == [] && !s.streams[k].panicked)
  }

  lemma DrainedWhenClosed(s: State, c: nat)
    requires Inv(s) && c in s.closers && s.closers[c].ClosedFirst?
    ensures AllDrained(s) && forall k :: k in s.streams ==> StreamIsClosed(s, c, k)
  {
    hide S.ControlInv, S.OrderInv, S.MemberInv, S.CountInv;
    assert CloserOk(s, c, s.closers[c]);
    forall k | k in s.streams
      ensures S.FullyDrained(s.streams[k]) && !s.streams[k].panicked
    {
      S.DrainedWhenClosed(s.streams[k], c);
      NeverPanics(s.streams[k]);
    }
    forall w | w in s.writers && s.writers[w].WriteReturned? && s.writers[w].ok
      ensures s.writers[w].key in s.streams && w in s.streams[s.writers[w].key].handled
    {
      assert CallOk(s, w, s.writers[w]);
    }
  }

  /** In every interleaving, when the first Close call has returned, all streams
      are drained. */
  lemma EngineDrains(capacity: nat, actions: seq<Action>, c: nat)
    requires Exec(Initial(capacity), actions).Ok?
    requires var s := Exec(Initial(capacity), actions).value; c in s.closers && s.closers[c].ClosedFirst?
    ensures AllDrained(Exec(Initial(capacity), actions).value)
  {
    hide Exec, Inv, AllDrained, StreamIsClosed;
    InitialInv(capacity);
    InvRun(Initial(capacity), actions);
    DrainedWhenClosed(Exec(Initial(capacity), actions).value, c);
  }

  // ---- the key of a call ----

  /** A call keeps the key it was made with. */
  lemma KeyStep(s: State, a: Action, w: nat)
    requires Enabled(s, a) && w in s.writers
    ensures w in Apply(s, a).writers && Apply(s, a).writers[w].key == s.writers[w].key
  {
    hide S.Enabled, S.Apply, S.Initial;
  }

  lemma {:induction false} KeyRun(s: State, actions: seq<Action>, w: nat)
    requires Exec(s, actions).Ok? && w in s.writers
    ensures var t := Exec(s, actions).value; w in t.writers && t.writers[w].key == s.writers[w].key
    decreases |actions|
  {
    hide Enabled, Apply;
    if actions != [] {
      KeyStep(s, actions[0], w);
      KeyRun(Apply(s, actions[0]), actions[1..], w);
    }
  }

  lemma {:induction false} KeyOfCall(s: State, actions: seq<Action>, i: nat)
    requires Exec(s, actions).Ok? && i < |actions| && actions[i].Call?
    ensures var t := Exec(s, actions).value; actions[i].w in t.writers && t.writers[actions[i].w].key == actions[i].key
    decreases |actions|
  {
    if i == 0 {
      assert Apply(s, actions[0]).writers[actions[0].w].key == actions[0].key;
      hide Enabled, Apply;
      KeyRun(Apply(s, actions[0]), actions[1..], actions[0].w);
    } else {
      hide Enabled, Apply;
      KeyOfCall(Apply(s, actions[0]), actions[1..], i - 1);
    }
  }

  /** In every interleaving, when the first Close call has returned, a call made
      for a key that returned success was handed to the record writer of that
      key's stream. */
  lemma CallIsDrained(capacity: nat, actions: seq<Action>, c: nat, i: nat, w: nat, key: Key)
    requires Exec(Initial(capacity), actions).Ok? && i < |actions| && actions[i] == Call(w, key)
    requires var s := Exec(Initial(capacity), actions).value; c in s.closers && s.closers[c].ClosedFirst?
    ensures var s := Exec(Initial(capacity), actions).value;
            && w in s.writers
            && (s.writers[w].WriteReturned? && s.writers[w].ok ==> key in s.streams && w in s.streams[key].handled)
  {
    hide Exec;
    KeyOfCall(Initial(capacity), actions, i);
    EngineDrains(capacity, actions, c);
  }

  // ---- when a call is refused ----

  /** A refused call found the engine closed, or its stream refused it. */
  ghost predicate RefusedInv(s: State, w: nat)
  {
    w in s.writers && s.writers[w].WriteReturned? && !s.writers[w].ok ==>
      || s.closed
      || (s.writers[w].key in s.streams && S.At(s.streams[s.writers[w].key], w, S.Returned(false)))
  }

  lemma RefusedStep(s: State, a: Action, w: nat)
    requires RefusedInv(s, w) && MutexInv(s) && Enabled(s, a) && a != FactoryFails(w)
    ensures RefusedInv(Apply(s, a), w)
  {
    hide S.Enabled, S.Apply, S.Initial;
    if a.Stream? {
      S.StepKeeps(s.streams[a.key], a.step);
    }
  }

  lemma {:induction false} RefusedRun(s: State, actions: seq<Action>, w: nat)
    requires Inv(s) && RefusedInv(s, w) && Exec(s, actions).Ok? && FactoryFails(w) !in actions
    ensures RefusedInv(Exec(s, actions).value, w)
    decreases |actions|
  {
    hide StreamsInv, MutexInv, CallInv, CloseInv, RefusedInv, Enabled, Apply;
    if actions != [] {
      InvStep(s, actions[0]);
      RefusedStep(s, actions[0], w);
      RefusedRun(Apply(s, actions[0]), actions[1..], w);
    }
  }

  /** In every interleaving a WriteSensorData call is refused only by a closed
      engine, by a factory that failed for it, or by its own stream. */
  lemma RefusedOnlyWhen(capacity: nat, actions: seq<Action>, w: nat)
    requires Exec(Initial(capacity), actions).Ok? && FactoryFails(w) !in actions
    ensures RefusedInv(Exec(Initial(capacity), actions).value, w)
  {
    hide Exec, Inv, Enabled, Apply;
    InitialInv(capacity);
    RefusedRun(Initial(capacity), actions, w);
  }

  /** Every stream has the queue capacity of the engine. */
  lemma {:induction false} StreamCapacity(s: State, actions: seq<Action>, k: Key)
    requires Exec(s, actions).Ok? && k in Exec(s, actions).value.streams
    requires forall j :: j in s.streams ==> s.streams[j].capacity == s.capacity
    ensures Exec(s, actions).value.capacity == s.capacity
    ensures Exec(s, actions).value.streams[k].capacity == s.capacity
    decreases |actions|
  {
    hide Enabled, Apply;
    if actions != [] {
      CapacityStep(s, actions[0]);
      StreamCapacity(Apply(s, actions[0]), actions[1..], k);
    }
  }

  lemma CapacityStep(s: State, a: Action)
    requires Enabled(s, a) && forall j :: j in s.streams ==> s.streams[j].capacity == s.capacity
    ensures var t := Apply(s, a);
            t.capacity == s.capacity && forall j :: j in t.streams ==> t.streams[j].capacity == s.capacity
  {
    hide S.Enabled, S.Apply;
    if a.Stream? {
      S.StepCapacity(s.streams[a.key], a.step);
    }
  }

  lemma NeverPanics(s: S.State)
    requires S.Inv(s)
    ensures !s.panicked
  {
  }

  /** No step removes or replaces a stream: it stays, or makes one step of its
      own; and once the snapshot is taken the set of streams is fixed. */
  lemma OneStreamPerKey(capacity: nat, actions: seq<Action>, a: Action, k: Key)
    requires Exec(Initial(capacity), actions).Ok? && Enabled(Exec(Initial(capacity), actions).value, a)
    requires k in Exec(Initial(capacity), actions).value.streams
    ensures var s := Exec(Initial(capacity), actions).value;
            var t := Apply(s, a);
            && k in t.streams
            && (|| t.streams[k] == s.streams[k]
                || exists step :: S.Enabled(s.streams[k], step) && t.streams[k] == S.Apply(s.streams[k], step))
            && (s.snapshot.Some? ==> t.snapshot == s.snapshot && t.streams.Keys == s.streams.Keys)
  {
    hide Exec, S.Enabled, S.Apply, S.Initial, StreamsInv, CallInv, Drained;
    InitialInv(capacity);
    InvRun(Initial(capacity), actions);
    InvStep(Exec(Initial(capacity), actions).value, a);
    var s := Exec(Initial(capacity), actions).value;
    if a.Snapshot? {
      assert CloserOk(s, a.c, s.closers[a.c]);
    }
  }
}
