/** The data path from WriteSensorData to the disk: the streams of an engine with
    data files as their record writers. A run interleaves the steps of the engine
    with those of the files; a store appends the record of the call to the file,
    and a flush counts only when the file's buffer is empty. */
module DataPaths {
  import opened Results
  import opened SegmentNames
  import S = DataStreams
  import E = DataEngines
  import D = DataLog

  /** found are the records that a stream's file held when it was opened, stored
      the calls whose records were appended to it since. */
  datatype State = State(
    engine: E.State, files: map<E.Key, D.State>, found: map<E.Key, seq<D.Record>>, stored: map<E.Key, seq<nat>>)

  datatype Action =
    | Engine(a: E.Action)
    | Open(w: nat, file: D.State)          // the factory of a new stream opens its file
    | Store(key: E.Key)
    | FileStep(key: E.Key, d: D.Action)    // bytes leave the buffer, or a rotation
    | Tick(key: E.Key, ok: bool)           // the periodic flush
    | Stop(key: E.Key, ok: bool)           // the final flush

  function Initial(capacity: nat): (s: State)
  {
    State(E.Initial(capacity), map[], map[], map[])
  }

  /** The steps of the engine that leave the files alone. */
  predicate Plain(a: E.Action)
  {
    !a.Create? && !(a.Stream? && Touches(a.step))
  }

  predicate Touches(step: S.Action)
  {
    step.Store? || step.Tick? || step.Stop?
  }

  ghost predicate Sound(file: D.State)
  {
    exists m: nat :: D.Inv(file, m)
  }

  ghost predicate JustOpened(file: D.State)
  {
    Sound(file) && file.open && file.flushed == |file.written|
  }

  /** The engine's part of a step. */
  function EngineStep(a: Action): (r: Option<E.Action>)
  {
    match a
    case Engine(e) => Some(e)
    case Open(w, _) => Some(E.Create(w))
    case Store(key) => Some(E.Stream(key, S.Store))
    case FileStep(_, _) => None
    case Tick(key, ok) => Some(E.Stream(key, S.Tick(ok)))
    case Stop(key, ok) => Some(E.Stream(key, S.Stop(ok)))
  }

  /** What the file's part of a step needs; records says which record each call
      brings. */
  ghost predicate FileEnabled(records: nat -> D.Record, s: State, a: Action)
  {
    match a
    case Engine(e) => Plain(e)
    case Open(_, file) => JustOpened(file)
    case Store(key) =>
      && key in s.files && key in s.engine.streams && key in s.stored && s.engine.streams[key].worker.Handling?
      && D.Enabled(s.files[key], D.Accept(records(s.engine.streams[key].worker.id)))
    case FileStep(key, d) => key in s.files && (d.Emit? || d.Rotate?) && D.Enabled(s.files[key], d)
    case Tick(key, ok) => CanFlush(s, key, ok)
    case Stop(key, ok) => CanFlush(s, key, ok)
  }

  ghost predicate CanFlush(s: State, key: E.Key, ok: bool)
  {
    && key in s.files && key in s.engine.streams
    && (s.engine.streams[key].tally.dirty && ok ==> D.Enabled(s.files[key], D.Flushed))
  }

  ghost predicate Enabled(records: nat -> D.Record, s: State, a: Action)
  {
    FileEnabled(records, s, a) && (EngineStep(a).Some? ==> E.Enabled(s.engine, EngineStep(a).value))
  }

  ghost function Flush(s: State, key: E.Key, ok: bool): (t: State)
    requires CanFlush(s, key, ok)
  {
    if s.engine.streams[key].tally.dirty && ok
    then s.(files := s.files[key := D.Apply(s.files[key], D.Flushed)])
    else s
  }

  /** The file's part of a step. */
  ghost function FileApply(records: nat -> D.Record, s: State, a: Action): (t: State)
    requires Enabled(records, s, a)
  {
    match a
    case Engine(_) => s
    case Open(w, file) =>
      var key := s.engine.writers[w].key;
      s.(files := s.files[key := file], found := s.found[key := file.written], stored := s.stored[key := []])
    case Store(key) =>
      var id := s.engine.streams[key].worker.id;
      s.(files := s.files[key := D.Apply(s.files[key], D.Accept(records(id)))],
         stored := s.stored[key := s.stored[key] + [id]])
    case FileStep(key, d) => s.(files := s.files[key := D.Apply(s.files[key], d)])
    case Tick(key, ok) => Flush(s, key, ok)
    case Stop(key, ok) => Flush(s, key, ok)
  }

  ghost function Apply(records: nat -> D.Record, s: State, a: Action): (t: State)
    requires Enabled(records, s, a)
  {
    var t := FileApply(records, s, a);
    if EngineStep(a).Some? then t.(engine := E.Apply(s.engine, EngineStep(a).value)) else t
  }

  ghost function Exec(records: nat -> D.Record, s: State, actions: seq<Action>): (r: Result<State>)
    decreases |actions|
  {
    if actions == [] then Ok(s)
    else if !Enabled(records, s, actions[0]) then Err(NotEnabled)
    else Exec(records, Apply(records, s, actions[0]), actions[1..])
  }

  // ---- one stream and its file ----

  function RecordsOf(records: nat -> D.Record, ids: seq<nat>): (rs: seq<D.Record>)
    ensures |rs| == |ids|
  {
    seq(|ids|, i requires 0 <= i < |ids| => records(ids[i]))
  }

  lemma RecordsOfAppend(records: nat -> D.Record, ids: seq<nat>, id: nat)
    ensures RecordsOf(records, ids + [id]) == RecordsOf(records, ids) + [records(id)]
  {
  }

  /** The file holds what it held before and the stored records, in order; a
      successful flush of the stream is one of the file; and without a dropped
      record everything handled was stored. */
  ghost predicate Path(records: nat -> D.Record, stream: S.State, file: D.State, found: seq<D.Record>, stored: seq<nat>)
  {
    var n, worker := stream.tally, stream.worker;
    && Sound(file) && file.open
    && file.written == found + RecordsOf(records, stored)
    && |stored| == n.written + (if worker.Stored? then 1 else 0)
    && file.flushed >= |found| + n.flushed
    && (forall id :: id in stored ==> id in stream.handled)
    && (n.failed == 0 && !worker.Failed? && !worker.ErrorCounted? ==> stored == stream.handled)
  }

  lemma SoundStep(file: D.State, d: D.Action)
    requires Sound(file) && D.Enabled(file, d)
    ensures Sound(D.Apply(file, d))
  {
    hide D.Inv, D.Enabled, D.Apply;
    var m: nat :| D.Inv(file, m);
    D.InvStep(file, m, d);
  }

  /** The steps of a stream that leave its file alone. */
  lemma PlainPath(records: nat -> D.Record, s: S.State, step: S.Action, file: D.State, found: seq<D.Record>,
                  stored: seq<nat>)
    requires Path(records, s, file, found, stored) && S.Enabled(s, step) && !Touches(step)
    ensures Path(records, S.Apply(s, step), file, found, stored)
  {
    hide Sound, RecordsOf;
    var t := S.Apply(s, step);
    if S.ByWriter(step) {
      WriterPath(s, step);
    } else if S.ByWorker(step) {
      WorkerPath(s, step);
    } else {
      S.CloserKeeps(s, step);
    }
  }

  lemma WriterPath(s: S.State, step: S.Action)
    requires S.ByWriter(step) && S.WriterEnabled(s, step)
    ensures var t := S.WriterApply(s, step);
            && t.worker == s.worker && t.handled == s.handled && t.tally.written == s.tally.written
            && t.tally.failed == s.tally.failed && t.tally.flushed == s.tally.flushed
  {
  }

  lemma WorkerPath(s: S.State, step: S.Action)
    requires S.ByWorker(step) && S.WorkerEnabled(s, step) && !Touches(step)
    ensures var t := S.WorkerApply(s, step);
            && t.tally.flushed == s.tally.flushed
            && t.tally.written + (if t.worker.Stored? then 1 else 0) ==
               s.tally.written + (if s.worker.Stored? then 1 else 0)
            && s.handled <= t.handled && (t.handled == s.handled || t.worker.Failed?)
            && (t.tally.failed == 0 && !t.worker.Failed? && !t.worker.ErrorCounted? ==>
                  s.tally.failed == 0 && !s.worker.Failed? && !s.worker.ErrorCounted?)
  {
  }

  lemma StorePath(records: nat -> D.Record, s: S.State, file: D.State, found: seq<D.Record>, stored: seq<nat>)
    requires Path(records, s, file, found, stored) && S.Enabled(s, S.Store)
    requires D.Enabled(file, D.Accept(records(s.worker.id)))
    ensures Path(records, S.Apply(s, S.Store), D.Apply(file, D.Accept(records(s.worker.id))), found,
                 stored + [s.worker.id])
  {
    hide Sound, RecordsOf;
    var id := s.worker.id;
    SoundStep(file, D.Accept(records(id)));
    RecordsOfAppend(records, stored, id);
    assert found + (RecordsOf(records, stored) + [records(id)]) == found + RecordsOf(records, stored) + [records(id)];
  }

  lemma FlushPath(records: nat -> D.Record, s: S.State, step: S.Action, file: D.State, found: seq<D.Record>,
                  stored: seq<nat>)
    requires Path(records, s, file, found, stored) && S.Enabled(s, step) && (step.Tick? || step.Stop?)
    requires s.tally.dirty && step.ok ==> D.Enabled(file, D.Flushed)
    ensures var after := if s.tally.dirty && step.ok then D.Apply(file, D.Flushed) else file;
            Path(records, S.Apply(s, step), after, found, stored)
  {
    hide Sound, RecordsOf;
    if s.tally.dirty && step.ok {
      SoundStep(file, D.Flushed);
    }
  }

  lemma FilePath(records: nat -> D.Record, s: S.State, file: D.State, d: D.Action, found: seq<D.Record>,
                 stored: seq<nat>)
    requires Path(records, s, file, found, stored) && (d.Emit? || d.Rotate?) && D.Enabled(file, d)
    ensures Path(records, s, D.Apply(file, d), found, stored)
  {
    hide Sound, RecordsOf;
    SoundStep(file, d);
  }

  lemma OpenPath(records: nat -> D.Record, capacity: nat, file: D.State)
    requires JustOpened(file)
    ensures Path(records, S.Initial(capacity), file, file.written, [])
  {
    hide Sound;
    assert file.written + [] == file.written;
  }

  // ---- all streams ----

  ghost predicate PathAt(records: nat -> D.Record, s: State, k: E.Key)
    requires k in s.engine.streams
  {
    && k in s.files && k in s.found && k in s.stored
    && Path(records, s.engine.streams[k], s.files[k], s.found[k], s.stored[k])
  }

  ghost predicate Inv(records: nat -> D.Record, s: State)
  {
    E.Inv(s.engine) && forall k :: k in s.engine.streams ==> PathAt(records, s, k)
  }

  /** What a plain step of the engine does to a stream. */
  lemma PlainStreams(s: E.State, a: E.Action, k: E.Key)
    requires E.Enabled(s, a) && Plain(a) && k in E.Apply(s, a).streams
    ensures k in s.streams
    ensures var stream := E.Apply(s, a).streams[k];
            || stream == s.streams[k]
            || (a.Stream? && a.key == k && !Touches(a.step) && S.Enabled(s.streams[k], a.step)
                && stream == S.Apply(s.streams[k], a.step))
  {
    hide S.Enabled, S.Apply;
  }

  /** What a step of one stream, or the creation of one, does to the others. */
  lemma OtherStreams(s: E.State, a: E.Action, k: E.Key)
    requires E.Enabled(s, a) && (a.Stream? || a.Create?) && k in E.Apply(s, a).streams
    requires k != if a.Stream? then a.key else s.writers[a.w].key
    ensures k in s.streams && E.Apply(s, a).streams[k] == s.streams[k]
  {
    hide S.Enabled, S.Apply, S.Initial;
  }

  lemma PathStep(records: nat -> D.Record, s: State, a: Action, k: E.Key)
    requires Inv(records, s) && Enabled(records, s, a) && k in Apply(records, s, a).engine.streams
    ensures PathAt(records, Apply(records, s, a), k)
  {
    hide Path, E.Inv, E.Enabled, E.Apply, S.Enabled, S.Apply, D.Enabled, D.Apply, JustOpened;
    match a
    case Engine(e) => EnginePathStep(records, s, e, k);
    case Open(w, file) => OpenPathStep(records, s, a, k);
    case FileStep(key, d) =>
      if k == key {
        FilePath(records, s.engine.streams[k], s.files[k], d, s.found[k], s.stored[k]);
      } else {
        assert PathAt(records, s, k);
      }
    case Store(_) => StreamPathStep(records, s, a, k);
    case Tick(_, _) => StreamPathStep(records, s, a, k);
    case Stop(_, _) => StreamPathStep(records, s, a, k);
  }

  lemma EnginePathStep(records: nat -> D.Record, s: State, e: E.Action, k: E.Key)
    requires Inv(records, s) && Enabled(records, s, Engine(e)) && k in Apply(records, s, Engine(e)).engine.streams
    ensures PathAt(records, Apply(records, s, Engine(e)), k)
  {
    hide Path, E.Inv, E.Enabled, E.Apply, S.Enabled, S.Apply;
    PlainStreams(s.engine, e, k);
    assert PathAt(records, s, k);
    if e.Stream? && e.key == k && E.Apply(s.engine, e).streams[k] != s.engine.streams[k] {
      PlainPath(records, s.engine.streams[k], e.step, s.files[k], s.found[k], s.stored[k]);
    }
  }

  lemma OpenPathStep(records: nat -> D.Record, s: State, a: Action, k: E.Key)
    requires Inv(records, s) && Enabled(records, s, a) && a.Open? && k in Apply(records, s, a).engine.streams
    ensures PathAt(records, Apply(records, s, a), k)
  {
    hide Path, E.Inv, S.Initial, JustOpened;
    var e := E.Create(a.w);
    if k == s.engine.writers[a.w].key {
      OpenPath(records, s.engine.capacity, a.file);
    } else {
      OtherStreams(s.engine, e, k);
      assert PathAt(records, s, k);
    }
  }

  lemma StreamPathStep(records: nat -> D.Record, s: State, a: Action, k: E.Key)
    requires Inv(records, s) && Enabled(records, s, a) && (a.Store? || a.Tick? || a.Stop?)
    requires k in Apply(records, s, a).engine.streams
    ensures PathAt(records, Apply(records, s, a), k)
  {
    hide Path, E.Inv, E.Enabled, E.Apply, S.Enabled, S.Apply, D.Enabled, D.Apply;
    var e := EngineStep(a).value;
    if k != a.key {
      OtherStreams(s.engine, e, k);
      assert PathAt(records, s, k);
    } else {
      StreamMoves(s.engine, e);
      assert PathAt(records, s, k);
      if a.Store? {
        StorePath(records, s.engine.streams[k], s.files[k], s.found[k], s.stored[k]);
      } else {
        FlushPath(records, s.engine.streams[k], e.step, s.files[k], s.found[k], s.stored[k]);
      }
    }
  }

  lemma StreamMoves(s: E.State, a: E.Action)
    requires E.Enabled(s, a) && a.Stream? && Touches(a.step)
    ensures a.key in s.streams && S.Enabled(s.streams[a.key], a.step)
    ensures a.key in E.Apply(s, a).streams && E.Apply(s, a).streams[a.key] == S.Apply(s.streams[a.key], a.step)
  {
    hide S.Enabled, S.Apply;
  }

  lemma InvStep(records: nat -> D.Record, s: State, a: Action)
    requires Inv(records, s) && Enabled(records, s, a)
    ensures Inv(records, Apply(records, s, a))
  {
    hide E.Inv, PathAt, FileEnabled, FileApply;
    var t := Apply(records, s, a);
    if EngineStep(a).Some? {
      E.InvStep(s.engine, EngineStep(a).value);
    } else {
      assert t.engine == s.engine by { FilesOnly(records, s, a); }
    }
    forall k | k in t.engine.streams
      ensures PathAt(records, t, k)
    {
      PathStep(records, s, a, k);
    }
  }

  lemma FilesOnly(records: nat -> D.Record, s: State, a: Action)
    requires Enabled(records, s, a) && EngineStep(a).None?
    ensures Apply(records, s, a).engine == s.engine
  {
    hide D.Enabled, D.Apply;
  }

  lemma {:induction false} InvRun(records: nat -> D.Record, s: State, actions: seq<Action>)
    requires Inv(records, s) && Exec(records, s, actions).Ok?
    ensures Inv(records, Exec(records, s, actions).value)
    decreases |actions|
  {
    hide Inv, Enabled, Apply;
    if actions != [] {
      InvStep(records, s, actions[0]);
      InvRun(records, Apply(records, s, actions[0]), actions[1..]);
    }
  }

  /** Without a failed flush a closed stream's file holds, for every reader, what
      it held when it was opened and then every stored record in order; if no
      record was dropped these are all the records ever sent, in queue order. */
  ghost predicate OnDisk(records: nat -> D.Record, stream: S.State, file: D.State, found: seq<D.Record>,
                         stored: seq<nat>)
  {
    && D.Recovered(file) == found + RecordsOf(records, stored)
    && (forall id :: id in stored ==> id in stream.handled && records(id) in D.Recovered(file))
    && (stream.tally.failed == 0 ==> stored == stream.sent)
  }

  lemma ClosedOnDisk(records: nat -> D.Record, stream: S.State, c: nat, file: D.State, found: seq<D.Record>,
                     stored: seq<nat>)
    requires S.Inv(stream) && S.ClosesAt(stream, c, S.CloseReturned) && Path(records, stream, file, found, stored)
    requires stream.tally.flushErrors == 0 && file.top <= MAX_SEQUENCE
    ensures OnDisk(records, stream, file, found, stored)
  {
    hide S.LockInv, S.SelectInv, S.OrderInv, S.MemberInv, D.Recovered, D.Core, RecordsOf;
    S.DrainedWhenClosed(stream, c);
    assert stream.worker.Done?;
    var m: nat :| D.Inv(file, m);
    D.RecoveredIsPrefix(file, m);
    assert file.written[..|file.written|] == file.written;
    assert D.Recovered(file) == file.written;
    forall id | id in stored
      ensures records(id) in D.Recovered(file)
    {
      StoredRecord(records, found, stored, id);
    }
  }

  lemma StoredRecord(records: nat -> D.Record, found: seq<D.Record>, stored: seq<nat>, id: nat)
    requires id in stored
    ensures records(id) in found + RecordsOf(records, stored)
  {
    var i :| 0 <= i < |stored| && stored[i] == id;
    assert (found + RecordsOf(records, stored))[|found| + i] == records(id);
  }

  /** End to end: in every interleaving of calls, workers, files and the first
      Close, once that Close has returned, every successful WriteSensorData call
      was handed to its file, and every stream without a failed flush has all its
      stored records on disk. */
  lemma WrittenIsOnDisk(records: nat -> D.Record, capacity: nat, actions: seq<Action>, c: nat)
    requires Exec(records, Initial(capacity), actions).Ok?
    requires var e := Exec(records, Initial(capacity), actions).value.engine;
             c in e.closers && e.closers[c].ClosedFirst?
    ensures var s := Exec(records, Initial(capacity), actions).value;
            && E.AllDrained(s.engine)
            && forall k :: k in s.engine.streams ==>
                 && k in s.files && k in s.found && k in s.stored
                 && (s.engine.streams[k].tally.flushErrors == 0 && s.files[k].top <= MAX_SEQUENCE ==>
                       OnDisk(records, s.engine.streams[k], s.files[k], s.found[k], s.stored[k]))
  {
    hide Exec, E.AllDrained, Path, S.Inv, OnDisk, E.MutexInv, E.CallInv, E.CloseInv;
    assert Inv(records, Initial(capacity)) by { InitialInv(records, capacity); }
    InvRun(records, Initial(capacity), actions);
    var s := Exec(records, Initial(capacity), actions).value;
    E.DrainedWhenClosed(s.engine, c);
    forall k | k in s.engine.streams
      ensures k in s.files && k in s.found && k in s.stored
      ensures s.engine.streams[k].tally.flushErrors == 0 && s.files[k].top <= MAX_SEQUENCE ==>
                OnDisk(records, s.engine.streams[k], s.files[k], s.found[k], s.stored[k])
    {
      assert PathAt(records, s, k) && E.StreamIsClosed(s.engine, c, k);
      if s.engine.streams[k].tally.flushErrors == 0 && s.files[k].top <= MAX_SEQUENCE {
        ClosedOnDisk(records, s.engine.streams[k], c, s.files[k], s.found[k], s.stored[k]);
      }
    }
  }

  lemma InitialInv(records: nat -> D.Record, capacity: nat)
    ensures Inv(records, Initial(capacity))
  {
    E.InitialInv(capacity);
  }

  // ---- one call from end to end ----

  lemma {:induction false} KeyRun(records: nat -> D.Record, s: State, actions: seq<Action>, w: nat)
    requires Exec(records, s, actions).Ok? && w in s.engine.writers
    ensures var t := Exec(records, s, actions).value.engine;
            w in t.writers && t.writers[w].key == s.engine.writers[w].key
    decreases |actions|
  {
    hide FileEnabled, FileApply, E.Enabled, E.Apply;
    if actions != [] {
      var a := actions[0];
      if EngineStep(a).Some? {
        E.KeyStep(s.engine, EngineStep(a).value, w);
      } else {
        FilesOnly(records, s, a);
      }
      KeyRun(records, Apply(records, s, a), actions[1..], w);
    }
  }

  lemma {:induction false} KeyOfCall(records: nat -> D.Record, s: State, actions: seq<Action>, i: nat, w: nat,
                                     key: E.Key)
    requires Exec(records, s, actions).Ok? && i < |actions| && actions[i] == Engine(E.Call(w, key))
    ensures var t := Exec(records, s, actions).value.engine; w in t.writers && t.writers[w].key == key
    decreases |actions|
  {
    if i == 0 {
      CallStarts(records, s, w, key);
      hide Enabled, Apply;
      KeyRun(records, Apply(records, s, actions[0]), actions[1..], w);
    } else {
      hide Enabled, Apply;
      KeyOfCall(records, Apply(records, s, actions[0]), actions[1..], i - 1, w, key);
    }
  }

  lemma CallStarts(records: nat -> D.Record, s: State, w: nat, key: E.Key)
    requires Enabled(records, s, Engine(E.Call(w, key)))
    ensures var t := Apply(records, s, Engine(E.Call(w, key))).engine; w in t.writers && t.writers[w].key == key
  {
  }

  /** One call from end to end: once the first Close has returned, the record of a
      WriteSensorData call for a key that returned success is in the data file of
      that key, if no flush of the stream failed and it dropped no record. */
  lemma CallIsOnDisk(records: nat -> D.Record, capacity: nat, actions: seq<Action>, c: nat, i: nat, w: nat, key: E.Key)
    requires Exec(records, Initial(capacity), actions).Ok? && i < |actions| && actions[i] == Engine(E.Call(w, key))
    requires var e := Exec(records, Initial(capacity), actions).value.engine;
             c in e.closers && e.closers[c].ClosedFirst?
    ensures var s := Exec(records, Initial(capacity), actions).value;
            && w in s.engine.writers
            && (s.engine.writers[w].WriteReturned? && s.engine.writers[w].ok ==>
                  && key in s.engine.streams && key in s.files
                  && w in s.engine.streams[key].handled
                  && (s.engine.streams[key].tally.flushErrors == 0 && s.engine.streams[key].tally.failed == 0
                      && s.files[key].top <= MAX_SEQUENCE ==>
                        records(w) in D.Recovered(s.files[key])))
  {
    hide Exec, D.Recovered;
    KeyOfCall(records, Initial(capacity), actions, i, w, key);
    WrittenIsOnDisk(records, capacity, actions, c);
  }
}
