/** The quarantine log as a machine whose steps are single effects on the
    directory or on the data writer, with a crash possible between any two and
    in the middle of any append (sensor-server/quarantine.go). */
module QuarantineLog {
  import opened Words
  import opened Results
  import opened Protocol
  import opened QuarantineCodec
  import opened Routing
  import opened PendingSum
  import opened SegmentNames

  // ---- the content of one segment ----

  /** The messages that startup finds in a segment file. */
  ghost function Entries(file: seq<Byte>): (es: seq<UnknownMessage>)
  {
    if Scan(file).Ok? && ReadEntries(file[..Scan(file).value]).Ok?
    then ReadEntries(file[..Scan(file).value]).value
    else []
  }

  ghost predicate Laid(file: seq<Byte>, es: seq<UnknownMessage>, t: seq<Byte>)
  {
    AllWellFormed(es) && Torn(t) && file == SegmentBytes(es) + t
  }

  /** Whole entries followed by at most one torn write. */
  ghost predicate Storable(file: seq<Byte>)
  {
    exists es, t :: Laid(file, es, t)
  }

  /** Whole entries only. */
  ghost predicate Clean(file: seq<Byte>)
  {
    Laid(file, Entries(file), [])
  }

  lemma LaidFacts(file: seq<Byte>, es: seq<UnknownMessage>, t: seq<Byte>)
    requires Laid(file, es, t)
    ensures Entries(file) == es && Storable(file)
    ensures Scan(file) == Ok(|SegmentBytes(es)|)
    ensures file[..|SegmentBytes(es)|] == SegmentBytes(es)
    ensures t == [] ==> Clean(file) && Scan(file) == Ok(|file|) && ReadEntries(file) == Ok(es)
  {
    hide AllWellFormed, Torn, SegmentBytes, Scan, ReadEntries;
    TornTailRecovery(es, t, []);
    assert file[..|SegmentBytes(es)|] == SegmentBytes(es);
    if t == [] {
      assert file == SegmentBytes(es);
    }
  }

  /** What the buffer holds behind the file changes neither scan nor reader. */
  lemma AnyBuffer(file: seq<Byte>, slack: seq<Byte>)
    ensures Storable(file) ==> Scan(file, slack) == Scan(file)
    ensures Clean(file) ==> ReadEntries(file, slack) == Ok(Entries(file))
  {
    hide AllWellFormed, Torn, SegmentBytes, Scan, ReadEntries, Entries;
    if Storable(file) {
      var es, t :| Laid(file, es, t);
      TornTailRecovery(es, t, slack);
      TornTailRecovery(es, t, []);
    }
    if Clean(file) {
      var es := Entries(file);
      TornTailRecovery(es, [], slack);
      assert SegmentBytes(es) + [] == SegmentBytes(es);
    }
  }

  /** Repair keeps exactly the whole entries. */
  lemma RepairFacts(file: seq<Byte>)
    requires Storable(file)
    ensures Scan(file).Ok?
    ensures Clean(file[..Scan(file).value]) && Entries(file[..Scan(file).value]) == Entries(file)
    ensures Scan(file) == Ok(|file|) ==> Clean(file)
  {
    hide Entries, Clean, Scan, ReadEntries, SegmentBytes, Torn, AllWellFormed;
    var es, t :| Laid(file, es, t);
    LaidFacts(file, es, t);
    assert Torn([]) by { NothingTorn(); }
    var whole := SegmentBytes(es);
    assert whole + [] == whole;
    assert Laid(whole, es, []);
    LaidFacts(whole, es, []);
    assert |whole| == |file| ==> whole == file;
  }

  lemma CleanFacts(file: seq<Byte>)
    requires Clean(file)
    ensures Storable(file) && Scan(file) == Ok(|file|) && ReadEntries(file) == Ok(Entries(file))
    ensures AllWellFormed(Entries(file))
  {
    hide Entries, Scan, ReadEntries, SegmentBytes, Torn, AllWellFormed;
    LaidFacts(file, Entries(file), []);
  }

  lemma NothingTorn()
    ensures Torn([])
  {
  }

  lemma AppendFacts(file: seq<Byte>, u: UnknownMessage)
    requires Clean(file) && WellFormed(u)
    ensures Clean(file + EntryBytes(u)) && Entries(file + EntryBytes(u)) == Entries(file) + [u]
  {
    hide Entries, EntryBytes, WellFormed, Torn;
    var es := Entries(file);
    SegmentBytesAppend(es, u);
    assert SegmentBytes(es) + [] == SegmentBytes(es);
    assert SegmentBytes(es + [u]) + [] == SegmentBytes(es + [u]);
    assert Laid(file + EntryBytes(u), es + [u], []);
    LaidFacts(file + EntryBytes(u), es + [u], []);
  }

  lemma TearFacts(file: seq<Byte>, u: UnknownMessage, k: nat)
    requires Clean(file) && WellFormed(u) && k < |EntryBytes(u)|
    ensures Storable(file + EntryBytes(u)[..k]) && Entries(file + EntryBytes(u)[..k]) == Entries(file)
  {
    hide Entries, EntryBytes, WellFormed, SegmentBytes;
    var es, t := Entries(file), EntryBytes(u)[..k];
    assert Torn(t);
    assert file + t == SegmentBytes(es) + t;
    assert Laid(file + t, es, t);
    LaidFacts(file + t, es, t);
  }

  lemma EmptyFacts()
    ensures Clean([]) && Entries([]) == []
  {
    NothingTorn();
    assert Laid([], [], []);
    LaidFacts([], [], []);
  }

  // ---- the machine ----

  datatype Disk = Disk(segments: map<nat, seq<Byte>>, done: set<nat>)

  /** How far ReplayQuarantine has come; todo are the discovered segments that
      are still to be visited. */
  datatype Replay =
    | Idle
    | Between(todo: seq<nat>)
    | Reading(todo: seq<nat>, segment: nat, entries: seq<UnknownMessage>, next: nat)
    | Delivering(todo: seq<nat>, segment: nat, entries: seq<UnknownMessage>, next: nat, snapshot: Snapshot, sent: nat)

  datatype Process = Down | Up(sequence: nat, size: nat, replay: Replay)

  /** A completed delivery: its writes are out[at..at + |writes|]. */
  datatype Delivery = Delivery(message: UnknownMessage, snapshot: Snapshot, at: nat)

  /** rotation is the option of the latest start; limits are the rotation sizes
      under which the segments were created; top is the highest segment ever
      created; out are the records the data writer accepted; accepted are the
      messages for which WriteUnknownMessage returned success. */
  datatype State = State(
    rotation: nat, limits: map<nat, nat>, disk: Disk, top: nat, process: Process,
    out: seq<DataWrite>, accepted: multiset<UnknownMessage>, delivered: seq<Delivery>)

  datatype Action =
    | Repair(target: nat)
    | Open(number: nat, size: nat)
    | Accept(message: UnknownMessage)
    | Rotate(incoming: UnknownMessage)
    | Tear(message: UnknownMessage, kept: nat)
    | Begin(found: seq<nat>)
    | Skip
    | Enter
    | Carry(snapshot: Snapshot)
    | Pick(snapshot: Snapshot)
    | Send
    | Finish
    | Mark
    | End
    | Crash

  function Initial(): (s: State)
  {
    State(0, map[], Disk(map[], {}), 0, Down, [], multiset{}, [])
  }

  predicate Visible(disk: Disk, v: nat)
  {
    v in disk.segments && 1 <= v <= MAX_SEQUENCE
  }

  /** What discovery plus one gives: one behind the largest visible segment. */
  ghost predicate IsNextSequence(disk: Disk, v: nat)
  {
    && (forall w: nat :: Visible(disk, w) ==> w < v)
    && v >= 1 && (v == 1 || Visible(disk, v - 1))
  }

  ghost predicate SortedVisible(disk: Disk, found: seq<nat>)
  {
    && (forall i, j :: 0 <= i < j < |found| ==> found[i] < found[j])
    && (forall v: nat :: v in found <==> Visible(disk, v))
  }

  /** The message the writer is about to append: any message of an unknown
      device while the servers run, the current entry during replay. */
  predicate Incoming(p: Process, u: UnknownMessage)
  {
    && p.Up? && WellFormed(u)
    && (|| p.replay.Idle?
        || (p.replay.Reading? && p.replay.next < |p.replay.entries| && u == p.replay.entries[p.replay.next]))
  }

  predicate MustRotate(s: State, u: UnknownMessage)
    requires s.process.Up? && WellFormed(u)
  {
    s.process.size > 0 && s.process.size + |EntryBytes(u)| > s.rotation
  }

  ghost predicate Enabled(s: State, a: Action)
  {
    var p := s.process;
    match a
    case Repair(v) => p.Down? && Visible(s.disk, v) && Scan(s.disk.segments[v]).Ok?
    case Open(v, _) =>
      && p.Down? && IsNextSequence(s.disk, v)
      && forall w: nat :: Visible(s.disk, w) ==> Scan(s.disk.segments[w]) == Ok(|s.disk.segments[w]|)
    case Accept(u) => p.Up? && p.replay.Idle? && Incoming(p, u) && !MustRotate(s, u) && p.sequence in s.disk.segments
    case Rotate(u) => Incoming(p, u) && MustRotate(s, u)
    case Tear(u, k) => Incoming(p, u) && !MustRotate(s, u) && k < |EntryBytes(u)| && p.sequence in s.disk.segments
    case Begin(found) => p.Up? && p.replay.Idle? && SortedVisible(s.disk, found)
    case Skip =>
      && p.Up? && p.replay.Between? && p.replay.todo != []
      && (p.replay.todo[0] >= p.sequence || p.replay.todo[0] in s.disk.done)
    case Enter =>
      && p.Up? && p.replay.Between? && p.replay.todo != []
      && p.replay.todo[0] < p.sequence && p.replay.todo[0] !in s.disk.done
      && p.replay.todo[0] in s.disk.segments && ReadEntries(s.disk.segments[p.replay.todo[0]]).Ok?
    case Carry(snapshot) =>
      && p.Up? && p.replay.Reading? && p.replay.next < |p.replay.entries|
      && var u := p.replay.entries[p.replay.next];
         !Known(snapshot, u) && WellFormed(u) && !MustRotate(s, u) && p.sequence in s.disk.segments
    case Pick(snapshot) =>
      && p.Up? && p.replay.Reading? && p.replay.next < |p.replay.entries|
      && Known(snapshot, p.replay.entries[p.replay.next])
    case Send =>
      && p.Up? && p.replay.Delivering? && p.replay.next < |p.replay.entries|
      && p.replay.sent < |MessageWrites(p.replay.snapshot, p.replay.entries[p.replay.next])|
    case Finish =>
      && p.Up? && p.replay.Delivering? && p.replay.next < |p.replay.entries|
      && p.replay.sent == |MessageWrites(p.replay.snapshot, p.replay.entries[p.replay.next])| <= |s.out|
    case Mark => p.Up? && p.replay.Reading? && p.replay.next == |p.replay.entries|
    case End => p.Up? && p.replay == Between([])
    case Crash => p.Up?
  }

  /** A segment opened for appending is created unless a file is there. */
  function Opened(disk: Disk, v: nat): (d: Disk)
  {
    if v in disk.segments then disk else disk.(segments := disk.segments[v := []])
  }

  function Appended(disk: Disk, v: nat, bytes: seq<Byte>): (d: Disk)
    requires v in disk.segments
  {
    disk.(segments := disk.segments[v := disk.segments[v] + bytes])
  }

  function Larger(a: nat, b: nat): (c: nat)
  {
    if a < b then b else a
  }

  /** The replay at the next entry of its segment. */
  function Advanced(r: Replay): (t: Replay)
    requires r.Reading? || r.Delivering?
  {
    Reading(r.todo, r.segment, r.entries, r.next + 1)
  }

  ghost function Apply(s: State, a: Action): (t: State)
    requires Enabled(s, a)
  {
    var p := s.process;
    match a
    case Repair(v) =>
      var file := s.disk.segments[v];
      s.(disk := s.disk.(segments := s.disk.segments[v := file[..Scan(file).value]]))
    case Open(v, size) =>
      s.(rotation := size, limits := s.limits[v := size], disk := Opened(s.disk, v), top := Larger(s.top, v),
         process := Up(v, 0, Idle))
    case Accept(u) =>
      s.(disk := Appended(s.disk, p.sequence, EntryBytes(u)),
         process := p.(size := p.size + |EntryBytes(u)|),
         accepted := s.accepted + multiset{u})
    case Rotate(_) =>
      s.(limits := s.limits[p.sequence + 1 := s.rotation], disk := Opened(s.disk, p.sequence + 1),
         top := Larger(s.top, p.sequence + 1),
         process := p.(sequence := p.sequence + 1, size := 0))
    case Tear(u, k) => s.(disk := Appended(s.disk, p.sequence, EntryBytes(u)[..k]), process := Down)
    case Begin(found) => s.(process := p.(replay := Between(found)))
    case Skip => s.(process := p.(replay := Between(p.replay.todo[1..])))
    case Enter =>
      var v := p.replay.todo[0];
      s.(process := p.(replay := Reading(p.replay.todo[1..], v, ReadEntries(s.disk.segments[v]).value, 0)))
    case Carry(_) =>
      var u := p.replay.entries[p.replay.next];
      s.(disk := Appended(s.disk, p.sequence, EntryBytes(u)),
         process := p.(size := p.size + |EntryBytes(u)|, replay := Advanced(p.replay)))
    case Pick(snapshot) =>
      s.(process := p.(replay := Delivering(p.replay.todo, p.replay.segment, p.replay.entries, p.replay.next,
                                            snapshot, 0)))
    case Send =>
      s.(out := s.out + [MessageWrites(p.replay.snapshot, p.replay.entries[p.replay.next])[p.replay.sent]],
         process := p.(replay := Delivering(p.replay.todo, p.replay.segment, p.replay.entries, p.replay.next,
                                            p.replay.snapshot, p.replay.sent + 1)))
    case Finish =>
      var delivery := Delivery(p.replay.entries[p.replay.next], p.replay.snapshot, |s.out| - p.replay.sent);
      s.(delivered := s.delivered + [delivery],
         process := p.(replay := Advanced(p.replay)))
    case Mark => s.(disk := s.disk.(done := s.disk.done + {p.replay.segment}),
                    process := p.(replay := Between(p.replay.todo)))
    case End => s.(process := p.(replay := Idle))
    case Crash => s.(process := Down)
  }

  /** The state after a list of actions, if each is enabled in its turn. */
  ghost function Exec(s: State, actions: seq<Action>): (r: Result<State>)
    decreases |actions|
  {
    if actions == [] then Ok(s)
    else if !Enabled(s, actions[0]) then Err(NotEnabled)
    else Exec(Apply(s, actions[0]), actions[1..])
  }

  lemma {:induction false} ExecConcat(s: State, first: seq<Action>, second: seq<Action>)
    requires Exec(s, first).Ok?
    ensures Exec(s, first + second) == Exec(Exec(s, first).value, second)
    decreases |first|
  {
    hide Enabled, Apply;
    if first == [] {
      assert first + second == second;
    } else {
      ExecConcat(Apply(s, first[0]), first[1..], second);
      assert (first + second)[1..] == first[1..] + second;
    }
  }

  lemma ExecOne(s: State, actions: seq<Action>, a: Action)
    requires Exec(s, actions).Ok? && Enabled(Exec(s, actions).value, a)
    ensures Exec(s, actions + [a]) == Ok(Apply(Exec(s, actions).value, a))
  {
    hide Enabled, Apply;
    ExecConcat(s, actions, [a]);
    assert Exec(Apply(Exec(s, actions).value, a), [a][1..]) == Ok(Apply(Exec(s, actions).value, a));
  }

  /** A run seen from its last step. */
  lemma {:induction false} ExecFront(s: State, actions: seq<Action>)
    requires actions != [] && Exec(s, actions).Ok?
    ensures var front, a := actions[..|actions| - 1], actions[|actions| - 1];
            && Exec(s, front).Ok? && Enabled(Exec(s, front).value, a)
            && Exec(s, actions) == Ok(Apply(Exec(s, front).value, a))
    decreases |actions|
  {
    hide Enabled, Apply;
    var front := actions[..|actions| - 1];
    if |actions| > 1 {
      var rest := actions[1..];
      ExecFront(Apply(s, actions[0]), rest);
      assert rest[..|rest| - 1] == front[1..] && rest[|rest| - 1] == actions[|actions| - 1];
    } else {
      assert front == [] && actions[1..] == [];
    }
  }
}
