/** The quarantine writer and the startup replay as the code runs them, each
    file-system or data-writer effect being one step of the quarantine machine
    (sensor-server/quarantine.go). */
module QuarantineService {
  import opened Words
  import opened Results
  import opened Protocol
  import opened QuarantineCodec
  import opened Routing
  import opened PendingSum
  import opened QuarantineLog
  import opened QuarantineVisible
  import opened QuarantineHistory
  import opened QuarantineReplay
  import opened SegmentNames

  class QuarantineWriter {
    const rotation: nat
    var disk: Disk
    var sequence: nat
    var size: nat
    var closed: bool

    // The machine state the fields stand for, and how it was reached.
    ghost const origin: State
    ghost var run: seq<Action>
    ghost var state: State

    ghost predicate Valid()
      reads this
    {
      && Inv(origin) && Exec(origin, run) == Ok(state)
      && state.rotation == rotation && state.disk == disk
      && state.process.Up? && state.process.sequence == sequence && state.process.size == size
    }

    /** The state of a valid writer satisfies every invariant of the log. */
    lemma Invariant()
      requires Valid()
      ensures Inv(state) && 1 <= sequence && sequence in disk.segments
    {
      hide Exec, Core, Clean, Storable, ReplaySound;
      InvRun(origin, run);
    }

    /** Records one enabled machine step. */
    ghost method Log(a: Action)
      requires Inv(origin) && Exec(origin, run) == Ok(state) && Enabled(state, a)
      modifies this`run, this`state
      ensures run == old(run) + [a] && state == Apply(old(state), a)
      ensures Exec(origin, run) == Ok(state)
    {
      hide Inv, Exec, Enabled, Apply;
      ExecOne(origin, run, a);
      run := run + [a];
      state := Apply(state, a);
    }

    /** Takes over a directory in which the startup repair has made every
        visible segment clean, and opens the next segment in it. */
    constructor (ghost origin: State, ghost run: seq<Action>, rotation: nat, disk: Disk, sequence: nat)
      requires Inv(origin) && Exec(origin, run).Ok?
      requires Exec(origin, run).value.disk == disk && Enabled(Exec(origin, run).value, Open(sequence, rotation))
      ensures Valid() && this.origin == origin && this.run == run + [Open(sequence, rotation)]
              && this.rotation == rotation
      ensures this.sequence == sequence && size == 0 && !closed && state.process.replay.Idle?
      ensures state == Apply(Exec(origin, run).value, Open(sequence, rotation))
    {
      this.rotation, this.sequence, this.size, this.closed := rotation, sequence, 0, false;
      this.disk := Opened(disk, sequence);
      this.origin := origin;
      this.run := run + [Open(sequence, rotation)];
      this.state := Apply(Exec(origin, run).value, Open(sequence, rotation));
      new;
      ExecOne(origin, run, Open(sequence, rotation));
    }

    /** As long as the names last, the segment that a rotation opens is new. */
    method Rotate(ghost incoming: UnknownMessage)
      requires Valid() && WellFormed(incoming) && Incoming(state.process, incoming) && MustRotate(state, incoming)
      modifies this
      ensures Valid() && closed == old(closed)
      ensures run == old(run) + [Action.Rotate(incoming)] && Rotated(old(state), state)
      ensures sequence == old(sequence) + 1 && size == 0 && disk == Opened(old(disk), sequence)
      ensures old(state).top <= MAX_SEQUENCE ==>
                sequence !in old(disk).segments && Pending(state) == old(Pending(state))
    {
      hide Inv, Exec, WellFormed, EntryBytes, Enabled, Apply, Pending;
      Invariant();
      RotateFacts(state, incoming);
      Log(Action.Rotate(incoming));
      sequence := sequence + 1;
      size := 0;
      disk := Opened(disk, sequence);
    }

    /** The step an append stands for: a message accepted from the network, or
        an entry carried forward by replay. */
    ghost function AppendStep(u: UnknownMessage, carried: Option<Snapshot>): (a: Action)
    {
      match carried case None => Accept(u) case Some(snapshot) => Carry(snapshot)
    }

    ghost predicate MayAppend(u: UnknownMessage, carried: Option<Snapshot>)
      reads this
    {
      && state.process.Up?
      && match carried
         case None => state.process.replay.Idle?
         case Some(snapshot) =>
           var r := state.process.replay;
           r.Reading? && r.next < |r.entries| && u == r.entries[r.next] && !Known(snapshot, u)
    }

    ghost function WriteSteps(s: State, u: UnknownMessage, carried: Option<Snapshot>): (steps: seq<Action>)
      requires s.process.Up? && WellFormed(u)
    {
      if MustRotate(s, u) then [Action.Rotate(u), AppendStep(u, carried)] else [AppendStep(u, carried)]
    }

    /** What an append leaves alone, and where it leaves the replay. */
    ghost predicate Appends(s: State, t: State, u: UnknownMessage, carried: Option<Snapshot>)
    {
      && s.process.Up? && t.process.Up? && t.out == s.out && t.delivered == s.delivered
      && t.disk.done == s.disk.done && t.disk.segments.Keys >= s.disk.segments.Keys
      && t.accepted == (if carried.None? then s.accepted + multiset{u} else s.accepted)
      && var r := s.process.replay;
         if carried.None? then t.process.replay == r
         else r.Reading? && t.process.replay == Advanced(r)
    }

    /** Success means that the encoded message was appended, after a rotation
        if it would have exceeded the rotation size of a segment that is not
        empty; as long as the names last, the messages readable in unmarked
        segments grow by exactly this one. A failure changes nothing. */
    method WriteUnknownMessage(u: UnknownMessage, ghost carried: Option<Snapshot>) returns (r: Result<()>)
      requires Valid() && (Encodable(u) ==> WellFormed(u)) && MayAppend(u, carried)
      modifies this
      ensures Valid() && closed == old(closed)
      ensures r.Ok? <==> Encodable(u) && !closed
      ensures r.Ok? ==>
                var full := old(size) > 0 && old(size) + |EntryBytes(u)| > rotation;
                && sequence == old(sequence) + (if full then 1 else 0)
                && size == |EntryBytes(u)| + (if full then 0 else old(size))
                && sequence in Opened(old(disk), sequence).segments
                && disk == Appended(Opened(old(disk), sequence), sequence, EntryBytes(u))
                && run != [] && run[|run| - 1] == match carried case None => Accept(u) case Some(snapshot) =>
                   Carry(snapshot)
      ensures r.Ok? ==> run == old(run) + WriteSteps(old(state), u, carried) && Appends(old(state), state, u, carried)
      ensures r.Ok? && state.top <= MAX_SEQUENCE ==> Pending(state) == old(Pending(state)) + multiset{u}
      ensures r.Err? ==> state == old(state) && run == old(run)
    {
      hide Inv, Exec, WellFormed, EntryBytes, Pending, Known;
      var encoded := EncodeQuarantineEntry(u);
      if encoded.Err? {
        return Err(encoded.error);
      }
      if closed {
        return Err(Closed);
      }
      assert WellFormed(u) && encoded.value == EntryBytes(u);
      Invariant();
      if size > 0 && size + |encoded.value| > rotation {
        Rotate(u);
      }
      AppendEncoded(u, encoded.value, carried);
      r := Ok(());
    }

    method AppendEncoded(u: UnknownMessage, encoded: seq<Byte>, ghost carried: Option<Snapshot>)
      requires Valid() && WellFormed(u) && encoded == EntryBytes(u) && MayAppend(u, carried) && !MustRotate(state, u)
      modifies this
      ensures Valid() && closed == old(closed) && run == old(run) + [AppendStep(u, carried)]
      ensures Appends(old(state), state, u, carried) && state.top == old(state).top
      ensures sequence == old(sequence) && size == old(size) + |EntryBytes(u)|
      ensures sequence in old(disk).segments && disk == Appended(old(disk), sequence, EntryBytes(u))
      ensures state.top <= MAX_SEQUENCE ==> Pending(state) == old(Pending(state)) + multiset{u}
    {
      hide Inv, Exec, WellFormed, EntryBytes, Enabled, Apply, Pending;
      Invariant();
      ghost var step := AppendStep(u, carried);
      AppendEffect(state, u, step);
      Log(step);
      disk := Appended(disk, sequence, encoded);
      size := size + |encoded|;
    }

    method Close()
      requires Valid()
      modifies this`closed
      ensures Valid() && closed
    {
      hide Inv, Exec;
      closed := true;
    }
  }

  predicate Rotated(s: State, t: State)
  {
    && s.process.Up? && t.process == s.process.(sequence := s.process.sequence + 1, size := 0)
    && t.rotation == s.rotation && t.out == s.out && t.delivered == s.delivered && t.accepted == s.accepted
    && t.disk.done == s.disk.done && t.disk.segments.Keys >= s.disk.segments.Keys && s.top <= t.top
  }

  lemma RotateFacts(s: State, u: UnknownMessage)
    requires Inv(s) && s.process.Up? && WellFormed(u) && Incoming(s.process, u) && MustRotate(s, u)
    ensures Enabled(s, Action.Rotate(u))
    ensures var t := Apply(s, Action.Rotate(u));
            && Rotated(s, t) && t.disk == Opened(s.disk, s.process.sequence + 1)
            && (s.top <= MAX_SEQUENCE ==> Pending(t) == Pending(s) && s.process.sequence + 1 !in s.disk.segments)
  {
    hide WellFormed, EntryBytes, VisibleInv, SizeInv, AccountInv, DeliveryInv, SendingInv, ReplayInv, Pending, Known,
         Scan, ReadEntries, IsNextSequence, SortedVisible, MessageWrites, Storable, Clean, Entries;
    if s.top <= MAX_SEQUENCE {
      RotatePending(s, Action.Rotate(u));
      FreshSegments(s, Action.Rotate(u));
    }
  }

  lemma AppendEffect(s: State, u: UnknownMessage, a: Action)
    requires Inv(s) && s.process.Up? && WellFormed(u) && !MustRotate(s, u)
    requires (a == Accept(u) && s.process.replay.Idle?) ||
             (a.Carry? && s.process.replay.Reading? && s.process.replay.next < |s.process.replay.entries|
              && u == s.process.replay.entries[s.process.replay.next] && !Known(a.snapshot, u))
    ensures Enabled(s, a) && s.process.sequence in s.disk.segments
    ensures var t, r := Apply(s, a), s.process.replay;
            && t.disk == Appended(s.disk, s.process.sequence, EntryBytes(u)) && t.top == s.top
            && t.process == Up(s.process.sequence, s.process.size + |EntryBytes(u)|,
                               if a.Accept? then r else Advanced(r))
            && t.rotation == s.rotation && t.out == s.out && t.delivered == s.delivered
            && t.accepted == (if a.Accept? then s.accepted + multiset{u} else s.accepted)
            && (s.top <= MAX_SEQUENCE ==> Pending(t) == Pending(s) + multiset{u})
  {
    hide WellFormed, EntryBytes, SizeInv, AccountInv, DeliveryInv, SendingInv, ReplayInv, Pending, Known, Scan,
         ReadEntries, IsNextSequence, SortedVisible, MessageWrites, Storable, Clean, Entries, ReplaySound;
    if s.top <= MAX_SEQUENCE {
      CarryPending(s, u, Apply(s, a));
    }
  }

  // ---- startup ----

  /** A file in a buffer that may be longer: what lies behind it is arbitrary. */
  method LoadFile(file: seq<Byte>, slack: seq<Byte>) returns (data: array<Byte>)
    ensures fresh(data) && data.Length == |file| + |slack| && data[..|file|] == file && data[|file|..] == slack
  {
    var all := file + slack;
    data := new Byte[|all|](i requires 0 <= i < |all| => all[i]);
    assert data[..] == all;
    assert data[..|file|] == all[..|file|] && data[|file|..] == all[|file|..];
  }

  /** Loads and scans one segment file. */
  method RepairedLength(file: seq<Byte>) returns (r: Result<nat>)
    requires Storable(file)
    ensures r == Scan(file)
  {
    hide Storable, Scan;
    var slack: seq<Byte> := *;
    var data := LoadFile(file, slack);
    AnyBuffer(file, slack);
    r := ScanQuarantineEntries(data, |file|);
  }

  lemma RepairEffect(s: State, v: nat)
    requires Inv(s) && s.process.Down? && Visible(s.disk, v)
    ensures Enabled(s, Repair(v)) && Storable(s.disk.segments[v]) && Scan(s.disk.segments[v]).Ok?
    ensures var t, file := Apply(s, Repair(v)), s.disk.segments[v][..Scan(s.disk.segments[v]).value];
            && t.disk == s.disk.(segments := s.disk.segments[v := file]) && t.process == s.process && t.top == s.top
            && Scan(file) == Ok(|file|) && SameAccounts(s, t)
            && (s.top <= MAX_SEQUENCE ==> Pending(t) == Pending(s))
  {
    hide WellFormed, EntryBytes, SizeInv, AccountInv, DeliveryInv, SendingInv, ReplayInv, WriterInv, Known, Scan,
         ReadEntries, IsNextSequence, SortedVisible, MessageWrites, Storable, Clean, Entries, Sum, ReplaySound;
    RepairFacts(s.disk.segments[v]);
    CleanFacts(s.disk.segments[v][..Scan(s.disk.segments[v]).value]);
    if s.top <= MAX_SEQUENCE {
      PendGrow(s.disk.segments, s.disk.done, Apply(s, Repair(v)).disk.segments, s.disk.done, v, s.top, multiset{});
    }
  }

  predicate SameAccounts(s: State, t: State)
  {
    t.accepted == s.accepted && t.delivered == s.delivered && t.out == s.out
  }

  lemma OpenEffect(s: State, v: nat, rotation: nat)
    requires Inv(s) && Enabled(s, Open(v, rotation))
    ensures var t := Apply(s, Open(v, rotation));
            && SameAccounts(s, t)
            && (s.top <= MAX_SEQUENCE ==> v !in s.disk.segments && Pending(t) == Pending(s))
  {
    hide WellFormed, EntryBytes, VisibleInv, SizeInv, AccountInv, DeliveryInv, SendingInv, ReplayInv, Known, Scan,
         ReadEntries, SortedVisible, MessageWrites, Storable, Clean, Entries, Sum, PendMap;
    if s.top <= MAX_SEQUENCE {
      FreshSegments(s, Open(v, rotation));
      PendFresh(s.disk.segments, s.disk.done, s.top);
    }
  }

  /** What startup finds on disk is what it goes on with, and the run of the new
      writer continues the history. As long as the names last, the segment it
      opens is new and the pending messages stay the same. */
  method OpenQuarantineWriter(ghost origin: State, ghost history: seq<Action>, rotation: nat, directory: Disk,
                              listing: seq<DirEntry>)
    returns (r: Result<QuarantineWriter>)
    requires Inv(origin) && Exec(origin, history).Ok?
    requires var s := Exec(origin, history).value; s.process.Down? && s.disk == directory
    requires Lists(QUARANTINE_SEGMENTS, listing, directory.segments)
    ensures r.Err? <==> rotation < 34
    ensures r.Ok? ==>
              var w, s := r.value, Exec(origin, history).value;
              && fresh(w) && w.Valid() && w.origin == origin && w.size == 0 && !w.closed && w.state.process.replay.Idle?
              && w.rotation == rotation && history <= w.run && SameAccounts(s, w.state)
              && (forall v: nat :: v in directory.segments && 1 <= v <= MAX_SEQUENCE ==> v < w.sequence)
              && (w.sequence == 1 || w.sequence - 1 in directory.segments)
              && (s.top <= MAX_SEQUENCE ==> w.sequence !in directory.segments && Pending(w.state) == Pending(s))
  {
    hide Inv, Exec, Enabled, Apply, Pending, Lists, Scan, Storable;
    if rotation < ENTRY_MINIMUM {
      return Err(OutOfRange);
    }
    var found := DiscoverSegments(QUARANTINE_SEGMENTS, listing, directory.segments);
    var disk := directory;
    ghost var run, s := history, Exec(origin, history).value;
    ghost var start := s;
    InvRun(origin, history);
    for i := 0 to |found|
      invariant Inv(s) && Exec(origin, run) == Ok(s) && s.process.Down? && s.disk == disk && history <= run
      invariant disk.segments.Keys == directory.segments.Keys && s.top == start.top && SameAccounts(start, s)
      invariant start.top <= MAX_SEQUENCE ==> Pending(s) == Pending(start)
      invariant forall j :: 0 <= j < i ==>
                  found[j] in disk.segments && Scan(disk.segments[found[j]]) == Ok(|disk.segments[found[j]]|)
    {
      var v := found[i];
      assert v in found;
      RepairEffect(s, v);
      var valid := RepairedLength(disk.segments[v]);
      if valid.value != |disk.segments[v]| {
        InvStep(s, Repair(v));
        ExecOne(origin, run, Repair(v));
        run, s := run + [Repair(v)], Apply(s, Repair(v));
        disk := disk.(segments := disk.segments[v := disk.segments[v][..valid.value]]);
      }
    }
    var sequence := if |found| > 0 then found[|found| - 1] + 1 else 1;
    assert Enabled(s, Open(sequence, rotation)) by {
      OpenEnabled(s, found, sequence, rotation);
    }
    OpenEffect(s, sequence, rotation);
    var writer := new QuarantineWriter(origin, run, rotation, disk, sequence);
    r := Ok(writer);
  }

  lemma OpenEnabled(s: State, found: seq<nat>, sequence: nat, rotation: nat)
    requires s.process.Down? && Increasing(found) && (forall v: nat :: v in found <==> Visible(s.disk, v))
    requires forall j :: 0 <= j < |found| ==>
               found[j] in s.disk.segments && Scan(s.disk.segments[found[j]]) == Ok(|s.disk.segments[found[j]]|)
    requires sequence == if |found| > 0 then found[|found| - 1] + 1 else 1
    ensures Enabled(s, Open(sequence, rotation))
  {
    hide Scan;
    forall w: nat | Visible(s.disk, w)
      ensures w < sequence && Scan(s.disk.segments[w]) == Ok(|s.disk.segments[w]|)
    {
      assert w in found;
    }
    if |found| > 0 {
      assert found[|found| - 1] in found;
    }
  }

  // ---- replay ----

  datatype ReplayCounters = ReplayCounters(
    segmentsCompleted: nat, messagesReplayed: nat, messagesCarried: nat, recordsWritten: nat)

  /** The configuration registry, whose snapshot may be replaced between any two
      reads. */
  class ConfigRegistry {
    var current: Snapshot
    ghost var read: seq<Snapshot>

    constructor (snapshot: Snapshot)
      ensures current == snapshot && read == []
    {
      current, read := snapshot, [];
    }

    method Reload(candidate: Snapshot)
      modifies this`current
      ensures current == candidate
    {
      current := candidate;
    }

    /** Reads the snapshot, which another goroutine may have replaced before. */
    method Snapshot() returns (snapshot: Snapshot)
      modifies this
      ensures snapshot == current && read == old(read) + [snapshot]
    {
      var reloaded: bool := *;
      if reloaded {
        var candidate: Snapshot := *;
        Reload(candidate);
      }
      snapshot := current;
      read := read + [snapshot];
    }
  }

  /** Every snapshot read is the given one. */
  ghost predicate Only(used: seq<Snapshot>, snapshot: Snapshot)
  {
    forall i :: 0 <= i < |used| ==> used[i] == snapshot
  }

  ghost predicate Within(used: seq<Snapshot>, wide: seq<Snapshot>)
  {
    forall x :: x in used ==> x in wide
  }

  /** The steps of a replay that uses the given snapshots. */
  ghost predicate ReplaysUnder(a: Action, used: seq<Snapshot>)
  {
    || a.Skip? || a.Enter? || a.Rotate? || a.Send? || a.Finish? || a.Mark?
    || (a.Carry? && a.snapshot in used) || (a.Pick? && a.snapshot in used)
  }

  /** A run grown by steps of one replay. */
  ghost predicate Extends(before: seq<Action>, now: seq<Action>, used: seq<Snapshot>)
  {
    && |before| <= |now| && now[..|before|] == before
    && forall i :: |before| <= i < |now| ==> ReplaysUnder(now[i], used)
  }

  /** The number of entries carried forward in a run. */
  ghost function Carries(run: seq<Action>): (n: nat)
  {
    if run == [] then 0 else Carries(run[..|run| - 1]) + if run[|run| - 1].Carry? then 1 else 0
  }

  lemma CarriesOne(run: seq<Action>, a: Action)
    ensures Carries(run + [a]) == Carries(run) + if a.Carry? then 1 else 0
  {
    assert (run + [a])[..|run|] == run;
  }

  /** The accepted data writes and the machine agree. */
  ghost predicate Linked(writer: QuarantineWriter, sink: DataSink)
    reads writer, sink
  {
    writer.Valid() && sink.accepted == writer.state.out
  }

  lemma ExtendsMore(before: seq<Action>, now: seq<Action>, later: seq<Action>,
                    used: seq<Snapshot>, more: seq<Snapshot>, wide: seq<Snapshot>)
    requires Extends(before, now, used) && Extends(now, later, more) && Within(used, wide) && Within(more, wide)
    ensures Extends(before, later, wide)
  {
    assert later[..|before|] == later[..|now|][..|before|];
    forall i | |before| <= i < |later|
      ensures ReplaysUnder(later[i], wide)
    {
      if i < |now| {
        assert later[i] == later[..|now|][i] == now[i];
        assert ReplaysUnder(now[i], used);
      } else {
        assert ReplaysUnder(later[i], more);
      }
    }
  }

  lemma ExtendsBy(now: seq<Action>, steps: seq<Action>, used: seq<Snapshot>)
    requires forall i :: 0 <= i < |steps| ==> ReplaysUnder(steps[i], used)
    ensures Extends(now, now + steps, used)
  {
    hide ReplaysUnder;
  }

  /** Carries one entry of an unknown device into the open segment. */
  method CarryEntry(writer: QuarantineWriter, sink: DataSink, snapshot: Snapshot, entry: UnknownMessage)
    returns (ok: bool)
    requires Linked(writer, sink) && writer.state.process.replay.Reading?
    requires var r := writer.state.process.replay; r.next < |r.entries| && entry == r.entries[r.next]
    requires !Known(snapshot, entry) && WellFormed(entry)
    modifies writer
    ensures Linked(writer, sink) && Extends(old(writer.run), writer.run, [snapshot])
    ensures writer.state.delivered == old(writer.state).delivered && writer.disk.done == old(writer.disk).done
    ensures writer.disk.segments.Keys >= old(writer.disk).segments.Keys
    ensures Carries(writer.run) == old(Carries(writer.run)) + if ok then 1 else 0
    ensures ok ==>
              var r := old(writer.state).process.replay;
              writer.state.process.replay == Advanced(r)
  {
    hide Inv, Exec, Known, WellFormed, Pending, MustRotate, Extends, Carries;
    var written := writer.WriteUnknownMessage(entry, Some(snapshot));
    ok := written.Ok?;
    if ok {
      ExtendsBy(old(writer.run), writer.WriteSteps(old(writer.state), entry, Some(snapshot)), [snapshot]);
      CarrySteps(writer, old(writer.run), old(writer.state), entry, snapshot);
    } else {
      assert writer.run == old(writer.run) + [];
      ExtendsBy(old(writer.run), [], [snapshot]);
    }
  }

  lemma CarrySteps(writer: QuarantineWriter, run: seq<Action>, s: State, u: UnknownMessage, snapshot: Snapshot)
    requires s.process.Up? && WellFormed(u)
    ensures Carries(run + writer.WriteSteps(s, u, Some(snapshot))) == Carries(run) + 1
  {
    hide MustRotate, Carries, WellFormed;
    var rotate, carry := Action.Rotate(u), Carry(snapshot);
    CarriesOne(run, rotate);
    CarriesOne(run, carry);
    CarriesOne(run + [rotate], carry);
    assert run + [rotate, carry] == run + [rotate] + [carry];
  }

  lemma DeliveryEffect(s: State, a: Action)
    requires s.process.Up? && InSegment(s.process) && s.process.replay.next < |s.process.replay.entries|
    requires var r := s.process.replay;
             || (a.Pick? && r.Reading? && Known(a.snapshot, r.entries[r.next]))
             || (a.Send? && r.Delivering? && r.sent < |MessageWrites(r.snapshot, r.entries[r.next])|)
             || (a.Finish? && r.Delivering? && r.sent == |MessageWrites(r.snapshot, r.entries[r.next])| <= |s.out|)
    ensures Enabled(s, a)
    ensures var t, r := Apply(s, a), s.process.replay;
            && t.disk == s.disk && t.rotation == s.rotation && t.process.Up? && t.top == s.top
            && t.process.sequence == s.process.sequence && t.process.size == s.process.size
            && t.out == (if a.Send? then s.out + [MessageWrites(r.snapshot, r.entries[r.next])[r.sent]] else s.out)
            && |t.delivered| == |s.delivered| + (if a.Finish? then 1 else 0)
            && (a.Finish? || t.delivered == s.delivered)
            && t.process.replay ==
               if a.Pick? then Delivering(r.todo, r.segment, r.entries, r.next, a.snapshot, 0)
               else if a.Send? then Delivering(r.todo, r.segment, r.entries, r.next, r.snapshot, r.sent + 1)
               else Advanced(r)
  {
    hide Known, MessageWrites, Scan, ReadEntries, WellFormed, EntryBytes, IsNextSequence, SortedVisible;
  }

  lemma KnownDevice(snapshot: Snapshot, u: UnknownMessage)
    requires Known(snapshot, u)
    ensures u.message.header.mac in snapshot.devices
    ensures MessageWrites(snapshot, u) ==
            RecordWrites(snapshot, snapshot.devices[u.message.header.mac], u.timestamp, u.message.sensors)
  {
  }

  /** A delivery step extends the replay and carries nothing. */
  lemma DeliveryLogged(before: seq<Action>, now: seq<Action>, a: Action, snapshot: Snapshot)
    requires Extends(before, now, [snapshot]) || before == now
    requires a == Pick(snapshot) || a.Send? || a.Finish?
    ensures Extends(before, now + [a], [snapshot]) && Carries(now + [a]) == Carries(now)
  {
    hide Carries, Extends;
    ExtendsBy(now, [a], [snapshot]);
    if before != now {
      ExtendsMore(before, now, now + [a], [snapshot], [snapshot], [snapshot]);
    }
    CarriesOne(now, a);
  }

  /** Delivers one entry of a known device record by record, stopping at the
      first record that the data writer refuses. */
  method DeliverEntry(writer: QuarantineWriter, sink: DataSink, snapshot: Snapshot, entry: UnknownMessage)
    returns (ok: bool, count: nat)
    requires Linked(writer, sink) && writer.state.process.replay.Reading?
    requires var r := writer.state.process.replay; r.next < |r.entries| && entry == r.entries[r.next]
    requires Known(snapshot, entry)
    modifies writer`run, writer`state, sink
    ensures Linked(writer, sink) && Extends(old(writer.run), writer.run, [snapshot])
    ensures |sink.accepted| == |old(sink.accepted)| + count && Carries(writer.run) == old(Carries(writer.run))
    ensures !ok ==> writer.state.delivered == old(writer.state).delivered
    ensures ok ==>
              var r := old(writer.state).process.replay;
              && writer.state.process.replay == Advanced(r)
              && |writer.state.delivered| == |old(writer.state).delivered| + 1
  {
    hide Inv, Exec, Enabled, Apply, Carries, Extends, ReplaysUnder, Known;
    ghost var r := writer.state.process.replay;
    ghost var writes := MessageWrites(snapshot, entry);
    DeliveryEffect(writer.state, Pick(snapshot));
    DeliveryLogged(old(writer.run), writer.run, Pick(snapshot), snapshot);
    writer.Log(Pick(snapshot));
    count := 0;
    assert entry.message.header.mac in snapshot.devices by { KnownDevice(snapshot, entry); }
    var device := snapshot.devices[entry.message.header.mac];
    var records := entry.message.sensors;
    for i := 0 to |records|
      invariant Linked(writer, sink) && Extends(old(writer.run), writer.run, [snapshot])
      invariant writer.state.delivered == old(writer.state).delivered && Carries(writer.run) == old(Carries(writer.run))
      invariant |sink.accepted| == |old(sink.accepted)| + count
      invariant |sink.accepted| >= |RecordWrites(snapshot, device, entry.timestamp, records[..i])|
      invariant writer.state.process.replay ==
                Delivering(r.todo, r.segment, r.entries, r.next, snapshot,
                           |RecordWrites(snapshot, device, entry.timestamp, records[..i])|)
    {
      var record := records[i];
      SplitRecords(snapshot, device, entry.timestamp, records, i);
      if record.sensorType !in snapshot.sensors {
        continue;
      }
      var sensor := snapshot.sensors[record.sensorType];
      var w := DataWrite(device.floor, device.room, sensor.sensorType, entry.timestamp, record.value);
      DeliveryEffect(writer.state, Send);
      var accepted := sink.WriteSensorData(w);
      if !accepted {
        return false, count;
      }
      DeliveryLogged(old(writer.run), writer.run, Send, snapshot);
      writer.Log(Send);
      count := count + 1;
    }
    assert records[..|records|] == records;
    DeliveryEffect(writer.state, Finish);
    DeliveryLogged(old(writer.run), writer.run, Finish, snapshot);
    writer.Log(Finish);
    ok := true;
  }

  /** The i-th record adds its write, if configured, at the position reached. */
  lemma SplitRecords(snapshot: Snapshot, device: Device, timestamp: Int64, records: seq<SensorRecord>, i: nat)
    requires i < |records|
    ensures var sofar := RecordWrites(snapshot, device, timestamp, records[..i]);
            var all := RecordWrites(snapshot, device, timestamp, records);
            var next := RecordWrites(snapshot, device, timestamp, records[..i + 1]);
            if records[i].sensorType in snapshot.sensors
            then |sofar| < |all| && next == sofar + [all[|sofar|]]
                 && all[|sofar|] ==
                    DataWrite(device.floor, device.room, snapshot.sensors[records[i].sensorType].sensorType,
                              timestamp, records[i].value)
            else next == sofar
  {
    var r := records[i];
    assert records[..i + 1] == records[..i] + [r];
    assert records == records[..i + 1] + records[i + 1..];
    RecordWritesConcat(snapshot, device, timestamp, records[..i], [r]);
    RecordWritesConcat(snapshot, device, timestamp, records[..i + 1], records[i + 1..]);
  }

  method LoadEntries(file: seq<Byte>) returns (r: Result<seq<UnknownMessage>>)
    requires Clean(file)
    ensures r == Ok(Entries(file))
  {
    hide Clean, Entries, ReadEntries;
    var slack: seq<Byte> := *;
    var data := LoadFile(file, slack);
    AnyBuffer(file, slack);
    r := ReadQuarantineEntries(data, |file|);
  }

  /** What the control steps of replay do to the machine. */
  lemma ControlEffect(s: State, a: Action)
    requires Inv(s) && s.process.Up?
    requires var r := s.process.replay;
             || (a.Begin? && r.Idle? && SortedVisible(s.disk, a.found))
             || (a.Skip? && r.Between? && r.todo != [] && (r.todo[0] >= s.process.sequence || r.todo[0] in s.disk.done))
             || (a.Enter? && r.Between? && r.todo != [] && r.todo[0] < s.process.sequence && r.todo[0] !in s.disk.done)
             || (a.Mark? && r.Reading? && r.next == |r.entries|)
             || (a.End? && r == Between([]))
    ensures Enabled(s, a)
    ensures var t, r := Apply(s, a), s.process.replay;
            && t.rotation == s.rotation && t.process.Up? && t.top == s.top
            && t.out == s.out && t.delivered == s.delivered
            && t.process.sequence == s.process.sequence && t.process.size == s.process.size
            && t.disk == (if a.Mark? then s.disk.(done := s.disk.done + {r.segment}) else s.disk)
            && (a.Begin? ==> t.process.replay == Between(a.found))
            && (a.Skip? ==> t.process.replay == Between(r.todo[1..]))
            && (a.Enter? ==>
                  && r.todo[0] in s.disk.segments
                  && var es := Entries(s.disk.segments[r.todo[0]]);
                  && Clean(s.disk.segments[r.todo[0]]) && AllWellFormed(es)
                  && t.process.replay == Reading(r.todo[1..], r.todo[0], es, 0))
            && (a.Mark? ==> t.process.replay == Between(r.todo))
            && (a.End? ==> t.process.replay == Idle)
  {
    hide Known, MessageWrites, Scan, ReadEntries, WellFormed, EntryBytes, IsNextSequence, SortedVisible, Entries,
         Clean, Storable, Core, AllWellFormed;
    if a.Enter? {
      assert s.process.replay.todo[0] in s.process.replay.todo;
      CleanFacts(s.disk.segments[s.process.replay.todo[0]]);
    }
  }

  /** The snapshots that this replay has read, its first read being number from. */
  ghost function Used(registry: ConfigRegistry, from: nat): (used: seq<Snapshot>)
    reads registry
  {
    if from <= |registry.read| then registry.read[from..] else []
  }

  lemma ReadOn(read: seq<Snapshot>, from: nat, snapshot: Snapshot)
    requires from <= |read|
    ensures Within(read[from..], (read + [snapshot])[from..]) && Within([snapshot], (read + [snapshot])[from..])
  {
    assert (read + [snapshot])[from..] == read[from..] + [snapshot];
  }

  /** One entry of a segment: carried if its device is unknown, else delivered. */
  method ReplayEntry(writer: QuarantineWriter, sink: DataSink, snapshot: Snapshot, entry: UnknownMessage,
                     counters: ReplayCounters)
    returns (ok: bool, after: ReplayCounters)
    requires Linked(writer, sink) && writer.state.process.replay.Reading? && WellFormed(entry)
    requires var r := writer.state.process.replay; r.next < |r.entries| && entry == r.entries[r.next]
    modifies writer, sink
    ensures Linked(writer, sink) && Extends(old(writer.run), writer.run, [snapshot])
    ensures writer.disk.done == old(writer.disk).done && after.segmentsCompleted == counters.segmentsCompleted
    ensures after.recordsWritten - counters.recordsWritten == |sink.accepted| - |old(sink.accepted)|
    ensures after.messagesCarried - counters.messagesCarried == Carries(writer.run) - old(Carries(writer.run))
    ensures after.messagesReplayed - counters.messagesReplayed
         == |writer.state.delivered| - |old(writer.state).delivered|
    ensures ok ==> writer.state.process.replay == Advanced(old(writer.state).process.replay)
  {
    hide Inv, Exec, Known, WellFormed, Extends, Carries;
    after := counters;
    KnownExactly(snapshot, entry);
    if entry.message.header.mac !in snapshot.devices {
      ok := CarryEntry(writer, sink, snapshot, entry);
      if ok {
        after := after.(messagesCarried := after.messagesCarried + 1);
      }
      return;
    }
    var count: nat;
    ok, count := DeliverEntry(writer, sink, snapshot, entry);
    after := after.(recordsWritten := after.recordsWritten + count);
    if ok {
      after := after.(messagesReplayed := after.messagesReplayed + 1);
    }
  }

  lemma KnownExactly(snapshot: Snapshot, u: UnknownMessage)
    ensures Known(snapshot, u) <==> u.message.header.mac in snapshot.devices
  {
  }

  /** Replays one segment: reads the registry for each entry, carries the unknown
      entries, delivers the known ones and marks the segment when all went well. */
  method ReplaySegment(writer: QuarantineWriter, sink: DataSink, registry: ConfigRegistry, segment: nat,
                       counters: ReplayCounters, ghost from: nat)
    returns (ok: bool, after: ReplayCounters)
    requires Linked(writer, sink) && writer.state.process.replay.Between? && from <= |registry.read|
    requires var r := writer.state.process.replay; r.todo != [] && r.todo[0] == segment
    requires segment < writer.sequence && segment !in writer.disk.done
    modifies writer, sink, registry
    ensures Linked(writer, sink) && old(registry.read) <= registry.read
    ensures Extends(old(writer.run), writer.run, Used(registry, from))
    ensures after.recordsWritten - counters.recordsWritten == |sink.accepted| - |old(sink.accepted)|
    ensures after.messagesReplayed - counters.messagesReplayed
         == |writer.state.delivered| - |old(writer.state).delivered|
    ensures after.messagesCarried - counters.messagesCarried == Carries(writer.run) - old(Carries(writer.run))
    ensures after.segmentsCompleted == counters.segmentsCompleted + if ok then 1 else 0
    ensures writer.disk.done == if ok then old(writer.disk).done + {segment} else old(writer.disk).done
    ensures ok ==> writer.state.process.replay == Between(old(writer.state).process.replay.todo[1..])
  {
    hide Inv, Exec, Enabled, Apply, Known, WellFormed, Pending, ReadEntries, Entries, AllWellFormed, Extends,
         ReplaysUnder, Clean, Carries, Within;
    after := counters;
    ghost var todo := writer.state.process.replay.todo;
    writer.Invariant();
    ControlEffect(writer.state, Enter);
    var loaded := LoadEntries(writer.disk.segments[segment]);
    var entries := loaded.value;
    writer.Log(Enter);
    ReplayControl(old(writer.run), Enter, Used(registry, from));
    for i := 0 to |entries|
      invariant Linked(writer, sink) && old(registry.read) <= registry.read
      invariant Extends(old(writer.run), writer.run, Used(registry, from))
      invariant writer.state.process.replay == Reading(todo[1..], segment, entries, i)
      invariant writer.disk.done == old(writer.disk).done && after.segmentsCompleted == counters.segmentsCompleted
      invariant after.recordsWritten - counters.recordsWritten == |sink.accepted| - |old(sink.accepted)|
      invariant after.messagesCarried - counters.messagesCarried == Carries(writer.run) - old(Carries(writer.run))
      invariant after.messagesReplayed - counters.messagesReplayed
             == |writer.state.delivered| - |old(writer.state).delivered|
    {
      var entry := entries[i];
      ghost var before, used, read := writer.run, Used(registry, from), registry.read;
      var snapshot := registry.Snapshot();
      ReadOn(read, from, snapshot);
      assert WellFormed(entry) by { EntryWellFormed(entries, i); }
      ok, after := ReplayEntry(writer, sink, snapshot, entry, after);
      ExtendsMore(old(writer.run), before, writer.run, used, [snapshot], Used(registry, from));
      if !ok {
        return;
      }
    }
    writer.Invariant();
    ControlEffect(writer.state, Mark);
    ReplayControlled(old(writer.run), writer.run, Mark, Used(registry, from));
    writer.Log(Mark);
    writer.disk := writer.disk.(done := writer.disk.done + {segment});
    after := after.(segmentsCompleted := after.segmentsCompleted + 1);
    ok := true;
  }

  lemma ReplayControl(now: seq<Action>, a: Action, used: seq<Snapshot>)
    requires a.Skip? || a.Enter? || a.Mark?
    ensures Extends(now, now + [a], used) && Carries(now + [a]) == Carries(now)
  {
    CarriesOne(now, a);
    ExtendsBy(now, [a], used);
  }

  lemma ReplayControlled(before: seq<Action>, now: seq<Action>, a: Action, used: seq<Snapshot>)
    requires Extends(before, now, used) && (a.Skip? || a.Enter? || a.Mark?)
    ensures Extends(before, now + [a], used) && Carries(now + [a]) == Carries(now)
  {
    hide Extends, Carries;
    ReplayControl(now, a, used);
    ExtendsMore(before, now, now + [a], used, used, used);
  }

  lemma EntryWellFormed(es: seq<UnknownMessage>, i: nat)
    requires AllWellFormed(es) && i < |es|
    ensures WellFormed(es[i])
  {
  }

  /** The run of a replay: begun over the discovered segments, then steps under
      the snapshots it read, and ended if it succeeded. */
  ghost predicate Replayed(before: seq<Action>, now: seq<Action>, found: seq<nat>, used: seq<Snapshot>, ok: bool)
  {
    if ok then now != [] && now[|now| - 1] == Action.End && Extends(before + [Begin(found)], now[..|now| - 1], used)
    else Extends(before + [Begin(found)], now, used)
  }

  /** The loop over the discovered segments. */
  method ReplaySegments(writer: QuarantineWriter, sink: DataSink, registry: ConfigRegistry, segments: seq<nat>,
                        ghost from: nat)
    returns (ok: bool, counters: ReplayCounters)
    requires Linked(writer, sink) && writer.state.process.replay == Between(segments) && from <= |registry.read|
    modifies writer, sink, registry
    ensures Linked(writer, sink) && old(registry.read) <= registry.read
    ensures Extends(old(writer.run), writer.run, Used(registry, from))
    ensures ok ==> writer.state.process.replay == Between([])
    ensures counters.recordsWritten == |sink.accepted| - |old(sink.accepted)|
    ensures counters.messagesReplayed == |writer.state.delivered| - |old(writer.state).delivered|
    ensures counters.messagesCarried == Carries(writer.run) - old(Carries(writer.run))
    ensures counters.segmentsCompleted == |writer.disk.done| - |old(writer.disk).done|
  {
    hide Inv, Exec, Enabled, Apply, Extends, ReplaysUnder, Carries, Within;
    ghost var start := writer.run;
    counters := ReplayCounters(0, 0, 0, 0);
    assert segments[0..] == segments && start + [] == start;
    ExtendsBy(start, [], Used(registry, from));
    for i := 0 to |segments|
      invariant Linked(writer, sink) && old(registry.read) <= registry.read
      invariant Extends(start, writer.run, Used(registry, from))
      invariant writer.state.process.replay == Between(segments[i..])
      invariant counters.recordsWritten == |sink.accepted| - |old(sink.accepted)|
      invariant counters.messagesReplayed == |writer.state.delivered| - |old(writer.state).delivered|
      invariant counters.messagesCarried == Carries(writer.run) - old(Carries(writer.run))
      invariant counters.segmentsCompleted == |writer.disk.done| - |old(writer.disk).done|
    {
      var segment := segments[i];
      assert segments[i..][0] == segment && segments[i..][1..] == segments[i + 1..];
      ghost var here, used, read := writer.run, Used(registry, from), registry.read;
      if segment >= writer.sequence || segment in writer.disk.done {
        writer.Invariant();
        ControlEffect(writer.state, Skip);
        ReplayControlled(start, here, Skip, used);
        writer.Log(Skip);
        continue;
      }
      ok, counters := ReplaySegment(writer, sink, registry, segment, counters, from);
      assert Within(used, Used(registry, from)) && Within(Used(registry, from), Used(registry, from)) by {
        ReadWider(read, registry.read, from);
      }
      ExtendsMore(start, here, writer.run, used, Used(registry, from), Used(registry, from));
      if !ok {
        return;
      }
    }
    assert segments[|segments|..] == [];
    ok := true;
  }

  lemma ReadWider(read: seq<Snapshot>, more: seq<Snapshot>, from: nat)
    requires read <= more && from <= |read|
    ensures Within(read[from..], more[from..]) && Within(more[from..], more[from..])
  {
    assert more[from..] == read[from..] + more[|read|..];
  }

  /** Replay of every unmarked segment below the open one, the open one being
      looked up afresh for each, and the registry for each entry. If it succeeds
      with a freshly opened writer and always reads the same snapshot, the
      pending messages are exactly the earlier ones that are still unknown, and
      the data writer has been given exactly the writes of the known ones, in
      segment and entry order. In any case every earlier message is still
      pending or has been delivered completely by this replay. All of this as
      long as the names last. */
  method ReplayQuarantine(writer: QuarantineWriter, sink: DataSink, registry: ConfigRegistry, listing: seq<DirEntry>,
                          ghost snapshot: Snapshot)
    returns (ok: bool, counters: ReplayCounters, ghost earlier: seq<UnknownMessage>, ghost found: seq<nat>)
    requires Linked(writer, sink) && writer.state.process.replay.Idle?
    requires Lists(QUARANTINE_SEGMENTS, listing, writer.disk.segments)
    modifies writer, sink, registry
    ensures Linked(writer, sink) && old(registry.read) <= registry.read
    ensures Replayed(old(writer.run), writer.run, found, Used(registry, |old(registry.read)|), ok)
    ensures SortedVisible(old(writer.disk), found) && earlier == OldSeq(old(writer.state), found)
    ensures writer.state.accepted == old(writer.state).accepted && old(writer.state).delivered <= writer.state.delivered
    ensures ok ==> writer.state.process.replay.Idle?
    ensures writer.state.top <= MAX_SEQUENCE ==>
              && multiset(earlier) == old(Pending(writer.state))
              && multiset(earlier) <=
                 Pending(writer.state) + Messages(writer.state.delivered[|old(writer.state).delivered|..])
    ensures ok && writer.state.top <= MAX_SEQUENCE && old(writer.size) == 0
            && Only(Used(registry, |old(registry.read)|), snapshot) ==>
              && Pending(writer.state) == multiset(UnknownOf(snapshot, earlier))
              && sink.accepted == old(sink.accepted) + AllWrites(snapshot, earlier)
    ensures counters.recordsWritten == |sink.accepted| - |old(sink.accepted)|
    ensures counters.messagesReplayed == |writer.state.delivered| - |old(writer.state).delivered|
    ensures counters.messagesCarried == Carries(writer.run) - old(Carries(writer.run))
    ensures counters.segmentsCompleted == |writer.disk.done| - |old(writer.disk).done|
  {
    hide Inv, Exec, Enabled, Apply, Known, Pending, Lists, OldSeq, UnknownOf, AllWrites, Extends, ReplaysUnder,
         Carries, Replayed, Messages, Only, Used;
    ghost var from := |registry.read|;
    var segments := DiscoverSegments(QUARANTINE_SEGMENTS, listing, writer.disk.segments);
    found := segments;
    writer.Invariant();
    ControlEffect(writer.state, Begin(segments));
    ghost var s, before := writer.state, writer.run;
    earlier := OldSeq(s, segments);
    writer.Log(Begin(segments));
    CarriesOne(before, Begin(segments));
    ghost var s0, start := writer.state, writer.run;
    ok, counters := ReplaySegments(writer, sink, registry, segments, from);
    ghost var done, last, used := writer.state, writer.run, Used(registry, from);
    if !ok {
      UnfinishedReplay(before, last, found, used);
    } else {
      writer.Invariant();
      ControlEffect(writer.state, Action.End);
      writer.Log(Action.End);
      CarriesOne(last, Action.End);
      EndedReplay(before, last, found, used);
    }
    ReplayKeeps(writer.origin, before, writer.run, found, used, ok, s, writer.state);
    if writer.state.top <= MAX_SEQUENCE {
      if ok && s.process.size == 0 && Only(used, snapshot) {
        FinishedReplay(writer.origin, before, start, last, used, snapshot, s, s0, done);
        SamePending(done, writer.state);
      }
    }
  }

  lemma UnfinishedReplay(before: seq<Action>, now: seq<Action>, found: seq<nat>, used: seq<Snapshot>)
    requires Extends(before + [Begin(found)], now, used)
    ensures Replayed(before, now, found, used, false)
  {
  }

  lemma EndedReplay(before: seq<Action>, last: seq<Action>, found: seq<nat>, used: seq<Snapshot>)
    requires Extends(before + [Begin(found)], last, used)
    ensures Replayed(before, last + [Action.End], found, used, true)
  {
    hide Extends;
    assert (last + [Action.End])[..|last|] == last;
  }

  /** The steps of a replay accept no message. */
  lemma ReplayedSteps(before: seq<Action>, now: seq<Action>, found: seq<nat>, used: seq<Snapshot>, ok: bool)
    returns (steps: seq<Action>)
    requires Replayed(before, now, found, used, ok)
    ensures now == before + steps && forall i :: 0 <= i < |steps| ==> !steps[i].Accept?
  {
    steps := now[|before|..];
    var begun := before + [Begin(found)];
    var body := if ok then now[..|now| - 1] else now;
    assert body[..|begun|] == begun && now[..|body|] == body;
    assert now[..|before|] == begun[..|before|] == before;
    forall i | 0 <= i < |steps|
      ensures !steps[i].Accept?
    {
      var k := |before| + i;
      assert steps[i] == now[k];
      if k == |before| {
        assert now[k] == body[..|begun|][k];
      } else if k < |body| {
        assert ReplaysUnder(body[k], used) && now[k] == body[k];
      }
    }
  }

  lemma {:induction false} AcceptsNothing(s: State, actions: seq<Action>)
    requires Exec(s, actions).Ok? && forall i :: 0 <= i < |actions| ==> !actions[i].Accept?
    ensures var t := Exec(s, actions).value; t.accepted == s.accepted && s.delivered <= t.delivered
    decreases |actions|
  {
    hide Enabled, Apply;
    if actions != [] {
      RebaseAccounts(s, actions[0]);
      AcceptsNothing(Apply(s, actions[0]), actions[1..]);
    }
  }

  /** Nothing that was pending before a replay is lost in it, finished or not. */
  lemma ReplayKeeps(origin: State, before: seq<Action>, now: seq<Action>, found: seq<nat>, used: seq<Snapshot>,
                    ok: bool,
                    s: State, t: State)
    requires Inv(origin) && Exec(origin, before) == Ok(s) && Exec(origin, now) == Ok(t) && !InSegment(s.process)
    requires Replayed(before, now, found, used, ok) && SortedVisible(s.disk, found)
    ensures t.accepted == s.accepted && s.delivered <= t.delivered
    ensures t.top <= MAX_SEQUENCE ==>
              && Pending(s) == multiset(OldSeq(s, found))
              && Pending(s) <= Pending(t) + Messages(t.delivered[|s.delivered|..])
  {
    hide Exec, Replayed, Pending, Messages, VisibleInv, Core, SortedVisible, OldSeq;
    var steps := ReplayedSteps(before, now, found, used, ok);
    ExecConcat(origin, before, steps);
    InvRun(origin, before);
    AcceptsNothing(s, steps);
    if t.top <= MAX_SEQUENCE {
      TopRun(s, steps);
      AtLeastOnceFrom(s, steps);
      CancelBelow(Pending(s), Pending(t) + Messages(t.delivered[|s.delivered|..]), s.accepted);
      assert DiskInv(s) by { CoreDisk(s); }
      PendingOfVisible(s, found);
    }
  }

  lemma CoreDisk(s: State)
    requires Core(s)
    ensures DiskInv(s)
  {
  }

  lemma CancelBelow(a: multiset<UnknownMessage>, b: multiset<UnknownMessage>, x: multiset<UnknownMessage>)
    requires a + x <= x + b
    ensures a <= b
  {
    forall u
      ensures a[u] <= b[u]
    {
      assert (a + x)[u] <= (x + b)[u];
    }
  }

  lemma SamePending(s: State, t: State)
    requires s.disk == t.disk && s.top == t.top
    ensures Pending(s) == Pending(t)
  {
  }

  lemma {:induction false} SameOld(s: State, t: State, vs: seq<nat>)
    requires s.disk == t.disk
    ensures OldSeq(s, vs) == OldSeq(t, vs)
  {
    hide Entries;
    if vs != [] {
      SameOld(s, t, vs[..|vs| - 1]);
    }
  }

  /** A finished replay inside a longer run. */
  lemma FinishedReplay(origin: State, before: seq<Action>, start: seq<Action>, run: seq<Action>, used: seq<Snapshot>,
                       snapshot: Snapshot, s: State, s0: State, done: State)
    requires Inv(origin) && Exec(origin, before) == Ok(s) && Exec(origin, start) == Ok(s0)
             && Exec(origin, run) == Ok(done)
    requires Extends(start, run, used) && Only(used, snapshot)
    requires s0.process.Up? && s0.process.size == 0 && s0.process.replay.Between?
    requires s0.disk == s.disk && s0.out == s.out && SortedVisible(s0.disk, s0.process.replay.todo)
    requires done.process.Up? && done.process.replay == Between([]) && done.top <= MAX_SEQUENCE
    ensures Pending(done) == multiset(UnknownOf(snapshot, OldSeq(s, s0.process.replay.todo)))
    ensures done.out == s.out + AllWrites(snapshot, OldSeq(s, s0.process.replay.todo))
  {
    hide VisibleInv, Core, Enabled, Apply, Exec, Replays, OldSeq, UnknownOf, AllWrites, Pending, SortedVisible;
    var steps := run[|start|..];
    assert run == start + steps;
    ExecConcat(origin, start, steps);
    InvRun(origin, start);
    TopRun(s0, steps);
    assert forall i :: 0 <= i < |steps| ==> Replays(steps[i], snapshot) by {
      OnlyReplays(start, run, used, snapshot);
    }
    assert Starts(s0);
    ReplayConserves(s0, snapshot, steps);
    SameOld(s, s0, s0.process.replay.todo);
  }

  /** A replay that reads one snapshot is a replay under it. */
  lemma OnlyReplays(start: seq<Action>, run: seq<Action>, used: seq<Snapshot>, snapshot: Snapshot)
    requires Extends(start, run, used) && Only(used, snapshot)
    ensures forall i :: 0 <= i < |run[|start|..]| ==> Replays(run[|start|..][i], snapshot)
  {
    forall i | 0 <= i < |run[|start|..]|
      ensures Replays(run[|start|..][i], snapshot)
    {
      assert ReplaysUnder(run[|start| + i], used);
    }
  }
}
