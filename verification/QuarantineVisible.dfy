/** What every history keeps, however far the sequence numbers run: the segments
    that discovery can see stay readable, and no message is made up. */
module QuarantineVisible {
  import opened Words
  import opened Results
  import opened Protocol
  import opened QuarantineCodec
  import opened Routing
  import opened QuarantineLog
  import opened SegmentNames

  predicate InSegment(p: Process)
  {
    p.Up? && (p.replay.Reading? || p.replay.Delivering?)
  }

  /** A replay visits visible segments and holds whole messages. */
  ghost predicate ReplaySound(disk: Disk, r: Replay)
  {
    && (!r.Idle? ==> forall v :: v in r.todo ==> Visible(disk, v))
    && (r.Reading? || r.Delivering? ==>
          Visible(disk, r.segment) && AllWellFormed(r.entries) && r.next <= |r.entries|)
    && (r.Delivering? ==> r.next < |r.entries|)
  }

  /** Every visible segment can be repaired, and needs no repair while the writer
      is open. */
  ghost predicate VisibleInv(s: State)
  {
    && (forall v: nat :: Visible(s.disk, v) ==> Storable(s.disk.segments[v]))
    && (s.process.Up? ==>
          && s.process.sequence in s.disk.segments && s.process.sequence >= 1
          && (forall v: nat :: Visible(s.disk, v) ==> Clean(s.disk.segments[v]))
          && ReplaySound(s.disk, s.process.replay))
  }

  lemma VisibleStep(s: State, a: Action)
    requires VisibleInv(s) && Enabled(s, a)
    ensures VisibleInv(Apply(s, a))
  {
    hide VisibleInv, Scan, ReadEntries, WellFormed, EntryBytes, MessageWrites, Known, IsNextSequence, MustRotate,
         ReplaySound, SortedVisible;
    if a.Repair? {
      RepairVisible(s, a);
    } else if a.Open? || a.Rotate? {
      OpenVisible(s, a);
    } else if a.Accept? {
      AppendVisible(s, Apply(s, a), a.message);
    } else if a.Carry? {
      AppendVisible(s, Apply(s, a), s.process.replay.entries[s.process.replay.next]);
    } else if a.Tear? {
      TearVisible(s, a);
    } else {
      ControlVisible(s, a);
    }
  }

  lemma RepairVisible(s: State, a: Action)
    requires VisibleInv(s) && Enabled(s, a) && a.Repair?
    ensures VisibleInv(Apply(s, a))
  {
    hide Scan, ReadEntries, Storable, Clean, Entries, ReplaySound;
    RepairFacts(s.disk.segments[a.target]);
    CleanFacts(Apply(s, a).disk.segments[a.target]);
  }

  lemma OpenVisible(s: State, a: Action)
    requires VisibleInv(s) && Enabled(s, a) && (a.Open? || a.Rotate?)
    ensures VisibleInv(Apply(s, a))
  {
    hide Scan, ReadEntries, WellFormed, EntryBytes, Storable, Clean, Entries;
    EmptyFacts();
    CleanFacts([]);
    if a.Open? {
      forall w: nat | Visible(s.disk, w)
        ensures Clean(s.disk.segments[w])
      {
        RepairFacts(s.disk.segments[w]);
      }
    }
  }

  lemma AppendVisible(s: State, t: State, u: UnknownMessage)
    requires VisibleInv(s) && s.process.Up? && WellFormed(u) && s.process.sequence in s.disk.segments
    requires t.disk == Appended(s.disk, s.process.sequence, EntryBytes(u))
    requires t.process.Up? && t.process.sequence == s.process.sequence
    requires t.process.replay == s.process.replay
             || (s.process.replay.Reading? && s.process.replay.next < |s.process.replay.entries|
                 && t.process.replay == Advanced(s.process.replay))
    ensures VisibleInv(t)
  {
    hide WellFormed, EntryBytes, Storable, Clean, Entries, ReplaySound;
    if Visible(s.disk, s.process.sequence) {
      AppendFacts(s.disk.segments[s.process.sequence], u);
      CleanFacts(t.disk.segments[s.process.sequence]);
    }
    SoundAfter(s.disk, t.disk, s.process.replay, t.process.replay);
  }

  lemma SoundAfter(before: Disk, now: Disk, r: Replay, t: Replay)
    requires ReplaySound(before, r) && before.segments.Keys <= now.segments.Keys
    requires t == r || (r.Reading? && r.next < |r.entries| && t == Advanced(r))
    ensures ReplaySound(now, t)
  {
    hide AllWellFormed;
  }

  lemma TearVisible(s: State, a: Action)
    requires VisibleInv(s) && Enabled(s, a) && a.Tear?
    ensures VisibleInv(Apply(s, a))
  {
    hide Scan, ReadEntries, WellFormed, EntryBytes, Storable, Clean, Entries, MustRotate;
    if Visible(s.disk, s.process.sequence) {
      TearFacts(s.disk.segments[s.process.sequence], a.message, a.kept);
    }
  }

  lemma ControlVisible(s: State, a: Action)
    requires VisibleInv(s) && Enabled(s, a)
    requires a.Begin? || a.Skip? || a.Enter? || a.Pick? || a.Send? || a.Finish? || a.Mark? || a.End? || a.Crash?
    ensures VisibleInv(Apply(s, a))
  {
    hide Scan, ReadEntries, WellFormed, EntryBytes, Storable, Clean, Entries, MessageWrites, Known, AllWellFormed;
    assert Apply(s, a).disk.segments == s.disk.segments;
    if a.Enter? {
      CleanFacts(s.disk.segments[s.process.replay.todo[0]]);
    }
  }

  lemma {:induction false} VisibleRun(s: State, actions: seq<Action>)
    requires VisibleInv(s) && Exec(s, actions).Ok?
    ensures VisibleInv(Exec(s, actions).value)
    decreases |actions|
  {
    hide VisibleInv, Enabled, Apply;
    if actions != [] {
      VisibleStep(s, actions[0]);
      VisibleRun(Apply(s, actions[0]), actions[1..]);
    }
  }

  lemma InitialVisible()
    ensures VisibleInv(Initial())
  {
  }

  /** Startup never refuses a directory the server itself produced: every
      visible segment scans, whatever crash came before. */
  lemma StartupNeverRefuses(actions: seq<Action>, v: nat)
    requires Exec(Initial(), actions).Ok?
    ensures var s := Exec(Initial(), actions).value;
            s.process.Down? && Visible(s.disk, v) ==> Enabled(s, Repair(v))
  {
    hide Exec, Scan, Storable;
    InitialVisible();
    VisibleRun(Initial(), actions);
    var s := Exec(Initial(), actions).value;
    if Visible(s.disk, v) {
      RepairFacts(s.disk.segments[v]);
    }
  }

  // ---- where messages come from ----

  ghost predicate AllIn(us: seq<UnknownMessage>, m: multiset<UnknownMessage>)
  {
    forall u :: u in us ==> u in m
  }

  /** Whatever is stored, being replayed or delivered was accepted before. */
  ghost predicate OriginInv(s: State)
  {
    && (forall v: nat :: Visible(s.disk, v) ==> AllIn(Entries(s.disk.segments[v]), s.accepted))
    && (InSegment(s.process) ==> AllIn(s.process.replay.entries, s.accepted))
    && (forall i :: 0 <= i < |s.delivered| ==> s.delivered[i].message in s.accepted)
  }

  lemma OriginStep(s: State, a: Action)
    requires VisibleInv(s) && OriginInv(s) && Enabled(s, a)
    ensures OriginInv(Apply(s, a))
  {
    hide VisibleInv, OriginInv, Scan, ReadEntries, WellFormed, EntryBytes, MessageWrites, Known, IsNextSequence,
         MustRotate, SortedVisible;
    if a.Repair? {
      RepairOrigin(s, a);
    } else if a.Open? || a.Rotate? {
      OpenOrigin(s, a);
    } else if a.Accept? {
      AppendOrigin(s, Apply(s, a), a.message);
    } else if a.Carry? {
      CarryOrigin(s, a);
    } else if a.Tear? {
      TearOrigin(s, a);
    } else {
      ControlOrigin(s, a);
    }
  }

  lemma RepairOrigin(s: State, a: Action)
    requires VisibleInv(s) && OriginInv(s) && Enabled(s, a) && a.Repair?
    ensures OriginInv(Apply(s, a))
  {
    hide Scan, ReadEntries, Storable, Clean, Entries, ReplaySound, AllIn;
    RepairFacts(s.disk.segments[a.target]);
  }

  lemma OpenOrigin(s: State, a: Action)
    requires OriginInv(s) && Enabled(s, a) && (a.Open? || a.Rotate?)
    ensures OriginInv(Apply(s, a))
  {
    hide Scan, ReadEntries, WellFormed, EntryBytes, Entries;
    EmptyFacts();
  }

  lemma AppendOrigin(s: State, t: State, u: UnknownMessage)
    requires VisibleInv(s) && OriginInv(s) && s.process.Up? && WellFormed(u) && s.process.sequence in s.disk.segments
    requires t.disk == Appended(s.disk, s.process.sequence, EntryBytes(u)) && t.delivered == s.delivered
    requires s.accepted <= t.accepted && u in t.accepted
    requires InSegment(t.process) ==> InSegment(s.process) && t.process.replay.entries == s.process.replay.entries
    ensures OriginInv(t)
  {
    hide WellFormed, EntryBytes, Storable, Clean, Entries, ReplaySound;
    if Visible(s.disk, s.process.sequence) {
      AppendFacts(s.disk.segments[s.process.sequence], u);
    }
  }

  lemma CarryOrigin(s: State, a: Action)
    requires VisibleInv(s) && OriginInv(s) && Enabled(s, a) && a.Carry?
    ensures OriginInv(Apply(s, a))
  {
    hide VisibleInv, WellFormed, EntryBytes, Entries, Known, MustRotate;
    AppendOrigin(s, Apply(s, a), s.process.replay.entries[s.process.replay.next]);
  }

  lemma TearOrigin(s: State, a: Action)
    requires VisibleInv(s) && OriginInv(s) && Enabled(s, a) && a.Tear?
    ensures OriginInv(Apply(s, a))
  {
    hide Scan, ReadEntries, WellFormed, EntryBytes, Storable, Clean, Entries, MustRotate, ReplaySound, AllIn;
    if Visible(s.disk, s.process.sequence) {
      TearFacts(s.disk.segments[s.process.sequence], a.message, a.kept);
    }
  }

  lemma ControlOrigin(s: State, a: Action)
    requires VisibleInv(s) && OriginInv(s) && Enabled(s, a)
    requires a.Begin? || a.Skip? || a.Enter? || a.Pick? || a.Send? || a.Finish? || a.Mark? || a.End? || a.Crash?
    ensures OriginInv(Apply(s, a))
  {
    hide Scan, ReadEntries, WellFormed, EntryBytes, Storable, Clean, Entries, MessageWrites, Known, AllWellFormed;
    var t := Apply(s, a);
    assert t.disk.segments == s.disk.segments && t.accepted == s.accepted;
    if a.Enter? {
      CleanFacts(s.disk.segments[s.process.replay.todo[0]]);
    } else if a.Finish? {
      assert s.process.replay.entries[s.process.replay.next] in s.process.replay.entries;
    }
  }

  lemma {:induction false} OriginRun(s: State, actions: seq<Action>)
    requires VisibleInv(s) && OriginInv(s) && Exec(s, actions).Ok?
    ensures OriginInv(Exec(s, actions).value)
    decreases |actions|
  {
    hide VisibleInv, OriginInv, Enabled, Apply;
    if actions != [] {
      VisibleStep(s, actions[0]);
      OriginStep(s, actions[0]);
      OriginRun(Apply(s, actions[0]), actions[1..]);
    }
  }

  /** The log invents nothing: over every history each message that startup finds
      in a segment, that a replay holds or that was delivered was accepted. */
  lemma NothingInvented(actions: seq<Action>)
    requires Exec(Initial(), actions).Ok?
    ensures OriginInv(Exec(Initial(), actions).value)
  {
    hide Exec, VisibleInv;
    InitialVisible();
    assert OriginInv(Initial());
    OriginRun(Initial(), actions);
  }
}
