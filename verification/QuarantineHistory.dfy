/** At-least-once delivery over every history of the quarantine log: what each
    step keeps, and what therefore holds after any list of steps with crashes
    and restarts anywhere. */
module QuarantineHistory {
  import opened Words
  import opened Results
  import opened Protocol
  import opened QuarantineCodec
  import opened Routing
  import opened PendingSum
  import opened QuarantineLog
  import opened QuarantineVisible
  import opened SegmentNames

  /** What every segment outside `hidden` holds. */
  ghost function PendMap(files: map<nat, seq<Byte>>, hidden: set<nat>): (m: map<nat, multiset<UnknownMessage>>)
  {
    map v | v in files && v !in hidden :: multiset(Entries(files[v]))
  }

  /** The messages readable in unmarked segments. */
  ghost function Pending(s: State): (p: multiset<UnknownMessage>)
  {
    Sum(PendMap(s.disk.segments, s.disk.done), s.top)
  }

  /** While a segment is being replayed it no longer counts as a whole... */
  function Hidden(s: State): (h: set<nat>)
  {
    if InSegment(s.process) then s.disk.done + {s.process.replay.segment} else s.disk.done
  }

  /** ...only what is left of it does. */
  function Remaining(s: State): (m: multiset<UnknownMessage>)
  {
    if InSegment(s.process) && s.process.replay.next <= |s.process.replay.entries|
    then multiset(s.process.replay.entries[s.process.replay.next..])
    else multiset{}
  }

  function Messages(ds: seq<Delivery>): (ms: multiset<UnknownMessage>)
  {
    if ds == [] then multiset{} else Messages(ds[..|ds| - 1]) + multiset{ds[|ds| - 1].message}
  }

  lemma MessagesAppend(ds: seq<Delivery>, d: Delivery)
    ensures Messages(ds + [d]) == Messages(ds) + multiset{d.message}
  {
    assert (ds + [d])[..|ds|] == ds;
  }

  ghost predicate DiskInv(s: State)
  {
    && s.top <= MAX_SEQUENCE
    && (s.top > 0 ==> s.top in s.disk.segments)
    && (forall v: nat :: v in s.disk.segments ==> 1 <= v <= s.top && Storable(s.disk.segments[v]))
    && s.disk.done <= s.disk.segments.Keys
  }

  /** While the writer is open every file is clean and the open segment is the
      newest one and unmarked. */
  ghost predicate WriterInv(s: State)
  {
    s.process.Up? ==>
      && s.process.sequence == s.top > 0
      && s.top in s.disk.segments && s.top !in s.disk.done
      && s.process.size == |s.disk.segments[s.top]|
      && s.top in s.limits && s.limits[s.top] == s.rotation
      && forall v: nat :: v in s.disk.segments ==> Clean(s.disk.segments[v])
  }

  ghost predicate ReplayInv(s: State)
  {
    InSegment(s.process) ==>
      var r := s.process.replay;
      && r.segment in s.disk.segments && r.segment < s.process.sequence && r.segment !in s.disk.done
      && r.entries == Entries(s.disk.segments[r.segment])
      && r.next <= |r.entries|
      && (r.Delivering? ==> r.next < |r.entries|)
  }

  /** Every segment is within the rotation size under which it was created, or
      holds a single entry. */
  ghost predicate SizeInv(s: State)
  {
    forall v: nat :: v in s.disk.segments ==>
      v in s.limits && (|s.disk.segments[v]| <= s.limits[v] || |Entries(s.disk.segments[v])| <= 1)
  }

  /** No accepted message is lost. */
  ghost predicate AccountInv(s: State)
  {
    s.accepted <= Sum(PendMap(s.disk.segments, Hidden(s)), s.top) + Remaining(s) + Messages(s.delivered)
  }

  function End(d: Delivery): (n: nat)
  {
    d.at + |MessageWrites(d.snapshot, d.message)|
  }

  /** Deliveries occupy disjoint stretches of the accepted data writes, each
      holding all writes of its message, in order. */
  ghost predicate DeliveryInv(s: State)
  {
    && (forall i :: 0 <= i < |s.delivered| ==>
          && Known(s.delivered[i].snapshot, s.delivered[i].message)
          && End(s.delivered[i]) <= |s.out|
          && s.out[s.delivered[i].at..End(s.delivered[i])] ==
             MessageWrites(s.delivered[i].snapshot, s.delivered[i].message))
    && (forall i, j :: 0 <= i < j < |s.delivered| ==> End(s.delivered[i]) <= s.delivered[j].at)
  }

  ghost predicate SendingInv(s: State)
  {
    s.process.Up? && s.process.replay.Delivering? && s.process.replay.next < |s.process.replay.entries| ==>
      var r := s.process.replay;
      var writes := MessageWrites(r.snapshot, r.entries[r.next]);
      && Known(r.snapshot, r.entries[r.next])
      && r.sent <= |writes| && r.sent <= |s.out|
      && s.out[|s.out| - r.sent..] == writes[..r.sent]
      && forall i :: 0 <= i < |s.delivered| ==> End(s.delivered[i]) <= |s.out| - r.sent
  }

  ghost predicate Core(s: State)
  {
    DiskInv(s) && WriterInv(s) && ReplayInv(s) && SizeInv(s) && AccountInv(s) && DeliveryInv(s) && SendingInv(s)
  }

  /** Visible segments stay sound for ever; the accounts hold as long as every
      segment has a name that discovery recognises. */
  ghost predicate Inv(s: State)
  {
    VisibleInv(s) && (s.top <= MAX_SEQUENCE ==> Core(s))
  }

  /** Every segment that an open or a rotation creates is new, and it is the
      successor of the highest one ever used. */
  lemma FreshSegments(s: State, a: Action)
    requires DiskInv(s) && WriterInv(s) && Enabled(s, a) && (a.Open? || a.Rotate?)
    ensures s.top + 1 !in s.disk.segments
    ensures Apply(s, a).process.sequence == s.top + 1 == Apply(s, a).top
    ensures Apply(s, a).disk == s.disk.(segments := s.disk.segments[s.top + 1 := []])
  {
    hide Scan, ReadEntries, WellFormed, EntryBytes, Storable, Clean;
    if a.Open? && s.top > 0 {
      assert Visible(s.disk, s.top);
    }
  }

  /** What is kept about the files and the writer's place in them. */
  ghost predicate FilesInv(s: State)
  {
    DiskInv(s) && WriterInv(s) && ReplayInv(s) && SizeInv(s)
  }

  lemma DiskStep(s: State, a: Action)
    requires FilesInv(s) && Enabled(s, a) && Apply(s, a).top <= MAX_SEQUENCE
    ensures FilesInv(Apply(s, a))
  {
    hide FilesInv, Scan, ReadEntries, WellFormed, EntryBytes, Storable, Clean, Entries, MessageWrites, Known;
    if a.Repair? {
      RepairStep(s, a);
    } else if a.Open? || a.Rotate? {
      FreshStep(s, a);
    } else if a.Accept? {
      AppendedStep(s, Apply(s, a), a.message);
    } else if a.Carry? {
      AppendedStep(s, Apply(s, a), s.process.replay.entries[s.process.replay.next]);
    } else if a.Tear? {
      TornStep(s, a);
    } else {
      ControlStep(s, a);
    }
  }

  lemma RepairStep(s: State, a: Action)
    requires FilesInv(s) && Enabled(s, a) && a.Repair?
    ensures FilesInv(Apply(s, a))
  {
    hide Scan, ReadEntries, Storable, Clean, Entries;
    RepairFacts(s.disk.segments[a.target]);
    CleanFacts(Apply(s, a).disk.segments[a.target]);
  }

  lemma FreshStep(s: State, a: Action)
    requires FilesInv(s) && Enabled(s, a) && (a.Open? || a.Rotate?) && Apply(s, a).top <= MAX_SEQUENCE
    ensures FilesInv(Apply(s, a))
  {
    hide Scan, ReadEntries, WellFormed, EntryBytes, Storable, Clean, Entries;
    EmptyFacts();
    CleanFacts([]);
    FreshSegments(s, a);
    if a.Open? {
      forall w: nat | w in s.disk.segments
        ensures Clean(s.disk.segments[w])
      {
        assert Visible(s.disk, w);
        RepairFacts(s.disk.segments[w]);
      }
    }
  }

  lemma AppendedStep(s: State, t: State, u: UnknownMessage)
    requires FilesInv(s) && s.process.Up? && WellFormed(u) && !MustRotate(s, u) && s.process.sequence in s.disk.segments
    requires t.disk == Appended(s.disk, s.process.sequence, EntryBytes(u)) && t.top == s.top
             && t.rotation == s.rotation && t.limits == s.limits
    requires t.process.Up? && t.process.sequence == s.process.sequence
             && t.process.size == s.process.size + |EntryBytes(u)|
    requires t.process.replay == s.process.replay
             || (s.process.replay.Reading? && s.process.replay.next < |s.process.replay.entries|
                 && t.process.replay == Advanced(s.process.replay))
    ensures FilesInv(t)
  {
    hide WellFormed, EntryBytes, Storable, Clean, Entries;
    AppendStep(s, u);
  }

  lemma TornStep(s: State, a: Action)
    requires FilesInv(s) && Enabled(s, a) && a.Tear?
    ensures FilesInv(Apply(s, a))
  {
    hide Scan, ReadEntries, WellFormed, EntryBytes, Storable, Clean, Entries;
    TearFacts(s.disk.segments[s.top], a.message, a.kept);
    FitsWhole(s, a.message);
  }

  /** What is torn off an append still obeys the bound of the whole append. */
  lemma FitsWhole(s: State, u: UnknownMessage)
    requires s.process.Up? && s.process.sequence in s.disk.segments && WellFormed(u) && !MustRotate(s, u)
    requires s.process.size == |s.disk.segments[s.process.sequence]|
    ensures |s.disk.segments[s.process.sequence]| + |EntryBytes(u)| <= s.rotation
            || |Entries(s.disk.segments[s.process.sequence])| <= 1
  {
    hide WellFormed, EntryBytes, Entries;
    EmptyFacts();
    assert s.process.size == 0 ==> s.disk.segments[s.process.sequence] == [];
  }

  /** The steps that write no segment. */
  lemma ControlStep(s: State, a: Action)
    requires FilesInv(s) && Enabled(s, a)
    requires a.Begin? || a.Skip? || a.Enter? || a.Pick? || a.Send? || a.Finish? || a.Mark? || a.End? || a.Crash?
    ensures FilesInv(Apply(s, a))
  {
    hide Scan, ReadEntries, WellFormed, EntryBytes, Storable, Clean, Entries, MessageWrites, Known;
    assert Apply(s, a).disk.segments == s.disk.segments;
    if a.Enter? {
      CleanFacts(s.disk.segments[s.process.replay.todo[0]]);
    }
  }

  lemma AppendStep(s: State, u: UnknownMessage)
    requires s.process.Up? && s.process.sequence in s.disk.segments && WellFormed(u)
    requires Clean(s.disk.segments[s.process.sequence]) && s.process.size == |s.disk.segments[s.process.sequence]|
    requires !MustRotate(s, u)
    ensures var file := s.disk.segments[s.process.sequence] + EntryBytes(u);
            && Clean(file) && Storable(file)
            && Entries(file) == Entries(s.disk.segments[s.process.sequence]) + [u]
            && (|file| <= s.rotation || |Entries(file)| <= 1)
  {
    hide Scan, ReadEntries, WellFormed, EntryBytes, Storable, Clean, Entries;
    var file := s.disk.segments[s.process.sequence];
    AppendFacts(file, u);
    CleanFacts(file + EntryBytes(u));
    EmptyFacts();
    assert s.process.size == 0 ==> file == [];
  }

  // ---- conservation of accepted messages ----

  /** The pending sum after one segment has gained the messages in x. */
  lemma PendGrow(f: map<nat, seq<Byte>>, h: set<nat>, f': map<nat, seq<Byte>>, h': set<nat>, v: nat, n: nat,
                 x: multiset<UnknownMessage>)
    requires 1 <= v <= n
    requires forall w: nat :: w != v ==> (w in f && w !in h <==> w in f' && w !in h')
    requires forall w: nat :: w != v && w in f && w !in h ==> Entries(f[w]) == Entries(f'[w])
    requires Part(PendMap(f', h'), v) == Part(PendMap(f, h), v) + x
    ensures Sum(PendMap(f', h'), n) == Sum(PendMap(f, h), n) + x
  {
    hide Entries, Sum;
    SumGrow(PendMap(f, h), PendMap(f', h'), v, n, x);
  }

  lemma AccountStep(s: State, a: Action)
    requires DiskInv(s) && WriterInv(s) && ReplayInv(s) && AccountInv(s) && Enabled(s, a)
    ensures AccountInv(Apply(s, a))
  {
    hide DiskInv, WriterInv, ReplayInv, AccountInv, Scan, ReadEntries, WellFormed, EntryBytes, MessageWrites, Known;
    match a
    case Repair(_) => AccountRepair(s, a);
    case Open(_, _) => AccountFresh(s, a);
    case Rotate(_) => AccountFresh(s, a);
    case Accept(u) => AccountAccept(s, a);
    case Tear(u, k) => AccountTear(s, a);
    case Carry(_) => AccountCarry(s, a);
    case Enter => AccountEnter(s, a);
    case Finish => AccountFinish(s, a);
    case Crash => AccountCrash(s, a);
    case _ => AccountControl(s, a);
  }

  /** The steps that move no message. */
  lemma AccountControl(s: State, a: Action)
    requires AccountInv(s) && Enabled(s, a)
    requires a.Begin? || a.Skip? || a.Pick? || a.Send? || a.Mark? || a.End?
    ensures AccountInv(Apply(s, a))
  {
    hide AccountInv, Remaining, Hidden, Scan, ReadEntries, WellFormed, EntryBytes, MessageWrites, Known,
         IsNextSequence, SortedVisible, MustRotate, Incoming;
    var t := Apply(s, a);
    assert t.disk.segments == s.disk.segments && t.top == s.top && t.accepted == s.accepted
           && t.delivered == s.delivered;
    assert Hidden(t) == Hidden(s) && Remaining(t) == Remaining(s) by {
      SamePlace(s, a);
    }
    SameAccount(s, t);
  }

  lemma SamePlace(s: State, a: Action)
    requires Enabled(s, a) && (a.Begin? || a.Skip? || a.Pick? || a.Send? || a.Mark? || a.End?)
    ensures Hidden(Apply(s, a)) == Hidden(s) && Remaining(Apply(s, a)) == Remaining(s)
  {
    hide Scan, ReadEntries, WellFormed, EntryBytes, MessageWrites, Known, IsNextSequence, SortedVisible, MustRotate,
         Incoming;
    if a.Mark? {
      assert s.process.replay.entries[s.process.replay.next..] == [];
    }
  }

  lemma SameAccount(s: State, t: State)
    requires t.disk.segments == s.disk.segments && t.top == s.top && t.accepted == s.accepted
             && t.delivered == s.delivered
    requires Hidden(t) == Hidden(s) && Remaining(t) == Remaining(s)
    ensures AccountInv(s) ==> AccountInv(t)
  {
    hide Hidden, Remaining, Sum, PendMap, Messages;
  }

  lemma AccountCrash(s: State, a: Action)
    requires DiskInv(s) && ReplayInv(s) && AccountInv(s) && Enabled(s, a) && a.Crash?
    ensures AccountInv(Apply(s, a))
  {
    hide DiskInv, ReplayInv, Sum, Messages, PendMap;
    AccountLeave(s);
  }

  lemma AccountRepair(s: State, a: Action)
    requires DiskInv(s) && AccountInv(s) && Enabled(s, a) && a.Repair?
    ensures AccountInv(Apply(s, a))
  {
    hide Scan, ReadEntries, Storable, Clean, Entries, Sum, Messages;
    RepairFacts(s.disk.segments[a.target]);
    PendGrow(s.disk.segments, s.disk.done, Apply(s, a).disk.segments, s.disk.done, a.target, s.top, multiset{});
  }

  lemma AccountFresh(s: State, a: Action)
    requires DiskInv(s) && WriterInv(s) && ReplayInv(s) && AccountInv(s) && Enabled(s, a) && (a.Open? || a.Rotate?)
    ensures AccountInv(Apply(s, a))
  {
    hide Scan, ReadEntries, WellFormed, EntryBytes, Storable, Clean, Entries, Sum, PendMap, Messages;
    var t := Apply(s, a);
    FreshSegments(s, a);
    assert Hidden(t) == Hidden(s) && Remaining(t) == Remaining(s) && s.top + 1 !in Hidden(s);
    PendFresh(s.disk.segments, Hidden(s), s.top);
  }

  /** A new empty segment adds nothing to what is pending. */
  lemma PendFresh(f: map<nat, seq<Byte>>, hidden: set<nat>, top: nat)
    requires top + 1 !in f && top + 1 !in hidden
    ensures Sum(PendMap(f[top + 1 := []], hidden), top + 1) == Sum(PendMap(f, hidden), top)
  {
    hide Entries, Sum;
    EmptyFacts();
    SumExtend(PendMap(f, hidden), top);
    PendGrow(f, hidden, f[top + 1 := []], hidden, top + 1, top + 1, multiset{});
  }

  lemma AccountAccept(s: State, a: Action)
    requires DiskInv(s) && WriterInv(s) && AccountInv(s) && Enabled(s, a) && a.Accept?
    ensures AccountInv(Apply(s, a))
  {
    hide Scan, ReadEntries, WellFormed, EntryBytes, Storable, Clean, Entries, Sum, Messages;
    var t, u := Apply(s, a), a.message;
    AppendFacts(s.disk.segments[s.top], u);
    PendGrow(s.disk.segments, s.disk.done, t.disk.segments, s.disk.done, s.top, s.top, multiset{u});
    AddBoth(s.accepted, Sum(PendMap(s.disk.segments, s.disk.done), s.top), Messages(s.delivered), u);
  }

  lemma AddBoth(acc: multiset<UnknownMessage>, p: multiset<UnknownMessage>, d: multiset<UnknownMessage>,
                u: UnknownMessage)
    requires acc <= p + multiset{} + d
    ensures acc + multiset{u} <= (p + multiset{u}) + multiset{} + d
  {
    assert p + multiset{} + d == p + d;
    assert (p + multiset{u}) + multiset{} + d == (p + d) + multiset{u};
  }

  lemma AccountTear(s: State, a: Action)
    requires DiskInv(s) && WriterInv(s) && ReplayInv(s) && AccountInv(s) && Enabled(s, a) && a.Tear?
    ensures AccountInv(Apply(s, a))
  {
    hide Scan, ReadEntries, WellFormed, EntryBytes, Storable, Clean, Entries, Sum, Messages;
    TearFacts(s.disk.segments[s.top], a.message, a.kept);
    AccountLeave(s);
    PendGrow(s.disk.segments, s.disk.done, Apply(s, a).disk.segments, s.disk.done, s.top, s.top, multiset{});
  }

  lemma AccountCarry(s: State, a: Action)
    requires DiskInv(s) && WriterInv(s) && ReplayInv(s) && AccountInv(s) && Enabled(s, a) && a.Carry?
    ensures AccountInv(Apply(s, a))
  {
    hide Scan, ReadEntries, WellFormed, EntryBytes, Storable, Clean, Entries, Sum, Messages, Known;
    var t, r := Apply(s, a), s.process.replay;
    var u := r.entries[r.next];
    AppendFacts(s.disk.segments[s.top], u);
    PendGrow(s.disk.segments, Hidden(s), t.disk.segments, Hidden(t), s.top, s.top, multiset{u});
    MoveOne(r.entries, r.next, Sum(PendMap(s.disk.segments, Hidden(s)), s.top), Messages(s.delivered));
  }

  /** One message leaves the rest of a segment for the log or the deliveries. */
  lemma MoveOne(es: seq<UnknownMessage>, i: nat, p: multiset<UnknownMessage>, d: multiset<UnknownMessage>)
    requires i < |es|
    ensures p + multiset(es[i..]) + d == (p + multiset{es[i]}) + multiset(es[i + 1..]) + d
    ensures p + multiset(es[i..]) + d == p + multiset(es[i + 1..]) + (d + multiset{es[i]})
  {
    var one, later := multiset{es[i]}, multiset(es[i + 1..]);
    assert es[i..] == [es[i]] + es[i + 1..];
    assert multiset(es[i..]) == one + later;
  }

  lemma AccountEnter(s: State, a: Action)
    requires DiskInv(s) && WriterInv(s) && AccountInv(s) && Enabled(s, a) && a.Enter?
    ensures AccountInv(Apply(s, a))
  {
    hide Scan, ReadEntries, WellFormed, EntryBytes, Storable, Clean, Entries, Sum, Messages, PendMap, Known,
         MessageWrites, IsNextSequence, SortedVisible, MustRotate, Incoming;
    var t, v := Apply(s, a), s.process.replay.todo[0];
    var es := Entries(s.disk.segments[v]);
    CleanFacts(s.disk.segments[v]);
    assert Remaining(t) == multiset(es) by { assert es[0..] == es; }
    assert Hidden(t) == s.disk.done + {v};
    HideOne(s.disk.segments, s.disk.done, v, s.top);
  }

  lemma HideOne(f: map<nat, seq<Byte>>, hidden: set<nat>, v: nat, top: nat)
    requires 1 <= v <= top && v in f && v !in hidden
    ensures Sum(PendMap(f, hidden), top) == Sum(PendMap(f, hidden + {v}), top) + multiset(Entries(f[v]))
  {
    hide Entries, Sum;
    PendGrow(f, hidden + {v}, f, hidden, v, top, multiset(Entries(f[v])));
  }

  lemma AccountFinish(s: State, a: Action)
    requires ReplayInv(s) && AccountInv(s) && Enabled(s, a) && a.Finish?
    ensures AccountInv(Apply(s, a))
  {
    hide Entries, Sum, PendMap, MessageWrites, Messages;
    var t, r := Apply(s, a), s.process.replay;
    MoveOne(r.entries, r.next, Sum(PendMap(s.disk.segments, Hidden(s)), s.top), Messages(s.delivered));
    MessagesAppend(s.delivered, t.delivered[|s.delivered|]);
  }

  /** Leaving a segment half replayed makes all of it pending again. */
  lemma AccountLeave(s: State)
    requires DiskInv(s) && ReplayInv(s) && AccountInv(s)
    ensures s.accepted <= Pending(s) + Messages(s.delivered)
  {
    hide Scan, ReadEntries, Storable, Clean, Entries, Sum, Messages;
    if InSegment(s.process) {
      var r := s.process.replay;
      PendGrow(s.disk.segments, Hidden(s), s.disk.segments, s.disk.done, r.segment, s.top, multiset(r.entries));
      assert r.entries == r.entries[..r.next] + r.entries[r.next..];
      assert multiset(r.entries[r.next..]) <= multiset(r.entries);
    }
  }

  // ---- deliveries ----

  lemma DeliveryStep(s: State, a: Action)
    requires DeliveryInv(s) && SendingInv(s) && ReplayInv(s) && Enabled(s, a)
    ensures DeliveryInv(Apply(s, a)) && SendingInv(Apply(s, a))
  {
    hide Scan, ReadEntries, WellFormed, EntryBytes, Entries, MessageWrites, Known, End, DeliveryInv;
    if a.Send? {
      SendStep(s, a);
    } else if a.Finish? {
      FinishStep(s, a);
    } else {
      assert Apply(s, a).out == s.out && Apply(s, a).delivered == s.delivered;
      SameDeliveries(s, Apply(s, a));
    }
  }

  lemma SameDeliveries(s: State, t: State)
    requires DeliveryInv(s) && t.out == s.out && t.delivered == s.delivered
    ensures DeliveryInv(t)
    ensures forall i :: 0 <= i < |t.delivered| ==> End(t.delivered[i]) <= |t.out|
  {
    hide MessageWrites, Known, End;
  }

  lemma SendStep(s: State, a: Action)
    requires DeliveryInv(s) && SendingInv(s) && ReplayInv(s) && Enabled(s, a) && a.Send?
    ensures DeliveryInv(Apply(s, a)) && SendingInv(Apply(s, a))
  {
    hide Entries, MessageWrites, Known;
    var t, r := Apply(s, a), s.process.replay;
    var writes := MessageWrites(r.snapshot, r.entries[r.next]);
    assert t.out[|t.out| - (r.sent + 1)..] == s.out[|s.out| - r.sent..] + [writes[r.sent]];
    assert writes[..r.sent + 1] == writes[..r.sent] + [writes[r.sent]];
    forall i | 0 <= i < |s.delivered|
      ensures t.out[s.delivered[i].at..End(s.delivered[i])] == s.out[s.delivered[i].at..End(s.delivered[i])]
    {
    }
  }

  lemma FinishStep(s: State, a: Action)
    requires DeliveryInv(s) && SendingInv(s) && ReplayInv(s) && Enabled(s, a) && a.Finish?
    ensures DeliveryInv(Apply(s, a)) && SendingInv(Apply(s, a))
  {
    hide Entries, MessageWrites, Known;
    var r := s.process.replay;
    var writes := MessageWrites(r.snapshot, r.entries[r.next]);
    assert writes[..r.sent] == writes;
    assert s.out[|s.out| - r.sent..|s.out|] == s.out[|s.out| - r.sent..];
  }

  lemma CoreStep(s: State, a: Action)
    requires Core(s) && Enabled(s, a) && Apply(s, a).top <= MAX_SEQUENCE
    ensures Core(Apply(s, a))
  {
    hide DiskInv, WriterInv, ReplayInv, SizeInv, AccountInv, DeliveryInv, SendingInv, Enabled, Apply;
    assert FilesInv(s);
    DiskStep(s, a);
    AccountStep(s, a);
    DeliveryStep(s, a);
  }

  lemma TopGrows(s: State, a: Action)
    requires Enabled(s, a)
    ensures s.top <= Apply(s, a).top
  {
    hide Scan, ReadEntries, WellFormed, EntryBytes, MessageWrites, Known, IsNextSequence, SortedVisible, Opened,
         Appended;
  }

  lemma {:induction false} TopRun(s: State, actions: seq<Action>)
    requires Exec(s, actions).Ok?
    ensures s.top <= Exec(s, actions).value.top
    decreases |actions|
  {
    hide Enabled, Apply;
    if actions != [] {
      TopGrows(s, actions[0]);
      TopRun(Apply(s, actions[0]), actions[1..]);
    }
  }

  lemma InvStep(s: State, a: Action)
    requires Inv(s) && Enabled(s, a)
    ensures Inv(Apply(s, a))
  {
    hide VisibleInv, Core, Enabled, Apply;
    VisibleStep(s, a);
    TopGrows(s, a);
    if Apply(s, a).top <= MAX_SEQUENCE {
      CoreStep(s, a);
    }
  }

  lemma {:induction false} InvRun(s: State, actions: seq<Action>)
    requires Inv(s) && Exec(s, actions).Ok?
    ensures Inv(Exec(s, actions).value)
    decreases |actions|
  {
    hide Inv, Enabled, Apply;
    if actions != [] {
      InvStep(s, actions[0]);
      InvRun(Apply(s, actions[0]), actions[1..]);
    }
  }

  /** At-least-once: after any history of opens, writes, rotations, replays,
      torn writes, crashes and restarts, every accepted message, counted with
      multiplicity, is still readable in an unmarked segment or has been
      delivered completely; deliveries hold all the writes of their message
      under the snapshot of their replay and do not share any of them. */
  lemma AtLeastOnce(actions: seq<Action>)
    requires Exec(Initial(), actions).Ok? && Exec(Initial(), actions).value.top <= MAX_SEQUENCE
    ensures var s := Exec(Initial(), actions).value;
            s.accepted <= Pending(s) + Messages(s.delivered) && DeliveryInv(s)
  {
    hide Exec, Enabled, Apply, VisibleInv, DiskInv, WriterInv, ReplayInv, SizeInv, AccountInv, DeliveryInv,
         SendingInv, Pending, Messages;
    InitialInv();
    InvRun(Initial(), actions);
    AccountLeave(Exec(Initial(), actions).value);
  }

  // ---- from any point of a history ----

  /** The message that a step takes responsibility for. */
  function Taken(a: Action): (m: multiset<UnknownMessage>)
  {
    if a.Accept? then multiset{a.message} else multiset{}
  }

  /** The same state with its accounts opened afresh: owed are the messages to
      account for, and only the deliveries from a given one on count. */
  function Rebase(s: State, owed: multiset<UnknownMessage>, from: nat): (t: State)
    requires from <= |s.delivered|
  {
    s.(accepted := owed, delivered := s.delivered[from..])
  }

  /** No step looks at the accounts, so it does the same to the rebased state. */
  lemma RebaseStep(s: State, owed: multiset<UnknownMessage>, from: nat, a: Action)
    requires from <= |s.delivered| && Enabled(s, a)
    ensures Enabled(Rebase(s, owed, from), a)
    ensures var t := Apply(s, a);
            && t.accepted == s.accepted + Taken(a) && s.delivered <= t.delivered && s.out <= t.out
            && Apply(Rebase(s, owed, from), a) == Rebase(t, owed + Taken(a), from)
  {
    hide Enabled, Apply, Rebase;
    RebaseEnabled(s, owed, from, a);
    RebaseAccounts(s, a);
    RebaseApply(s, owed, from, a);
  }

  lemma RebaseEnabled(s: State, owed: multiset<UnknownMessage>, from: nat, a: Action)
    requires from <= |s.delivered| && Enabled(s, a)
    ensures Enabled(Rebase(s, owed, from), a)
  {
    hide Scan, ReadEntries, WellFormed, EntryBytes, MessageWrites, Known, IsNextSequence, SortedVisible;
  }

  lemma RebaseAccounts(s: State, a: Action)
    requires Enabled(s, a)
    ensures var t := Apply(s, a); t.accepted == s.accepted + Taken(a) && s.delivered <= t.delivered && s.out <= t.out
  {
    hide Scan, ReadEntries, WellFormed, EntryBytes, MessageWrites, Known, IsNextSequence, SortedVisible, Opened,
         Appended;
  }

  lemma RebaseApply(s: State, owed: multiset<UnknownMessage>, from: nat, a: Action)
    requires from <= |s.delivered| && Enabled(s, a) && Enabled(Rebase(s, owed, from), a)
    requires s.delivered <= Apply(s, a).delivered
    ensures Apply(Rebase(s, owed, from), a) == Rebase(Apply(s, a), owed + Taken(a), from)
  {
    hide Enabled, Apply, Rebase, Taken;
    if WritesDisk(a) {
      RebaseDisk(s, owed, from, a);
    } else {
      RebaseControl(s, owed, from, a);
    }
  }

  predicate WritesDisk(a: Action)
  {
    a.Repair? || a.Open? || a.Accept? || a.Rotate? || a.Tear? || a.Carry?
  }

  lemma RebaseDisk(s: State, owed: multiset<UnknownMessage>, from: nat, a: Action)
    requires from <= |s.delivered| && Enabled(s, a) && Enabled(Rebase(s, owed, from), a)
    requires s.delivered <= Apply(s, a).delivered
    requires WritesDisk(a)
    ensures Apply(Rebase(s, owed, from), a) == Rebase(Apply(s, a), owed + Taken(a), from)
  {
    hide Scan, ReadEntries, WellFormed, EntryBytes, MessageWrites, Known, IsNextSequence, SortedVisible, Opened,
         Appended, MustRotate, Incoming, Advanced;
    assert Apply(s, a).delivered == s.delivered;
  }

  lemma RebaseControl(s: State, owed: multiset<UnknownMessage>, from: nat, a: Action)
    requires from <= |s.delivered| && Enabled(s, a) && Enabled(Rebase(s, owed, from), a)
    requires s.delivered <= Apply(s, a).delivered
    requires !WritesDisk(a)
    ensures Apply(Rebase(s, owed, from), a) == Rebase(Apply(s, a), owed + Taken(a), from)
  {
    hide Scan, ReadEntries, WellFormed, EntryBytes, MessageWrites, Known, IsNextSequence, SortedVisible, Opened,
         Appended, MustRotate, Incoming, Advanced;
    if a.Finish? {
      var d := Apply(s, a).delivered[|s.delivered|];
      assert (s.delivered + [d])[from..] == s.delivered[from..] + [d];
    } else {
      assert Apply(s, a).delivered == s.delivered;
    }
  }

  lemma {:induction false} OwedRun(s: State, actions: seq<Action>, owed: multiset<UnknownMessage>, from: nat)
    returns (later: multiset<UnknownMessage>)
    requires Core(s) && Exec(s, actions).Ok? && Exec(s, actions).value.top <= MAX_SEQUENCE
    requires from <= |s.delivered| && AccountInv(Rebase(s, owed, from))
    ensures var t := Exec(s, actions).value;
            && Core(t) && s.delivered <= t.delivered && s.out <= t.out && AccountInv(Rebase(t, later, from))
            && later + s.accepted == owed + t.accepted
    decreases |actions|
  {
    hide DiskInv, WriterInv, ReplayInv, SizeInv, AccountInv, DeliveryInv, SendingInv, Enabled, Apply, Rebase, Taken;
    if actions == [] {
      later := owed;
    } else {
      var a := actions[0];
      TopRun(Apply(s, a), actions[1..]);
      CoreStep(s, a);
      RebaseStep(s, owed, from, a);
      RebaseInv(s, owed, from);
      AccountStep(Rebase(s, owed, from), a);
      later := OwedRun(Apply(s, a), actions[1..], owed + Taken(a), from);
      Regroup(later, s.accepted, owed, Exec(s, actions).value.accepted, Taken(a));
    }
  }

  lemma Regroup(later: multiset<UnknownMessage>, before: multiset<UnknownMessage>, owed: multiset<UnknownMessage>,
                now: multiset<UnknownMessage>, x: multiset<UnknownMessage>)
    requires later + (before + x) == (owed + x) + now
    ensures later + before == owed + now
  {
    assert (later + before) + x == later + (before + x);
    assert (owed + now) + x == (owed + x) + now;
    Cancel(later + before, owed + now, x);
  }

  lemma RebaseInv(s: State, owed: multiset<UnknownMessage>, from: nat)
    requires from <= |s.delivered|
    ensures var r := Rebase(s, owed, from);
            (DiskInv(s) ==> DiskInv(r)) && (WriterInv(s) ==> WriterInv(r)) && (ReplayInv(s) ==> ReplayInv(r))
  {
    hide Storable, Clean, Entries;
  }

  /** At-least-once from any point between segments: through any further history,
      with failed replays, crashes and restarts, what was pending then and all
      that was accepted since is still pending or has been delivered since. */
  lemma AtLeastOnceFrom(s: State, actions: seq<Action>)
    requires Core(s) && !InSegment(s.process) && Exec(s, actions).Ok? && Exec(s, actions).value.top <= MAX_SEQUENCE
    ensures var t := Exec(s, actions).value;
            && Core(t) && s.delivered <= t.delivered && s.out <= t.out
            && Pending(s) + t.accepted <= s.accepted + (Pending(t) + Messages(t.delivered[|s.delivered|..]))
  {
    hide DiskInv, WriterInv, ReplayInv, SizeInv, DeliveryInv, SendingInv, Exec, Sum, PendMap, Messages;
    var owed, from := Pending(s), |s.delivered|;
    assert AccountInv(Rebase(s, owed, from)) by {
      assert owed <= owed + multiset{} + Messages([]);
    }
    hide AccountInv;
    var later := OwedRun(s, actions, owed, from);
    var t := Exec(s, actions).value;
    RebaseInv(t, later, from);
    AccountLeave(Rebase(t, later, from));
    assert s.accepted + later == owed + t.accepted;
    assert s.accepted + later <= s.accepted + (Pending(t) + Messages(t.delivered[from..]));
  }

  lemma InitialInv()
    ensures Inv(Initial())
  {
  }

  /** As long as the names last, each segment is within the rotation size under
      which it was created or holds a single entry, and every segment opened is
      new. */
  lemma SegmentsBoundedAndFresh(actions: seq<Action>, a: Action)
    requires Exec(Initial(), actions).Ok? && Exec(Initial(), actions).value.top <= MAX_SEQUENCE
    ensures SizeInv(Exec(Initial(), actions).value)
    ensures var s := Exec(Initial(), actions).value;
            Enabled(s, a) && (a.Open? || a.Rotate?) ==>
              Apply(s, a).process.sequence !in s.disk.segments
  {
    hide Exec, Enabled, Apply, VisibleInv, ReplayInv, SizeInv, AccountInv, DeliveryInv, SendingInv;
    InitialInv();
    InvRun(Initial(), actions);
    var s := Exec(Initial(), actions).value;
    if Enabled(s, a) && (a.Open? || a.Rotate?) {
      FreshSegments(s, a);
    }
  }

  // ---- when the writer rotates ----

  /** Over every history a rotation finds a segment that is not empty and that the
      incoming message would fill beyond its limit, and a message is accepted
      into a segment only if it is empty or has room. */
  lemma RotatesExactlyWhenFull(actions: seq<Action>, u: UnknownMessage)
    requires Exec(Initial(), actions).Ok? && Exec(Initial(), actions).value.top <= MAX_SEQUENCE && WellFormed(u)
    requires Exec(Initial(), actions).value.process.Up? && Exec(Initial(), actions).value.process.replay.Idle?
    ensures var s := Exec(Initial(), actions).value;
            var v := s.process.sequence;
            && v in s.disk.segments && v in s.limits
            && var n := |s.disk.segments[v]|;
               && (Enabled(s, Rotate(u)) <==> n > 0 && n + |EntryBytes(u)| > s.limits[v])
               && (Enabled(s, Accept(u)) <==> n == 0 || n + |EntryBytes(u)| <= s.limits[v])
  {
    hide Exec, WellFormed, EntryBytes, VisibleInv, DiskInv, ReplayInv, SizeInv, AccountInv, DeliveryInv, SendingInv,
         Clean;
    InitialInv();
    InvRun(Initial(), actions);
  }

  lemma {:induction false} ClosedStays(s: State, actions: seq<Action>, v: nat)
    requires Core(s) && Exec(s, actions).Ok? && Exec(s, actions).value.top <= MAX_SEQUENCE
    requires v < s.top && v in s.disk.segments && Clean(s.disk.segments[v]) && v in s.limits
    ensures var t := Exec(s, actions).value;
            && v in t.disk.segments && t.disk.segments[v] == s.disk.segments[v]
            && v in t.limits && t.limits[v] == s.limits[v]
    decreases |actions|
  {
    hide Core, Enabled, Apply, Clean;
    if actions != [] {
      var a := actions[0];
      TopRun(Apply(s, a), actions[1..]);
      TopGrows(s, a);
      CoreStep(s, a);
      ClosedStep(s, a, v);
      ClosedStays(Apply(s, a), actions[1..], v);
    }
  }

  lemma ClosedStep(s: State, a: Action, v: nat)
    requires Core(s) && Enabled(s, a) && v < s.top && v in s.disk.segments && Clean(s.disk.segments[v]) && v in s.limits
    ensures var t := Apply(s, a);
            && v in t.disk.segments && t.disk.segments[v] == s.disk.segments[v]
            && v in t.limits && t.limits[v] == s.limits[v]
  {
    hide Scan, ReadEntries, WellFormed, EntryBytes, Storable, Clean, Entries, MessageWrites, Known, SizeInv, AccountInv,
         DeliveryInv, SendingInv, ReplayInv, MustRotate, SortedVisible;
    CleanFacts(s.disk.segments[v]);
    if a.Open? || a.Rotate? {
      FreshSegments(s, a);
    }
  }

  /** A segment that a rotation left stays as it was and was full: the message that
      caused the rotation would have exceeded its limit. */
  lemma RotatedSegmentsAreFull(before: seq<Action>, u: UnknownMessage, after: seq<Action>)
    requires Exec(Initial(), before).Ok? && Enabled(Exec(Initial(), before).value, Rotate(u))
    requires Exec(Apply(Exec(Initial(), before).value, Rotate(u)), after).Ok?
    requires Exec(Apply(Exec(Initial(), before).value, Rotate(u)), after).value.top <= MAX_SEQUENCE
    ensures var s := Exec(Initial(), before).value;
            var t, v := Exec(Apply(s, Rotate(u)), after).value, s.process.sequence;
            && v in t.disk.segments && v in t.limits && WellFormed(u)
            && |t.disk.segments[v]| > 0 && |t.disk.segments[v]| + |EntryBytes(u)| > t.limits[v]
  {
    hide Exec, WellFormed, EntryBytes, VisibleInv, ReplayInv, SizeInv, AccountInv, DeliveryInv, SendingInv, Clean,
         Storable;
    var s := Exec(Initial(), before).value;
    var r := Apply(s, Rotate(u));
    InitialInv();
    InvRun(Initial(), before);
    TopGrows(s, Rotate(u));
    TopRun(r, after);
    CoreStep(s, Rotate(u));
    FreshSegments(s, Rotate(u));
    ClosedStays(r, after, s.process.sequence);
  }

  // ---- which messages count as accepted ----

  /** The accepted messages of a history are those of its accepting steps. */
  lemma {:induction false} AcceptedAre(s: State, actions: seq<Action>, u: UnknownMessage)
    requires Exec(s, actions).Ok?
    ensures Exec(s, actions).value.accepted[u] == s.accepted[u] + |set i | 0 <= i < |actions|
            && actions[i] == Accept(u)|
    decreases |actions|
  {
    hide Enabled, Apply, Exec;
    var all := set i | 0 <= i < |actions| && actions[i] == Accept(u);
    if actions == [] {
      assert all == {};
      ExecNothing(s);
    } else {
      var n := |actions| - 1;
      ExecFront(s, actions);
      RebaseAccounts(Exec(s, actions[..n]).value, actions[n]);
      AcceptedAre(s, actions[..n], u);
      AcceptsNext(actions[..n], actions[n], u);
      assert actions == actions[..n] + [actions[n]];
    }
  }

  lemma AcceptsNext(front: seq<Action>, a: Action, u: UnknownMessage)
    ensures var actions := front + [a];
            |set i | 0 <= i < |actions| && actions[i] == Accept(u)| ==
            |set i | 0 <= i < |front| && front[i] == Accept(u)| + if a == Accept(u) then 1 else 0
  {
    var actions := front + [a];
    var before := set i | 0 <= i < |front| && front[i] == Accept(u);
    var now := set i | 0 <= i < |actions| && actions[i] == Accept(u);
    assert now == before + if a == Accept(u) then {|front|} else {};
  }

  // ---- when the names are used up ----

  /** The messages that discovery leads to: those pending in visible segments. */
  ghost function Findable(s: State): (p: multiset<UnknownMessage>)
  {
    Sum(PendMap(s.disk.segments, s.disk.done), if s.top < MAX_SEQUENCE then s.top else MAX_SEQUENCE)
  }

  /** Exactly as long as the names last, everything pending can be found. */
  lemma FindableIsPending(s: State)
    requires s.top <= MAX_SEQUENCE
    ensures Findable(s) == Pending(s)
  {
    hide Sum;
  }

  /** A message accepted into a segment behind the last name is in no segment
      that discovery sees, so no startup and no replay ever finds it. */
  lemma AcceptedBeyondNames(s: State, u: UnknownMessage)
    requires s.process.Up? && s.process.sequence > MAX_SEQUENCE && Enabled(s, Accept(u))
    ensures var t := Apply(s, Accept(u));
            && t.accepted == s.accepted + multiset{u} && Findable(t) == Findable(s)
            && forall v: nat :: Visible(t.disk, v) ==> Visible(s.disk, v) && t.disk.segments[v] == s.disk.segments[v]
  {
    hide WellFormed, EntryBytes, Entries, Sum, MustRotate;
    var t := Apply(s, Accept(u));
    SumChange(PendMap(s.disk.segments, s.disk.done), PendMap(t.disk.segments, t.disk.done), s.process.sequence,
              if s.top < MAX_SEQUENCE then s.top else MAX_SEQUENCE);
  }

  /** A directory after n starts, each followed by a crash. */
  ghost predicate Restarted(s: State, n: nat)
  {
    && s.process.Down? && s.top == n && s.disk.done == {} && s.accepted == multiset{} && s.delivered == []
    && forall v: nat :: (v in s.disk.segments <==> 1 <= v <= n) && (v in s.disk.segments ==> s.disk.segments[v] == [])
  }

  lemma {:induction false} Restarts(n: nat, rotation: nat) returns (actions: seq<Action>)
    requires n <= MAX_SEQUENCE
    ensures Exec(Initial(), actions).Ok? && Restarted(Exec(Initial(), actions).value, n)
  {
    hide Exec;
    if n == 0 {
      actions := [];
      assert Exec(Initial(), []) == Ok(Initial()) by { ExecNothing(Initial()); }
    } else {
      var before := Restarts(n - 1, rotation);
      var s := Exec(Initial(), before).value;
      RestartOnce(s, n - 1, rotation);
      ExecOne(Initial(), before, Open(n, rotation));
      ExecOne(Initial(), before + [Open(n, rotation)], Crash);
      actions := before + [Open(n, rotation)] + [Crash];
    }
  }

  lemma ExecNothing(s: State)
    ensures Exec(s, []) == Ok(s)
  {
  }

  lemma RestartOnce(s: State, n: nat, rotation: nat)
    requires Restarted(s, n) && n <= MAX_SEQUENCE
    ensures Enabled(s, Open(n + 1, rotation))
    ensures var t := Apply(s, Open(n + 1, rotation));
            && t.process == Up(n + 1, 0, Idle) && n + 1 in t.disk.segments && t.accepted == multiset{}
               && t.delivered == []
            && Enabled(t, Crash) && Restarted(Apply(t, Crash), n + 1)
  {
    hide ReadEntries, WellFormed, EntryBytes;
    EmptyFacts();
    CleanFacts([]);
    hide Scan;
    if n > 0 {
      assert Visible(s.disk, n);
    }
  }

  /** At-least-once fails of the code when the names are used up: after
      99999999 starts the next one opens a segment whose name is not recognised,
      and a message accepted there is neither found nor delivered. */
  lemma AtLeastOnceFailsBeyondNames(u: UnknownMessage, rotation: nat) returns (actions: seq<Action>)
    requires WellFormed(u)
    ensures Exec(Initial(), actions).Ok?
    ensures var s := Exec(Initial(), actions).value;
            && s.accepted == multiset{u} && s.delivered == [] && u !in Findable(s)
            && !(s.accepted <= Findable(s) + Messages(s.delivered))
  {
    hide Exec, WellFormed, EntryBytes, Findable, Messages;
    var before := Restarts(MAX_SEQUENCE, rotation);
    var s := Exec(Initial(), before).value;
    RestartOnce(s, MAX_SEQUENCE, rotation);
    ExecOne(Initial(), before, Open(MAX_SEQUENCE + 1, rotation));
    var t := Apply(s, Open(MAX_SEQUENCE + 1, rotation));
    assert Enabled(t, Accept(u));
    ExecOne(Initial(), before + [Open(MAX_SEQUENCE + 1, rotation)], Accept(u));
    actions := before + [Open(MAX_SEQUENCE + 1, rotation)] + [Accept(u)];
    AcceptedBeyondNames(t, u);
    NothingFindable(Apply(t, Crash), MAX_SEQUENCE + 1);
    assert Findable(t) == Findable(Apply(t, Crash)) by { SameFindable(t, Apply(t, Crash)); }
    assert Messages([]) == multiset{} by { NoMessages(); }
    var r := Apply(t, Accept(u));
    assert r.accepted[u] == 1 && (Findable(r) + Messages(r.delivered))[u] == 0;
  }

  lemma NoMessages()
    ensures Messages([]) == multiset{}
  {
  }

  lemma SameFindable(s: State, t: State)
    requires s.disk == t.disk && s.top == t.top
    ensures Findable(s) == Findable(t)
  {
  }

  lemma NothingFindable(s: State, n: nat)
    requires Restarted(s, n)
    ensures Findable(s) == multiset{}
  {
    hide Entries;
    EmptyFacts();
    EmptySum(PendMap(s.disk.segments, s.disk.done), if s.top < MAX_SEQUENCE then s.top else MAX_SEQUENCE);
  }

  lemma {:induction false} EmptySum(m: map<nat, multiset<UnknownMessage>>, n: nat)
    requires forall v :: v in m ==> m[v] == multiset{}
    ensures Sum(m, n) == multiset{}
  {
    if n > 0 {
      EmptySum(m, n - 1);
    }
  }
}
