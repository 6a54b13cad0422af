/** A replay that runs to its end conserves messages: the unknown ones stay
    pending, the known ones become exactly their data writes, in order. */
module QuarantineReplay {
  import opened Words
  import opened Results
  import opened Protocol
  import opened QuarantineCodec
  import opened Routing
  import opened PendingSum
  import opened QuarantineLog
  import opened QuarantineVisible
  import opened SegmentNames
  import opened QuarantineHistory

  function UnknownOf(snapshot: Snapshot, us: seq<UnknownMessage>): (r: seq<UnknownMessage>)
  {
    if us == [] then []
    else if Known(snapshot, us[|us| - 1]) then UnknownOf(snapshot, us[..|us| - 1])
    else UnknownOf(snapshot, us[..|us| - 1]) + [us[|us| - 1]]
  }

  lemma {:induction false} UnknownOfConcat(snapshot: Snapshot, a: seq<UnknownMessage>, b: seq<UnknownMessage>)
    ensures UnknownOf(snapshot, a + b) == UnknownOf(snapshot, a) + UnknownOf(snapshot, b)
    decreases |b|
  {
    hide Known;
    if b == [] {
      assert a + b == a;
    } else {
      var c := a + b;
      UnknownOfConcat(snapshot, a, b[..|b| - 1]);
      assert c[..|c| - 1] == a + b[..|b| - 1] && c[|c| - 1] == b[|b| - 1];
    }
  }

  lemma {:induction false} AllUnknown(snapshot: Snapshot, us: seq<UnknownMessage>)
    requires forall i :: 0 <= i < |us| ==> !Known(snapshot, us[i])
    ensures UnknownOf(snapshot, us) == us && AllWrites(snapshot, us) == []
  {
    hide Known;
    if us != [] {
      var front, last := us[..|us| - 1], us[|us| - 1];
      AllUnknown(snapshot, front);
      assert us == front + [last];
      AllWritesConcat(snapshot, front, [last]);
      assert AllWrites(snapshot, [last]) == MessageWrites(snapshot, last) + AllWrites(snapshot, [last][1..]);
    }
  }

  /** The pending entries of one segment, and of a list of segments in order. */
  ghost function Old(s: State, v: nat): (es: seq<UnknownMessage>)
  {
    if v in s.disk.segments && v !in s.disk.done then Entries(s.disk.segments[v]) else []
  }

  ghost function OldSeq(s: State, vs: seq<nat>): (es: seq<UnknownMessage>)
  {
    if vs == [] then [] else OldSeq(s, vs[..|vs| - 1]) + Old(s, vs[|vs| - 1])
  }

  lemma {:induction false} OldSeqConcat(s: State, a: seq<nat>, b: seq<nat>)
    ensures OldSeq(s, a + b) == OldSeq(s, a) + OldSeq(s, b)
    decreases |b|
  {
    hide Old;
    if b == [] {
      assert a + b == a;
    } else {
      var c := a + b;
      OldSeqConcat(s, a, b[..|b| - 1]);
      assert c[..|c| - 1] == a + b[..|b| - 1] && c[|c| - 1] == b[|b| - 1];
      assert OldSeq(s, c) == OldSeq(s, a) + (OldSeq(s, b[..|b| - 1]) + Old(s, b[|b| - 1]));
    }
  }

  /** Reading all visible segments in order reads exactly what is pending. */
  lemma {:induction false} PendingInOrder(s: State, vs: seq<nat>, n: nat)
    requires forall i, j :: 0 <= i < j < |vs| ==> vs[i] < vs[j]
    requires forall i :: 0 <= i < |vs| ==> 1 <= vs[i] <= n
    requires forall v: nat :: 1 <= v <= n && v in s.disk.segments ==> v in vs
    ensures Sum(PendMap(s.disk.segments, s.disk.done), n) == multiset(OldSeq(s, vs))
    decreases n
  {
    hide PendMap, Old, Part;
    if n > 0 {
      PartIsOld(s, n);
      if vs != [] && vs[|vs| - 1] == n {
        var front := vs[..|vs| - 1];
        assert vs == front + [n];
        PendingInOrder(s, front, n - 1);
        assert OldSeq(s, vs) == OldSeq(s, front) + Old(s, n);
      } else {
        NotListed(s, vs, n);
        PendingInOrder(s, vs, n - 1);
      }
    } else {
      assert vs == [];
    }
  }

  lemma PartIsOld(s: State, n: nat)
    ensures Part(PendMap(s.disk.segments, s.disk.done), n) == multiset(Old(s, n))
  {
    hide Entries;
  }

  lemma NotListed(s: State, vs: seq<nat>, n: nat)
    requires forall i, j :: 0 <= i < j < |vs| ==> vs[i] < vs[j]
    requires forall i :: 0 <= i < |vs| ==> vs[i] <= n
    requires n in s.disk.segments ==> n in vs
    requires vs == [] || vs[|vs| - 1] != n
    ensures n !in vs && Old(s, n) == [] && forall i :: 0 <= i < |vs| ==> vs[i] <= n - 1
  {
    forall i | 0 <= i < |vs|
      ensures vs[i] < n
    {
      assert i < |vs| - 1 ==> vs[i] < vs[|vs| - 1];
    }
  }

  // ---- what has been done after the first k segments ----

  ghost function Held(s0: State, snapshot: Snapshot, vs: seq<nat>, k: nat): (m: multiset<UnknownMessage>)
    requires k <= |vs|
  {
    multiset(UnknownOf(snapshot, OldSeq(s0, vs[..k]))) + multiset(OldSeq(s0, vs[k..]))
  }

  ghost function Written(s0: State, snapshot: Snapshot, vs: seq<nat>, k: nat): (ws: seq<DataWrite>)
    requires k <= |vs|
  {
    AllWrites(snapshot, OldSeq(s0, vs[..k]))
  }

  lemma HeldStep(s0: State, snapshot: Snapshot, vs: seq<nat>, k: nat)
    requires k < |vs|
    ensures Held(s0, snapshot, vs, k + 1) + multiset(Old(s0, vs[k])) ==
            Held(s0, snapshot, vs, k) + multiset(UnknownOf(snapshot, Old(s0, vs[k])))
    ensures Written(s0, snapshot, vs, k + 1) == Written(s0, snapshot, vs, k) + AllWrites(snapshot, Old(s0, vs[k]))
  {
    hide Old, UnknownOf, AllWrites;
    var one := [vs[k]];
    assert vs[..k + 1] == vs[..k] + one && vs[k..] == one + vs[k + 1..];
    OldSeqConcat(s0, vs[..k], one);
    OldSeqConcat(s0, one, vs[k + 1..]);
    assert OldSeq(s0, one) == Old(s0, vs[k]) by {
      assert one[..0] == [] && OldSeq(s0, one[..0]) + Old(s0, vs[k]) == Old(s0, vs[k]);
    }
    UnknownOfConcat(snapshot, OldSeq(s0, vs[..k]), Old(s0, vs[k]));
    AllWritesConcat(snapshot, OldSeq(s0, vs[..k]), Old(s0, vs[k]));
  }

  /** A segment with nothing pending changes nothing. */
  lemma HeldSkip(s0: State, snapshot: Snapshot, vs: seq<nat>, k: nat)
    requires k < |vs| && Old(s0, vs[k]) == []
    ensures Held(s0, snapshot, vs, k + 1) == Held(s0, snapshot, vs, k)
    ensures Written(s0, snapshot, vs, k + 1) == Written(s0, snapshot, vs, k)
  {
    hide Held, Written, Old;
    HeldStep(s0, snapshot, vs, k);
    AllUnknown(snapshot, []);
    var none := multiset(Old(s0, vs[k]));
    assert none == multiset{};
    assert Held(s0, snapshot, vs, k + 1) + none == Held(s0, snapshot, vs, k + 1);
    assert Held(s0, snapshot, vs, k) + none == Held(s0, snapshot, vs, k);
  }

  /** The beginning of a replay with a freshly opened writer. */
  ghost predicate Starts(s0: State)
  {
    && Core(s0) && s0.process.Up? && s0.process.replay.Between?
    && SortedVisible(s0.disk, s0.process.replay.todo)
    && s0.process.size == 0
  }

  ghost predicate Progress(s0: State, snapshot: Snapshot, s: State)
    requires s0.process.Up? && s0.process.replay.Between?
  {
    && s.process.Up? && !s.process.replay.Idle?
    && var vs, r := s0.process.replay.todo, s.process.replay;
       && |r.todo| <= |vs| && r.todo == vs[|vs| - |r.todo|..]
       && (InSegment(s.process) ==> |r.todo| < |vs| && r.segment == vs[|vs| - |r.todo| - 1])
       && var k := |vs| - |r.todo| - if InSegment(s.process) then 1 else 0;
          && Unvisited(s0, s, k)
          && ActiveUnknown(s0, snapshot, s)
          && Tally(s0, snapshot, s, k)
  }

  /** Segments still to be visited are as they were, apart from the segment
      that was open at the start. */
  ghost predicate Unvisited(s0: State, s: State, k: nat)
    requires s0.process.Up? && s0.process.replay.Between?
  {
    && s.top >= s0.top
    && forall i :: k <= i < |s0.process.replay.todo| && s0.process.replay.todo[i] != s0.top ==>
         var v := s0.process.replay.todo[i];
         && v in s.disk.segments && v in s0.disk.segments
         && s.disk.segments[v] == s0.disk.segments[v] && (v in s.disk.done <==> v in s0.disk.done)
  }

  /** The segment open at the start receives only messages still unknown. */
  ghost predicate ActiveUnknown(s0: State, snapshot: Snapshot, s: State)
  {
    s0.top in s.disk.segments &&
    forall i :: 0 <= i < |Entries(s.disk.segments[s0.top])| ==> !Known(snapshot, Entries(s.disk.segments[s0.top])[i])
  }

  /** The messages pending now, and the data writes made so far. */
  ghost predicate Tally(s0: State, snapshot: Snapshot, s: State, k: nat)
    requires s0.process.Up? && s0.process.replay.Between? && s.process.Up? && !s.process.replay.Idle?
    requires k <= |s0.process.replay.todo|
  {
    var vs, r := s0.process.replay.todo, s.process.replay;
    var held, out := Held(s0, snapshot, vs, k), s0.out + Written(s0, snapshot, vs, k);
    match r
    case Between(_) => Pending(s) == held && s.out == out
    case Reading(_, _, es, next) =>
      && next <= |es|
      && Pending(s) == held + multiset(UnknownOf(snapshot, es[..next]))
      && s.out == out + AllWrites(snapshot, es[..next])
    case Delivering(_, _, es, next, at, sent) =>
      && next < |es| && at == snapshot && Known(snapshot, es[next]) && sent <= |MessageWrites(snapshot, es[next])|
      && Pending(s) == held + multiset(UnknownOf(snapshot, es[..next]))
      && s.out == out + AllWrites(snapshot, es[..next]) + MessageWrites(snapshot, es[next])[..sent]
  }

  // ---- how each step of a replay moves the tally ----

  /** The steps of one replay under a fixed registry snapshot. */
  predicate Replays(a: Action, snapshot: Snapshot)
  {
    || a.Skip? || a.Enter? || a.Rotate? || a.Send? || a.Finish? || a.Mark?
    || (a.Carry? && a.snapshot == snapshot) || (a.Pick? && a.snapshot == snapshot)
  }

  lemma RotatePending(s: State, a: Action)
    requires DiskInv(s) && WriterInv(s) && Enabled(s, a) && a.Rotate?
    ensures Pending(Apply(s, a)) == Pending(s)
  {
    hide Scan, ReadEntries, WellFormed, EntryBytes, Storable, Clean, Entries, Sum;
    var t := Apply(s, a);
    EmptyFacts();
    FreshSegments(s, a);
    SumExtend(PendMap(s.disk.segments, s.disk.done), s.top);
    PendGrow(s.disk.segments, s.disk.done, t.disk.segments, t.disk.done, t.top, t.top, multiset{});
  }

  lemma CarryPending(s: State, u: UnknownMessage, t: State)
    requires DiskInv(s) && WriterInv(s) && s.process.Up? && WellFormed(u)
    requires t.disk == Appended(s.disk, s.top, EntryBytes(u)) && t.top == s.top
    ensures Pending(t) == Pending(s) + multiset{u}
    ensures Entries(s.disk.segments[s.top] + EntryBytes(u)) == Entries(s.disk.segments[s.top]) + [u]
  {
    hide WellFormed, EntryBytes, Storable, Clean, Entries, Sum;
    AppendFacts(s.disk.segments[s.top], u);
    PendGrow(s.disk.segments, s.disk.done, t.disk.segments, t.disk.done, s.top, s.top, multiset{u});
  }

  lemma MarkPending(s: State, a: Action)
    requires DiskInv(s) && ReplayInv(s) && Enabled(s, a) && a.Mark?
    ensures Pending(s) == Pending(Apply(s, a)) + multiset(s.process.replay.entries)
  {
    hide Scan, ReadEntries, WellFormed, EntryBytes, Storable, Clean, Entries, Sum;
    var t, r := Apply(s, a), s.process.replay;
    PendGrow(t.disk.segments, t.disk.done, s.disk.segments, s.disk.done, r.segment, s.top, multiset(r.entries));
  }

  /** The visited list ends with the segment open at the start. */
  lemma VisitedBelowTop(s0: State, i: nat)
    requires Starts(s0) && i < |s0.process.replay.todo|
    ensures 1 <= s0.process.replay.todo[i] <= s0.top
    ensures Old(s0, s0.top) == []
  {
    hide Entries, Storable, Clean, ReplayInv, SizeInv, AccountInv, DeliveryInv, SendingInv;
    assert Visible(s0.disk, s0.process.replay.todo[i]);
    EmptyFacts();
  }

  /** The process of t is that of s with another replay position. */
  predicate Moves(s: State, t: State, r: Replay)
  {
    s.process.Up? && t.process.Up? && t.process.replay == r && t.top >= s.top
  }

  lemma SkipProgress(s0: State, snapshot: Snapshot, s: State, t: State)
    requires Starts(s0) && Progress(s0, snapshot, s) && s.process.replay.Between? && s.process.replay.todo != []
    requires s.process.replay.todo[0] in s.disk.done || s.process.replay.todo[0] >= s0.top
    requires s0.top !in s0.disk.done && t.disk == s.disk && t.top == s.top && t.out == s.out
    requires Moves(s, t, Between(s.process.replay.todo[1..]))
    ensures Progress(s0, snapshot, t)
  {
    hide Entries, Core, Held, Written, Known, Sum, PendMap;
    var vs, r := s0.process.replay.todo, s.process.replay;
    var k := |vs| - |r.todo|;
    VisitedBelowTop(s0, k);
    assert r.todo[0] == vs[k] && r.todo[1..] == vs[k + 1..];
    assert Old(s0, vs[k]) == [];
    HeldSkip(s0, snapshot, vs, k);
  }

  lemma EnterProgress(s0: State, snapshot: Snapshot, s: State, t: State, es: seq<UnknownMessage>)
    requires Starts(s0) && Progress(s0, snapshot, s) && s.process.replay.Between? && s.process.replay.todo != []
    requires t.disk == s.disk && t.top == s.top && t.out == s.out
    requires Moves(s, t, Reading(s.process.replay.todo[1..], s.process.replay.todo[0], es, 0))
    ensures Progress(s0, snapshot, t)
  {
    hide Entries, Core, Held, Written, Known, Sum, PendMap;
    var vs, r := s0.process.replay.todo, s.process.replay;
    assert r.todo[1..] == vs[|vs| - |r.todo| + 1..];
    AllUnknown(snapshot, []);
    assert es[..0] == [];
  }

  lemma RotateProgress(s0: State, snapshot: Snapshot, s: State, t: State)
    requires Starts(s0) && Progress(s0, snapshot, s)
    requires s.top + 1 !in s.disk.segments && t.disk == s.disk.(segments := s.disk.segments[s.top + 1 := []])
    requires t.out == s.out && Moves(s, t, s.process.replay) && Pending(t) == Pending(s)
    ensures Progress(s0, snapshot, t)
  {
    hide Entries, Core, Held, Written, Known, Pending, Sum, PendMap;
    var k := |s0.process.replay.todo| - |s.process.replay.todo| - if InSegment(s.process) then 1 else 0;
    assert Tally(s0, snapshot, s, k);
  }

  lemma CarryProgress(s0: State, snapshot: Snapshot, s: State, t: State, file: seq<Byte>)
    requires Starts(s0) && Progress(s0, snapshot, s) && s.process.replay.Reading?
    requires s.process.replay.next < |s.process.replay.entries| && s.top in s.disk.segments
    requires var u := s.process.replay.entries[s.process.replay.next];
             && !Known(snapshot, u) && Entries(file) == Entries(s.disk.segments[s.top]) + [u]
             && Pending(t) == Pending(s) + multiset{u}
    requires t.disk == s.disk.(segments := s.disk.segments[s.top := file]) && t.out == s.out
    requires Moves(s, t, Advanced(s.process.replay))
    ensures Progress(s0, snapshot, t)
  {
    hide Entries, Core, Held, Written, Known, Pending, Sum, PendMap, UnknownOf, AllWrites, MessageWrites;
    var r := s.process.replay;
    TakeOne(snapshot, r.entries, r.next);
    assert multiset(UnknownOf(snapshot, r.entries[..r.next + 1])) ==
           multiset(UnknownOf(snapshot, r.entries[..r.next])) + multiset{r.entries[r.next]};
    forall i | 0 <= i < |s0.process.replay.todo|
      ensures s0.process.replay.todo[i] <= s0.top
    {
      VisitedBelowTop(s0, i);
    }
  }

  /** One more entry of a segment is done: kept if unknown, written if known. */
  lemma TakeOne(snapshot: Snapshot, es: seq<UnknownMessage>, i: nat)
    requires i < |es|
    ensures AllWrites(snapshot, es[..i + 1]) == AllWrites(snapshot, es[..i]) + MessageWrites(snapshot, es[i])
    ensures UnknownOf(snapshot, es[..i + 1]) ==
            UnknownOf(snapshot, es[..i]) + if Known(snapshot, es[i]) then [] else [es[i]]
    ensures !Known(snapshot, es[i]) ==> MessageWrites(snapshot, es[i]) == []
  {
    assert es[..i + 1] == es[..i] + [es[i]];
    assert es[..i + 1][..i] == es[..i];
    AllWritesConcat(snapshot, es[..i], [es[i]]);
    assert AllWrites(snapshot, [es[i]]) == MessageWrites(snapshot, es[i]) + AllWrites(snapshot, [es[i]][1..]);
  }

  predicate Delivers(s: State, t: State, snapshot: Snapshot)
  {
    && InSegment(s.process) && t.process.Up? && t.disk == s.disk && t.top == s.top
    && s.process.replay.next < |s.process.replay.entries|
    && Known(snapshot, s.process.replay.entries[s.process.replay.next])
  }

  lemma PickProgress(s0: State, snapshot: Snapshot, s: State, t: State)
    requires Starts(s0) && Progress(s0, snapshot, s) && Delivers(s, t, snapshot) && s.process.replay.Reading?
    requires var r := s.process.replay;
             t.out == s.out && t.process.replay == Delivering(r.todo, r.segment, r.entries, r.next, snapshot, 0)
    ensures Progress(s0, snapshot, t)
  {
    hide Entries, Core, Held, Written, Known, Sum, PendMap, MessageWrites;
    assert MessageWrites(snapshot, s.process.replay.entries[s.process.replay.next])[..0] == [];
  }

  lemma SendProgress(s0: State, snapshot: Snapshot, s: State, t: State)
    requires Starts(s0) && Progress(s0, snapshot, s) && Delivers(s, t, snapshot) && s.process.replay.Delivering?
    requires var r := s.process.replay;
             var writes := MessageWrites(snapshot, r.entries[r.next]);
             && r.sent < |writes| && t.out == s.out + [writes[r.sent]]
             && t.process.replay == Delivering(r.todo, r.segment, r.entries, r.next, snapshot, r.sent + 1)
    ensures Progress(s0, snapshot, t)
  {
    hide Entries, Core, Held, Written, Known, Sum, PendMap, MessageWrites;
    var r := s.process.replay;
    var writes := MessageWrites(snapshot, r.entries[r.next]);
    assert writes[..r.sent + 1] == writes[..r.sent] + [writes[r.sent]];
  }

  lemma FinishProgress(s0: State, snapshot: Snapshot, s: State, t: State)
    requires Starts(s0) && Progress(s0, snapshot, s) && Delivers(s, t, snapshot) && s.process.replay.Delivering?
    requires var r := s.process.replay;
             && r.sent == |MessageWrites(snapshot, r.entries[r.next])| && t.out == s.out
             && t.process.replay == Advanced(r)
    ensures Progress(s0, snapshot, t)
  {
    hide Entries, Core, Held, Written, Known, Pending, MessageWrites, UnknownOf, AllWrites, Unvisited, ActiveUnknown;
    var r := s.process.replay;
    var writes := MessageWrites(snapshot, r.entries[r.next]);
    TakeOne(snapshot, r.entries, r.next);
    assert writes[..r.sent] == writes;
    assert UnknownOf(snapshot, r.entries[..r.next + 1]) == UnknownOf(snapshot, r.entries[..r.next]);
    SameFiles(s0, snapshot, s, t);
  }

  lemma SameFiles(s0: State, snapshot: Snapshot, s: State, t: State)
    requires s0.process.Up? && s0.process.replay.Between? && t.disk == s.disk && t.top == s.top
    ensures Pending(t) == Pending(s)
    ensures ActiveUnknown(s0, snapshot, s) ==> ActiveUnknown(s0, snapshot, t)
    ensures forall k: nat :: Unvisited(s0, s, k) ==> Unvisited(s0, t, k)
  {
    hide Entries, Known, Sum, PendMap;
  }

  /** Marking a segment replaces its pending entries by the unknown ones. */
  lemma HeldMark(s0: State, snapshot: Snapshot, vs: seq<nat>, k: nat, es: seq<UnknownMessage>,
                 now: multiset<UnknownMessage>)
    requires k < |vs|
    requires Old(s0, vs[k]) == es || (Old(s0, vs[k]) == [] && forall i :: 0 <= i < |es| ==> !Known(snapshot, es[i]))
    requires now + multiset(es) == Held(s0, snapshot, vs, k) + multiset(UnknownOf(snapshot, es))
    ensures now == Held(s0, snapshot, vs, k + 1)
    ensures Written(s0, snapshot, vs, k + 1) == Written(s0, snapshot, vs, k) + AllWrites(snapshot, es)
  {
    hide Held, Written, Old, Known;
    if Old(s0, vs[k]) == es {
      HeldStep(s0, snapshot, vs, k);
      Cancel(now, Held(s0, snapshot, vs, k + 1), multiset(es));
    } else {
      HeldSkip(s0, snapshot, vs, k);
      AllUnknown(snapshot, es);
      Cancel(now, Held(s0, snapshot, vs, k), multiset(es));
    }
  }

  lemma MarkProgress(s0: State, snapshot: Snapshot, s: State, t: State)
    requires Starts(s0) && Progress(s0, snapshot, s) && s.process.replay.Reading? && ReplayInv(s)
    requires s.process.replay.next == |s.process.replay.entries|
    requires t.disk == s.disk.(done := s.disk.done + {s.process.replay.segment}) && t.out == s.out
    requires Pending(s) == Pending(t) + multiset(s.process.replay.entries)
    requires Moves(s, t, Between(s.process.replay.todo))
    ensures Progress(s0, snapshot, t)
  {
    hide Entries, Core, Held, Written, Known, Pending, Sum, PendMap, UnknownOf, AllWrites;
    var vs, r := s0.process.replay.todo, s.process.replay;
    var k, es := |vs| - |r.todo| - 1, r.entries;
    assert es[..r.next] == es;
    VisitedBelowTop(s0, k);
    HeldMark(s0, snapshot, vs, k, es, Pending(t));
  }

  lemma ProgressStep(s0: State, snapshot: Snapshot, s: State, a: Action)
    requires Starts(s0) && Core(s) && Progress(s0, snapshot, s) && Enabled(s, a) && Replays(a, snapshot)
    ensures Progress(s0, snapshot, Apply(s, a))
  {
    hide Progress, Starts, Entries, SizeInv, AccountInv, DeliveryInv, SendingInv, Scan, ReadEntries, WellFormed,
         EntryBytes, Storable, Clean, Known, MessageWrites, Pending, MustRotate;
    var t, r := Apply(s, a), s.process.replay;
    match a
    case Skip => SkipStep(s0, snapshot, s);
    case Enter => EnterProgress(s0, snapshot, s, t, t.process.replay.entries);
    case Rotate(_) =>
      FreshSegments(s, a);
      RotatePending(s, a);
      RotateProgress(s0, snapshot, s, t);
    case Carry(_) => CarryStep(s0, snapshot, s, a);
    case Pick(_) => PickProgress(s0, snapshot, s, t);
    case Send => SendStep(s0, snapshot, s, a);
    case Finish => SendStep(s0, snapshot, s, a);
    case Mark =>
      MarkPending(s, a);
      MarkProgress(s0, snapshot, s, t);
  }

  lemma SkipStep(s0: State, snapshot: Snapshot, s: State)
    requires Starts(s0) && Core(s) && Progress(s0, snapshot, s) && Enabled(s, Skip)
    ensures Progress(s0, snapshot, Apply(s, Skip))
  {
    hide Entries, SizeInv, AccountInv, DeliveryInv, SendingInv, ReplayInv, Storable, Clean, Tally;
    SkipProgress(s0, snapshot, s, Apply(s, Skip));
  }

  lemma CarryStep(s0: State, snapshot: Snapshot, s: State, a: Action)
    requires Starts(s0) && Core(s) && Progress(s0, snapshot, s) && Enabled(s, a) && a == Carry(snapshot)
    ensures Progress(s0, snapshot, Apply(s, a))
  {
    hide Progress, Starts, Entries, SizeInv, AccountInv, DeliveryInv, SendingInv, WellFormed, EntryBytes, Storable,
         Clean, Known, Pending;
    var t, u := Apply(s, a), s.process.replay.entries[s.process.replay.next];
    CarryPending(s, u, t);
    CarryProgress(s0, snapshot, s, t, s.disk.segments[s.top] + EntryBytes(u));
  }

  lemma SendStep(s0: State, snapshot: Snapshot, s: State, a: Action)
    requires Starts(s0) && Core(s) && Progress(s0, snapshot, s) && Enabled(s, a) && (a.Send? || a.Finish?)
    ensures Progress(s0, snapshot, Apply(s, a))
  {
    hide Starts, Entries, Core, Known, MessageWrites, Unvisited, ActiveUnknown, Pending, Held, Written, UnknownOf,
         AllWrites;
    var t := Apply(s, a);
    if a.Send? {
      SendProgress(s0, snapshot, s, t);
    } else {
      FinishProgress(s0, snapshot, s, t);
    }
  }

  /** The segments that discovery finds hold exactly what is pending. */
  lemma PendingOfVisible(s: State, vs: seq<nat>)
    requires DiskInv(s) && SortedVisible(s.disk, vs)
    ensures Pending(s) == multiset(OldSeq(s, vs))
  {
    hide Entries, Storable, Sum;
    forall i | 0 <= i < |vs|
      ensures 1 <= vs[i] <= s.top
    {
      assert vs[i] in vs;
    }
    forall v: nat | v in s.disk.segments
      ensures v in vs
    {
      assert Visible(s.disk, v);
    }
    PendingInOrder(s, vs, s.top);
  }

  /** The beginning makes progress by doing nothing. */
  lemma ProgressStart(s0: State, snapshot: Snapshot)
    requires Starts(s0)
    ensures Progress(s0, snapshot, s0)
    ensures Pending(s0) == multiset(OldSeq(s0, s0.process.replay.todo))
  {
    hide Entries, ReplayInv, SizeInv, AccountInv, DeliveryInv, SendingInv, Storable, Clean, Sum;
    var vs := s0.process.replay.todo;
    EmptyFacts();
    AllUnknown(snapshot, []);
    assert vs[0..] == vs && vs[..0] == [];
    assert OldSeq(s0, vs[..0]) == [];
    forall i | 0 <= i < |vs|
      ensures 1 <= vs[i] <= s0.top && Visible(s0.disk, vs[i])
    {
      VisitedBelowTop(s0, i);
      assert vs[i] in vs;
    }
    PendingOfVisible(s0, vs);
  }

  lemma {:induction false} ProgressRun(s0: State, snapshot: Snapshot, s: State, actions: seq<Action>)
    requires Starts(s0) && Core(s) && Progress(s0, snapshot, s) && Exec(s, actions).Ok?
    requires Exec(s, actions).value.top <= MAX_SEQUENCE
    requires forall i :: 0 <= i < |actions| ==> Replays(actions[i], snapshot)
    ensures Core(Exec(s, actions).value) && Progress(s0, snapshot, Exec(s, actions).value)
    decreases |actions|
  {
    hide Starts, Core, Progress, Enabled, Apply, Replays;
    if actions != [] {
      TopRun(Apply(s, actions[0]), actions[1..]);
      CoreStep(s, actions[0]);
      ProgressStep(s0, snapshot, s, actions[0]);
      ProgressRun(s0, snapshot, Apply(s, actions[0]), actions[1..]);
    }
  }

  /** Replay conserves messages: from a freshly opened writer, a replay that
      comes to its end under one registry leaves pending exactly the earlier
      pending messages that are still unknown, and has handed the data writer
      exactly the writes of the others, once each and in order; also when
      carrying rotated the log and the segment open at the start was itself
      replayed and marked. */
  lemma ReplayConserves(s0: State, snapshot: Snapshot, actions: seq<Action>)
    requires Starts(s0) && Exec(s0, actions).Ok? && Exec(s0, actions).value.process.Up?
    requires Exec(s0, actions).value.process.replay == Between([]) && Exec(s0, actions).value.top <= MAX_SEQUENCE
    requires forall i :: 0 <= i < |actions| ==> Replays(actions[i], snapshot)
    ensures var s, earlier := Exec(s0, actions).value, OldSeq(s0, s0.process.replay.todo);
            && Pending(s0) == multiset(earlier)
            && Pending(s) == multiset(UnknownOf(snapshot, earlier))
            && s.out == s0.out + AllWrites(snapshot, earlier)
  {
    hide Exec, Core, Replays, Pending, OldSeq, UnknownOf, AllWrites;
    ProgressStart(s0, snapshot);
    ProgressRun(s0, snapshot, s0, actions);
    var vs := s0.process.replay.todo;
    assert vs[..|vs|] == vs && vs[|vs|..] == [];
    assert OldSeq(s0, []) == [] by { OldNothing(s0); }
    assert Held(s0, snapshot, vs, |vs|) == multiset(UnknownOf(snapshot, OldSeq(s0, vs)));
  }

  lemma OldNothing(s: State)
    ensures OldSeq(s, []) == []
  {
  }
}
