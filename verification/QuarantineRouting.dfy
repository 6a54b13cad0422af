/** Quarantine then replay means the same as direct routing: replaying what is
    pending and routing the same messages through a router with the same
    snapshot issue the same data writes, in the same order, and set the same
    messages aside. */
module QuarantineRouting {
  import opened Words
  import opened Results
  import opened QuarantineCodec
  import opened Routing
  import opened QuarantineLog
  import opened QuarantineVisible
  import opened QuarantineHistory
  import opened QuarantineReplay
  import opened QuarantineService
  import opened SegmentNames

  /** Nothing the router handed on was refused. */
  ghost predicate NothingRefused(errors: seq<seq<Error>>)
  {
    forall i :: 0 <= i < |errors| ==> WriteFailed !in errors[i]
  }

  /** Routes messages one after the other, as their device would have sent them. */
  method RouteAll(router: MessageRouter, messages: seq<UnknownMessage>) returns (errors: seq<seq<Error>>)
    modifies router, router.dataWriter, router.unknown
    ensures router.snapshot == old(router.snapshot) && |errors| == |messages|
    ensures router.dataWriter.attempts == old(router.dataWriter.attempts) + AllWrites(router.snapshot, messages)
    ensures NothingRefused(errors) ==>
              && router.dataWriter.accepted == old(router.dataWriter.accepted) + AllWrites(router.snapshot, messages)
              && router.unknown.stored == old(router.unknown.stored) + UnknownOf(router.snapshot, messages)
  {
    hide AllWrites, UnknownOf, MessageWrites, MessageObservations, Tallied, Known;
    ghost var snapshot := router.snapshot;
    errors := [];
    AllUnknown(snapshot, []);
    assert messages[..0] == [];
    for i := 0 to |messages|
      invariant router.snapshot == snapshot && |errors| == i
      invariant router.dataWriter.attempts == old(router.dataWriter.attempts) + AllWrites(snapshot, messages[..i])
      invariant NothingRefused(errors) ==>
                  && router.dataWriter.accepted == old(router.dataWriter.accepted) + AllWrites(snapshot, messages[..i])
                  && router.unknown.stored == old(router.unknown.stored) + UnknownOf(snapshot, messages[..i])
    {
      var u := messages[i];
      TakeOne(snapshot, messages, i);
      KnownExactly(snapshot, u);
      ghost var before := errors;
      var error := router.Route(u.transport, u.timestamp, u.message);
      assert u == UnknownMessage(u.timestamp, u.transport, u.message);
      errors := errors + [error];
      assert NothingRefused(errors) ==> NothingRefused(before) && WriteFailed !in error by {
        AllButLast(before, error);
      }
    }
    assert messages[..|messages|] == messages;
  }

  lemma AllButLast(errors: seq<seq<Error>>, error: seq<Error>)
    ensures NothingRefused(errors + [error]) ==> NothingRefused(errors) && WriteFailed !in error
  {
    if NothingRefused(errors + [error]) {
      assert (errors + [error])[|errors|] == error;
      forall i | 0 <= i < |errors|
        ensures WriteFailed !in errors[i]
      {
        assert (errors + [error])[i] == errors[i];
      }
    }
  }

  /** Reads what replay would find, without replaying it. */
  method ReadPending(writer: QuarantineWriter, listing: seq<DirEntry>)
    returns (messages: seq<UnknownMessage>, found: seq<nat>)
    requires writer.Valid() && Lists(QUARANTINE_SEGMENTS, listing, writer.disk.segments)
    ensures SortedVisible(writer.disk, found) && messages == OldSeq(writer.state, found)
  {
    hide Inv, Exec, Lists, Clean, Entries;
    found := DiscoverSegments(QUARANTINE_SEGMENTS, listing, writer.disk.segments);
    messages := [];
    OldNothing(writer.state);
    assert found[..0] == [];
    for i := 0 to |found|
      invariant messages == OldSeq(writer.state, found[..i])
    {
      var v := found[i];
      assert v in found;
      assert found[..i + 1][..i] == found[..i];
      if v !in writer.disk.done {
        assert Clean(writer.disk.segments[v]) by { CleanOnDisk(writer, v); }
        var loaded := LoadEntries(writer.disk.segments[v]);
        messages := messages + loaded.value;
      } else {
        assert messages + [] == messages;
      }
    }
    assert found[..|found|] == found;
  }

  lemma CleanOnDisk(writer: QuarantineWriter, v: nat)
    requires writer.Valid() && Visible(writer.disk, v)
    ensures Clean(writer.disk.segments[v])
  {
    hide Exec, Core, ReplaySound, Storable, Clean;
    writer.Invariant();
  }

  /** A sorted list is determined by its elements. */
  lemma {:induction false} SameSorted(a: seq<nat>, b: seq<nat>)
    requires Increasing(a) && Increasing(b) && forall v: nat :: v in a <==> v in b
    ensures a == b
    decreases |a|
  {
    hide Increasing;
    assert a != [] ==> a[0] in b;
    assert b != [] ==> b[0] in a;
    if a != [] {
      var front, x := a[..|a| - 1], a[|a| - 1];
      var rest, y := b[..|b| - 1], b[|b| - 1];
      assert a == front + [x] && b == rest + [y];
      LastIsLargest(a, front, x);
      LastIsLargest(b, rest, y);
      assert x in b && y in a;
      SameSorted(front, rest);
    }
  }

  lemma LastIsLargest(a: seq<nat>, front: seq<nat>, last: nat)
    requires Increasing(a) && a == front + [last]
    ensures Increasing(front)
    ensures forall v: nat :: v in a ==> v <= last
    ensures forall v: nat :: v in front <==> v in a && v != last
  {
    forall i, j | 0 <= i < j < |a|
      ensures a[i] < a[j] && (j < |front| ==> front[i] < front[j])
    {
      assert j < |front| ==> a[i] == front[i] && a[j] == front[j];
    }
    assert last == a[|front|];
  }

  /** Replays what is pending, and routes the same messages through a router that
      has the snapshot which the replay reads. What a successful replay with a
      freshly opened writer gave to its data writer is, write for write and in
      order, what the router attempts on its own; and if the router's writers
      refuse nothing, both data writers gained the same and the messages that
      replay left pending are the ones the router quarantined. */
  method ReplayMeansRouting(writer: QuarantineWriter, sink: DataSink, registry: ConfigRegistry, router: MessageRouter,
                            listing: seq<DirEntry>)
    returns (replayed: bool, errors: seq<seq<Error>>, messages: seq<UnknownMessage>)
    requires Linked(writer, sink) && writer.state.process.replay.Idle?
    requires Lists(QUARANTINE_SEGMENTS, listing, writer.disk.segments)
    requires router.dataWriter != sink
    modifies writer, sink, registry, router, router.dataWriter, router.unknown
    ensures Linked(writer, sink) && |errors| == |messages|
    ensures writer.state.top <= MAX_SEQUENCE ==> multiset(messages) == old(Pending(writer.state))
    ensures old(router.dataWriter.attempts) <= router.dataWriter.attempts
    ensures var same := replayed && old(writer.size) == 0 && writer.state.top <= MAX_SEQUENCE
                        && Only(Used(registry, |old(registry.read)|), old(router.snapshot));
            && (same ==>
                  sink.accepted == old(sink.accepted) + router.dataWriter.attempts[|old(router.dataWriter.attempts)|..])
            && (same && NothingRefused(errors) ==>
                  && |old(router.dataWriter.accepted)| <= |router.dataWriter.accepted|
                  && |old(router.unknown.stored)| <= |router.unknown.stored|
                  && sink.accepted ==
                     old(sink.accepted) + router.dataWriter.accepted[|old(router.dataWriter.accepted)|..]
                  && Pending(writer.state) == multiset(router.unknown.stored[|old(router.unknown.stored)|..]))
  {
    hide Inv, Exec, Lists, Pending, OldSeq, AllWrites, UnknownOf, Replayed, NothingRefused, Messages, Carries,
         SortedVisible, Only, Used;
    ghost var found: seq<nat>;
    messages, found := ReadPending(writer, listing);
    ghost var before := writer.disk;
    var ok, counters, earlier, again := ReplayQuarantine(writer, sink, registry, listing, router.snapshot);
    assert found == again by { SameFound(before, found, again); }
    errors := RouteAll(router, messages);
    replayed := ok;
  }

  lemma SameFound(disk: Disk, a: seq<nat>, b: seq<nat>)
    requires SortedVisible(disk, a) && SortedVisible(disk, b)
    ensures a == b
  {
    SameSorted(a, b);
  }
}
