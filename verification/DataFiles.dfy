/** The data file as the code runs it: a bounded write buffer in front of the
    newest segment, rotation, and discovery with repair on opening
    (sensor-server/data-file.go). */
module DataFiles {
  import opened Words
  import opened Results
  import opened SegmentNames
  import opened DataLog

  class DataFile {
    const rotation: nat
    const bufferSize: nat
    var disk: map<nat, seq<Byte>>
    var sequence: nat
    var size: nat
    var buffer: seq<Byte>
    var closed: bool
    var bytesWritten: nat
    var rotations: nat

    // The machine state the fields stand for, and how it was reached.
    ghost const origin: State
    ghost const persisted: nat
    ghost var run: seq<Action>
    ghost var state: State

    /** The fields stand for the machine state, with the bytes in `pending`
        still on their way into the buffer. */
    ghost predicate Linked(pending: seq<Byte>)
      reads this
    {
      && Inv(origin, persisted) && Exec(origin, run) == Ok(state)
      && bufferSize >= 1 && |buffer| <= bufferSize
      && state.rotation == rotation && state.open && state.disk == disk && state.sequence == sequence
      && state.buffer == buffer + pending
      && (closed ==> buffer == [])
    }

    ghost predicate Valid()
      reads this
    {
      Linked([]) && state.size == size
    }

    lemma Invariant(pending: seq<Byte>) returns (m: nat)
      requires Linked(pending)
      ensures Inv(state, m) && sequence in disk && rotation >= RECORD_SIZE
    {
      hide Exec, Core;
      m := InvRun(origin, persisted, run);
    }

    ghost method Log(a: Action)
      requires Inv(origin, persisted) && Exec(origin, run) == Ok(state) && Enabled(state, a)
      modifies this`run, this`state
      ensures run == old(run) + [a] && state == Apply(old(state), a)
      ensures Exec(origin, run) == Ok(state)
    {
      hide Inv, Exec, Enabled, Apply;
      ExecOne(origin, run, a);
      run := run + [a];
      state := Apply(state, a);
    }

    /** Takes over a directory in which every segment holds whole records. */
    constructor (ghost origin: State, ghost persisted: nat, ghost run: seq<Action>, rotation: nat, bufferSize: nat,
                 disk: map<nat, seq<Byte>>, sequence: nat, size: nat)
      requires Inv(origin, persisted) && Exec(origin, run).Ok? && bufferSize >= 1
      requires var s := Exec(origin, run).value;
               && s.disk == disk && Enabled(s, Open(sequence, rotation))
               && size == |Opened(disk, sequence)[sequence]|
      ensures Valid() && !closed && state == Apply(Exec(origin, run).value, Open(sequence, rotation))
      ensures this.origin == origin && this.run == run + [Open(sequence, rotation)] && this.rotation == rotation
              && buffer == [] && bytesWritten == 0 && rotations == 0 && this.sequence == sequence && this.size == size
    {
      hide Inv, Exec, Apply, Enabled;
      OpenFacts(Exec(origin, run).value, sequence, rotation);
      this.rotation, this.bufferSize, this.sequence, this.size := rotation, bufferSize, sequence, size;
      this.disk, this.buffer, this.closed, this.bytesWritten, this.rotations := Opened(disk, sequence), [], false, 0, 0;
      this.origin, this.persisted := origin, persisted;
      this.run := run + [Open(sequence, rotation)];
      this.state := Apply(Exec(origin, run).value, Open(sequence, rotation));
      new;
      ExecOne(origin, run, Open(sequence, rotation));
    }

    /** One write call on the open file: the chunk must be what comes first. */
    method Persist(chunk: seq<Byte>, ghost rest: seq<Byte>)
      requires Linked(rest) && chunk <= buffer + rest && !closed
      modifies this`disk, this`run, this`state
      ensures Inv(origin, persisted) && Exec(origin, run) == Ok(state)
      ensures sequence in old(disk) && disk == old(disk)[sequence := old(disk)[sequence] + chunk]
      ensures disk.Keys == old(disk).Keys && old(run) <= run
      ensures state == old(state).(disk := disk, buffer := (buffer + rest)[|chunk|..])
    {
      hide Inv, Exec;
      ghost var m := Invariant(rest);
      ghost var all := buffer + rest;
      assert all[..|chunk|] == chunk;
      Log(Emit(|chunk|));
      disk := disk[sequence := disk[sequence] + chunk];
    }

    method FlushBuffer(ghost rest: seq<Byte>)
      requires Linked(rest) && !closed
      modifies this`disk, this`buffer, this`run, this`state
      ensures Linked(rest) && buffer == [] && state == old(state).(disk := disk, buffer := rest)
              && disk.Keys == old(disk).Keys
      ensures old(run) <= run
    {
      hide Inv, Exec;
      assert (buffer + rest)[|buffer|..] == rest && [] + rest == rest;
      Persist(buffer, rest);
      buffer := [];
    }

    /** The loop of the buffered writer: as long as the bytes do not fit, an
        empty buffer passes them straight to the file and a used buffer is
        filled up and flushed. */
    method WriteBuffered(bytes: seq<Byte>)
      requires Linked(bytes) && !closed
      modifies this`disk, this`buffer, this`run, this`state
      ensures Linked([]) && state == old(state).(disk := disk, buffer := buffer) && old(run) <= run
      ensures |old(buffer)| + |bytes| <= bufferSize ==> disk == old(disk) && buffer == old(buffer) + bytes
    {
      hide Inv, Exec;
      var p := bytes;
      while |p| > bufferSize - |buffer|
        invariant Linked(p) && state == old(state).(disk := disk, buffer := buffer + p) && old(run) <= run
        invariant |old(buffer)| + |bytes| <= bufferSize ==> disk == old(disk) && buffer == old(buffer) && p == bytes
        decreases |p|, |buffer|
      {
        if |buffer| == 0 {
          assert buffer + p == p && [] + p == p;
          Persist(p, p);
          p := [];
          assert buffer + p == [];
        } else {
          var n := bufferSize - |buffer|;
          assert buffer + p == (buffer + p[..n]) + p[n..];
          buffer := buffer + p[..n];
          p := p[n..];
          FlushBuffer(p);
          assert buffer + p == p;
        }
      }
      buffer := buffer + p;
      assert buffer + [] == buffer;
    }

    /** Flush leaves the buffer empty and makes every accepted record durable: as
        long as the names last, a reader then finds exactly the records of the
        session. */
    method Flush() returns (r: Result<()>)
      requires Valid()
      modifies this`disk, this`buffer, this`run, this`state
      ensures Valid() && (r.Ok? <==> !closed) && old(run) <= run
      ensures r.Ok? ==> state == old(state).(disk := disk, buffer := [], flushed := |old(state).written|)
      ensures r.Ok? && state.top <= MAX_SEQUENCE ==> Recovered(state) == state.written
      ensures r.Err? ==> state == old(state)
    {
      hide Inv, Exec, Recovered;
      if closed {
        return Err(Closed);
      }
      FlushBuffer([]);
      Log(Flushed);
      ghost var m := Invariant([]);
      if state.top <= MAX_SEQUENCE {
        FlushedAll(state, m);
      }
      r := Ok(());
    }

    /** Closing the segment flushes first, so only full segments are left behind;
        as long as the names last, the next segment is new. */
    method Rotate()
      requires Valid() && !closed && size + RECORD_SIZE > rotation
      modifies this
      ensures Valid() && !closed && bytesWritten == old(bytesWritten) && old(run) <= run
      ensures sequence == old(sequence) + 1 && size == 0 && rotations == old(rotations) + 1
      ensures old(state).top <= MAX_SEQUENCE ==> sequence !in old(disk)
      ensures state.written == old(state).written && state.flushed == old(state).flushed
    {
      hide Inv, Exec, Enabled, Apply;
      FlushBuffer([]);
      ghost var m := Invariant([]);
      if state.top <= MAX_SEQUENCE {
        NextSegmentIsNew(state, m);
      }
      RotateEffect(state);
      Log(DataLog.Rotate);
      sequence := sequence + 1;
      rotations := rotations + 1;
      size := 0;
      disk := Opened(disk, sequence);
    }

    /** A record is accepted whole, behind all earlier ones, after a rotation if
        it would exceed the rotation size. */
    method WriteRecord(timestamp: Int64, value: Int32) returns (r: Result<()>)
      requires Valid()
      modifies this
      ensures Valid() && closed == old(closed) && old(run) <= run
      ensures r.Ok? <==> !closed
      ensures state.written == if r.Ok? then old(state).written + [Record(timestamp, value)] else old(state).written
      ensures state.flushed == old(state).flushed
      ensures r.Ok? ==>
                var full := old(size) + 12 > rotation;
                && bytesWritten == old(bytesWritten) + 12
                && rotations == old(rotations) + (if full then 1 else 0)
                && sequence == old(sequence) + (if full then 1 else 0)
                && size == 12 + (if full then 0 else old(size))
    {
      hide Inv, Exec, Encode;
      if closed {
        return Err(Closed);
      }
      ghost var m := Invariant([]);
      if size + RECORD_SIZE > rotation {
        Rotate();
      }
      var encoded := Encode(Record(timestamp, value));
      assert buffer + [] == buffer && buffer + [] + encoded == buffer + encoded;
      Log(Accept(Record(timestamp, value)));
      WriteBuffered(encoded);
      size := size + RECORD_SIZE;
      bytesWritten := bytesWritten + RECORD_SIZE;
      r := Ok(());
    }

    method Close()
      requires Valid()
      modifies this`disk, this`buffer, this`run, this`state, this`closed
      ensures Valid() && closed && old(run) <= run
      ensures !old(closed) ==> state.written == old(state).written && state.flushed == |state.written|
      ensures !old(closed) && state.top <= MAX_SEQUENCE ==> Recovered(state) == state.written
    {
      hide Inv, Exec, Recovered;
      if closed {
        return;
      }
      var _ := Flush();
      closed := true;
    }
  }

  lemma RotateEffect(s: State)
    requires s.open && s.buffer == [] && s.size + RECORD_SIZE > s.rotation
    ensures Enabled(s, DataLog.Rotate)
    ensures var t := Apply(s, DataLog.Rotate);
            && t.open && t.rotation == s.rotation && t.sequence == s.sequence + 1 && t.size == 0 && t.buffer == []
            && t.disk == Opened(s.disk, t.sequence) && t.written == s.written && t.flushed == s.flushed
  {
  }

  lemma NextSegmentIsNew(s: State, m: nat)
    requires Inv(s, m) && s.open && s.top <= MAX_SEQUENCE
    ensures s.sequence + 1 !in s.disk
  {
    hide Bytes;
  }

  lemma FlushedAll(s: State, m: nat)
    requires Inv(s, m) && s.flushed == |s.written| && s.top <= MAX_SEQUENCE
    ensures Recovered(s) == s.written
  {
    hide Recovered, Pieces, Bytes;
    RecoveredIsPrefix(s, m);
    assert s.written[..|s.written|] == s.written;
  }

  /** The directory of a file that may be opened again: nothing is running. */
  ghost predicate Closable(origin: State, persisted: nat, history: seq<Action>, directory: map<nat, seq<Byte>>)
  {
    && Inv(origin, persisted) && Exec(origin, history).Ok?
    && var s := Exec(origin, history).value; !s.open && s.disk == directory
  }

  /** Repairs the segments in listing order, whatever it is, and finds the one
      with the largest number together with its repaired size. */
  method DiscoverAndRepair(ghost origin: State, ghost persisted: nat, ghost history: seq<Action>,
                           directory: map<nat, seq<Byte>>, listing: seq<DirEntry>)
    returns (sequence: nat, activeSize: nat, disk: map<nat, seq<Byte>>, ghost run: seq<Action>)
    requires Closable(origin, persisted, history, directory)
    requires Lists(DATA_SEGMENTS, listing, directory)
    ensures Closable(origin, persisted, run, disk)
    ensures IsActive(disk, sequence) && AllWhole(disk) && history <= run
            && activeSize == |Opened(disk, sequence)[sequence]|
    ensures CutToRecords(directory, disk)
    ensures Recovered(Exec(origin, run).value) == Recovered(Exec(origin, history).value)
  {
    hide PartlyCut, CutToRecords, Inv, Exec, Enabled, Apply, Recovered, Lists, Name, Parse, Whole;
    sequence, activeSize, disk, run := 1, 0, directory, history;
    NotYetCut(directory);
    var found := false;
    for i := 0 to |listing|
      invariant Closable(origin, persisted, run, disk) && disk.Keys == directory.Keys && PartlyCut(directory, disk)
      invariant Recovered(Exec(origin, run).value) == Recovered(Exec(origin, history).value) && history <= run
      invariant found ==> Visible(disk, sequence) && activeSize == |disk[sequence]|
      invariant !found ==> sequence == 1 && activeSize == 0
      invariant found ==> exists j :: 0 <= j < i && Parse(DATA_SEGMENTS, listing[j].name) == Some(sequence)
      invariant forall j :: 0 <= j < i && !listing[j].isDir ==>
                  var p := Parse(DATA_SEGMENTS, listing[j].name);
                  p.Some? ==> found && p.value in disk && p.value <= sequence && |disk[p.value]| % RECORD_SIZE == 0
    {
      var entry := listing[i];
      var parsed := Parse(DATA_SEGMENTS, entry.name);
      if parsed.None? || entry.isDir {
        continue;
      }
      var v: nat := parsed.value;
      ListedExists(directory, listing, i);
      assert !(found && v == sequence) by {
        if found && v == sequence {
          ghost var j :| 0 <= j < i && Parse(DATA_SEGMENTS, listing[j].name) == Some(sequence);
          ListedOnce(directory, listing, j, i);
        }
      }
      var size := |disk[v]|;
      if size % RECORD_SIZE != 0 {
        run := RepairOne(origin, persisted, run, disk, v);
        CutOne(directory, disk, v);
        disk := disk[v := Whole(disk[v])];
        size := |disk[v]|;
      }
      if !found || v > sequence {
        found, sequence, activeSize := true, v, size;
      }
    }
    OpenReady(Exec(origin, run).value, directory, listing, found, sequence);
    AllCut(directory, disk);
  }

  /** Every segment is as it was, or cut to whole records. */
  ghost predicate PartlyCut(directory: map<nat, seq<Byte>>, disk: map<nat, seq<Byte>>)
  {
    && disk.Keys == directory.Keys
    && forall v: nat :: v in directory ==> disk[v] == directory[v] || disk[v] == Whole(directory[v])
  }

  /** Every segment that discovery sees is cut to whole records. */
  ghost predicate CutToRecords(directory: map<nat, seq<Byte>>, disk: map<nat, seq<Byte>>)
  {
    && disk.Keys == directory.Keys
    && forall v: nat :: v in directory && 1 <= v <= MAX_SEQUENCE ==>
         disk[v] == directory[v][..|directory[v]| - |directory[v]| % 12]
  }

  lemma NotYetCut(directory: map<nat, seq<Byte>>)
    ensures PartlyCut(directory, directory)
  {
  }

  lemma CutOne(directory: map<nat, seq<Byte>>, disk: map<nat, seq<Byte>>, v: nat)
    requires PartlyCut(directory, disk) && v in disk
    ensures PartlyCut(directory, disk[v := Whole(disk[v])])
  {
    assert Whole(Whole(directory[v])) == Whole(directory[v]);
  }

  lemma AllCut(directory: map<nat, seq<Byte>>, disk: map<nat, seq<Byte>>)
    requires PartlyCut(directory, disk) && AllWhole(disk)
    ensures CutToRecords(directory, disk)
  {
    forall v: nat | v in directory && 1 <= v <= MAX_SEQUENCE
      ensures disk[v] == directory[v][..|directory[v]| - |directory[v]| % 12]
    {
      assert Visible(disk, v);
    }
  }

  /** The segment that is opened: the largest that discovery sees, at its repaired
      size, or the first one, empty. */
  lemma OpensLargest(directory: map<nat, seq<Byte>>, disk: map<nat, seq<Byte>>, sequence: nat)
    requires CutToRecords(directory, disk) && IsActive(disk, sequence)
    ensures forall v: nat :: v in directory && 1 <= v <= MAX_SEQUENCE ==> v <= sequence
    ensures |Opened(disk, sequence)[sequence]| ==
            if sequence in directory then |directory[sequence]| - |directory[sequence]| % 12 else 0
    ensures sequence in directory || sequence == 1
  {
    forall v: nat | v in directory && 1 <= v <= MAX_SEQUENCE
      ensures v <= sequence
    {
      assert Visible(disk, v);
    }
  }

  /** The ghost part of truncating one segment. */
  lemma RepairOne(origin: State, persisted: nat, run: seq<Action>, disk: map<nat, seq<Byte>>, v: nat)
    returns (longer: seq<Action>)
    requires Closable(origin, persisted, run, disk) && Visible(disk, v)
    ensures Closable(origin, persisted, longer, disk[v := Whole(disk[v])])
    ensures Recovered(Exec(origin, longer).value) == Recovered(Exec(origin, run).value) && run <= longer
  {
    hide Inv, Exec, Whole, Flat, Records;
    RepairKeepsRecords(disk, v, Reach(Exec(origin, run).value.top));
    ExecOne(origin, run, Repair(v));
    longer := run + [Repair(v)];
  }

  lemma ListedExists(directory: map<nat, seq<Byte>>, listing: seq<DirEntry>, i: nat)
    requires Lists(DATA_SEGMENTS, listing, directory) && i < |listing| && !listing[i].isDir
    requires Parse(DATA_SEGMENTS, listing[i].name).Some?
    ensures Visible(directory, Parse(DATA_SEGMENTS, listing[i].name).value)
  {
    hide Parse, Name;
    NameOfParsed(DATA_SEGMENTS, listing[i].name);
    var v := Parse(DATA_SEGMENTS, listing[i].name).value;
    assert listing[i] == DirEntry(Name(DATA_SEGMENTS, v), false);
  }

  lemma ListedOnce(directory: map<nat, seq<Byte>>, listing: seq<DirEntry>, j: nat, i: nat)
    requires Lists(DATA_SEGMENTS, listing, directory) && j < i < |listing|
    requires Parse(DATA_SEGMENTS, listing[j].name).Some?
    ensures Parse(DATA_SEGMENTS, listing[j].name) != Parse(DATA_SEGMENTS, listing[i].name)
  {
    hide Parse, Name;
    NameOfParsed(DATA_SEGMENTS, listing[j].name);
    if Parse(DATA_SEGMENTS, listing[i].name).Some? {
      NameOfParsed(DATA_SEGMENTS, listing[i].name);
    }
  }

  lemma OpenReady(s: State, directory: map<nat, seq<Byte>>, listing: seq<DirEntry>, found: bool, sequence: nat)
    requires !s.open && s.disk.Keys == directory.Keys && Lists(DATA_SEGMENTS, listing, directory)
    requires if found then Visible(s.disk, sequence) else sequence == 1
    requires forall j :: 0 <= j < |listing| && !listing[j].isDir ==>
               var p := Parse(DATA_SEGMENTS, listing[j].name);
               p.Some? ==> found && p.value in s.disk && p.value <= sequence && |s.disk[p.value]| % RECORD_SIZE == 0
    ensures IsActive(s.disk, sequence) && AllWhole(s.disk) && (!found ==> sequence !in s.disk)
  {
    hide Parse, Name;
    forall w: nat | Visible(s.disk, w)
      ensures found && w <= sequence && |s.disk[w]| % RECORD_SIZE == 0
    {
      ParseOfName(DATA_SEGMENTS, w);
      var j :| 0 <= j < |listing| && listing[j] == DirEntry(Name(DATA_SEGMENTS, w), false);
    }
  }

  lemma OpenFacts(s: State, sequence: nat, rotation: nat)
    requires Enabled(s, Open(sequence, rotation))
    ensures var t, disk := Apply(s, Open(sequence, rotation)), Opened(s.disk, sequence);
            t.open && t.rotation == rotation && t.disk == disk && t.sequence == sequence && t.size == |disk[sequence]|
            && t.buffer == []
  {
    hide Flat, Records, IsActive, AllWhole;
  }

  lemma InvOpen(s: State, m: nat)
    requires Inv(s, m)
    ensures OpenInv(s)
  {
    hide Core, OpenInv;
  }

  lemma OpenEnabled(s: State, sequence: nat, rotation: nat)
    requires !s.open && rotation >= RECORD_SIZE && IsActive(s.disk, sequence) && AllWhole(s.disk)
    ensures Enabled(s, Open(sequence, rotation))
  {
  }

  /** Opening a directory that any earlier run left behind never fails for
      valid options, and goes on with exactly the records found there. */
  method OpenDataFile(ghost origin: State, ghost persisted: nat, ghost history: seq<Action>, rotation: nat,
                      bufferSize: nat,
                      directory: map<nat, seq<Byte>>, listing: seq<DirEntry>) returns (r: Result<DataFile>)
    requires Closable(origin, persisted, history, directory) && Lists(DATA_SEGMENTS, listing, directory)
    ensures r.Err? <==> bufferSize < 1 || rotation < 12
    ensures r.Ok? ==>
              var f := r.value;
              && fresh(f) && f.Valid() && !f.closed && f.buffer == [] && f.origin == origin && history <= f.run
              && f.rotation == rotation && f.bytesWritten == 0 && f.rotations == 0
              && (forall v: nat :: v in directory && 1 <= v <= MAX_SEQUENCE ==> v <= f.sequence)
              && (if f.sequence in directory
                  then f.size == |directory[f.sequence]| - |directory[f.sequence]| % 12
                  else f.sequence == 1 && f.size == 0)
              && f.state.written == Recovered(f.state) == Recovered(Exec(origin, history).value)
  {
    hide Inv, Exec, Enabled, Apply, Recovered, Lists, CutToRecords;
    if bufferSize < 1 || rotation < RECORD_SIZE {
      return Err(OutOfRange);
    }
    var sequence, size, disk, run := DiscoverAndRepair(origin, persisted, history, directory, listing);
    ghost var m := InvRun(origin, persisted, run);
    OpenEnabled(Exec(origin, run).value, sequence, rotation);
    OpensLargest(directory, disk, sequence);
    assert OpenInv(Exec(origin, run).value) by { InvOpen(Exec(origin, run).value, m); }
    OpenKeepsRecords(Exec(origin, run).value, sequence, rotation);
    var file := new DataFile(origin, persisted, run, rotation, bufferSize, disk, sequence, size);
    assert file.buffer + [] == file.buffer;
    r := Ok(file);
  }
}
