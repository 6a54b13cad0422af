/** The segmented data file as a machine: records enter a buffer, bytes of the
    buffer reach the newest segment, and a crash may come at any byte
    (sensor-server/data-file.go). */
module DataLog {
  import opened Words
  import opened Results
  import opened SegmentNames

  const RECORD_SIZE := 12

  datatype Record = Record(timestamp: Int64, value: Int32)

  function Encode(r: Record): (s: seq<Byte>)
    ensures |s| == RECORD_SIZE
  {
    Le(8, Unsigned64(r.timestamp)) + Le(4, Unsigned32(r.value))
  }

  function Decode(s: seq<Byte>): (r: Record)
    requires |s| == RECORD_SIZE
  {
    Pow256Values();
    Record(Signed64(LeValue(s[0..8])), Signed32(LeValue(s[8..12])))
  }

  lemma DecodeEncode(r: Record)
    ensures Decode(Encode(r)) == r
  {
    Pow256Values();
    LeRoundTrip(8, Unsigned64(r.timestamp));
    LeRoundTrip(4, Unsigned32(r.value));
    assert Encode(r)[0..8] == Le(8, Unsigned64(r.timestamp));
    assert Encode(r)[8..12] == Le(4, Unsigned32(r.value));
  }

  /** The twelve stored bytes: the timestamp, then the value, both little-endian in
      two's complement. */
  lemma RecordLayout(r: Record)
    ensures var t: int, v: int := r.timestamp, r.value;
            Encode(r) ==
            [t % 256, t / 0x100 % 256, t / 0x1_0000 % 256, t / 0x100_0000 % 256,
             t / 0x1_0000_0000 % 256, t / 0x100_0000_0000 % 256,
             t / 0x1_0000_0000_0000 % 256, t / 0x100_0000_0000_0000 % 256,
             v % 256, v / 0x100 % 256, v / 0x1_0000 % 256, v / 0x100_0000 % 256]
  {
    hide Le;
    SignedBytes8(r.timestamp);
    SignedBytes4(r.value);
  }

  function Bytes(rs: seq<Record>): (s: seq<Byte>)
    ensures |s| == RECORD_SIZE * |rs|
  {
    if rs == [] then [] else Bytes(rs[..|rs| - 1]) + Encode(rs[|rs| - 1])
  }

  function Records(s: seq<Byte>): (rs: seq<Record>)
  {
    seq(|s| / RECORD_SIZE, i requires 0 <= i < |s| / RECORD_SIZE =>
        Decode(s[RECORD_SIZE * i..RECORD_SIZE * i + RECORD_SIZE]))
  }

  lemma {:induction false} BytesAt(rs: seq<Record>, n: nat)
    requires n < |rs|
    ensures Bytes(rs)[RECORD_SIZE * n..RECORD_SIZE * n + RECORD_SIZE] == Encode(rs[n])
  {
    hide Encode;
    var front := rs[..|rs| - 1];
    if n < |rs| - 1 {
      BytesAt(front, n);
      assert Bytes(rs)[RECORD_SIZE * n..RECORD_SIZE * n + RECORD_SIZE] ==
             Bytes(front)[RECORD_SIZE * n..RECORD_SIZE * n + RECORD_SIZE];
    }
  }

  /** The whole records in any prefix of the encoding are a prefix of the list. */
  lemma RecordsOfPrefix(rs: seq<Record>, m: nat)
    requires m <= RECORD_SIZE * |rs|
    ensures Records(Bytes(rs)[..m]) == rs[..m / RECORD_SIZE]
  {
    hide Encode, Decode, Bytes;
    forall n | 0 <= n < m / RECORD_SIZE
      ensures RECORD_SIZE * n + RECORD_SIZE <= m
      ensures Decode(Bytes(rs)[..m][RECORD_SIZE * n..RECORD_SIZE * n + RECORD_SIZE]) == rs[n]
    {
      RecordOfPrefix(rs, m, n);
    }
  }

  lemma RecordOfPrefix(rs: seq<Record>, m: nat, n: nat)
    requires m <= RECORD_SIZE * |rs| && RECORD_SIZE * n + RECORD_SIZE <= m
    ensures Decode(Bytes(rs)[..m][RECORD_SIZE * n..RECORD_SIZE * n + RECORD_SIZE]) == rs[n]
  {
    hide Encode, Decode, Bytes;
    BytesAt(rs, n);
    DecodeEncode(rs[n]);
    assert Bytes(rs)[..m][RECORD_SIZE * n..RECORD_SIZE * n + RECORD_SIZE] ==
           Bytes(rs)[RECORD_SIZE * n..RECORD_SIZE * n + RECORD_SIZE];
  }

  /** What repair keeps of a segment. */
  function Whole(file: seq<Byte>): (w: seq<Byte>)
    ensures |w| == |file| - |file| % RECORD_SIZE
  {
    file[..|file| - |file| % RECORD_SIZE]
  }

  /** The whole records of segments 1 to n, in sequence order. */
  function Flat(disk: map<nat, seq<Byte>>, n: nat): (s: seq<Byte>)
  {
    if n == 0 then [] else Flat(disk, n - 1) + if n in disk then Whole(disk[n]) else []
  }

  /** Only the whole records of a segment count. */
  lemma {:induction false} SameFlat(disk: map<nat, seq<Byte>>, other: map<nat, seq<Byte>>, n: nat)
    requires forall v: nat :: 1 <= v <= n && v in disk ==> v in other && Whole(disk[v]) == Whole(other[v])
    requires forall v: nat :: 1 <= v <= n && v in other && v !in disk ==> Whole(other[v]) == []
    ensures Flat(disk, n) == Flat(other, n)
  {
    hide Whole;
    if n > 0 {
      SameFlat(disk, other, n - 1);
    }
  }

  /** Repair keeps what a reader finds. */
  lemma RepairKeepsRecords(disk: map<nat, seq<Byte>>, v: nat, n: nat)
    requires v in disk
    ensures Flat(disk[v := Whole(disk[v])], n) == Flat(disk, n)
  {
    assert Whole(Whole(disk[v])) == Whole(disk[v]);
    SameFlat(disk, disk[v := Whole(disk[v])], n);
  }

  // ---- the machine ----

  /** written are the records of this session: those found when the file was
      opened, then those accepted since. flushed counts the ones that a
      successful flush has covered, cuts are the bytes of the record stream at
      which the segments begin, and largest is the largest rotation size that
      any session had. */
  datatype State = State(
    rotation: nat, disk: map<nat, seq<Byte>>, top: nat,
    open: bool, sequence: nat, size: nat, buffer: seq<Byte>,
    written: seq<Record>, flushed: nat, cuts: seq<nat>, largest: nat)

  datatype Action =
    | Repair(target: nat)
    | Open(number: nat, limit: nat)
    | Accept(record: Record)
    | Emit(count: nat)
    | Flushed
    | Rotate
    | Crash

  function Initial(): (s: State)
  {
    State(0, map[], 0, false, 0, 0, [], [], 0, [], 0)
  }

  predicate Visible(disk: map<nat, seq<Byte>>, v: nat)
  {
    v in disk && 1 <= v <= MAX_SEQUENCE
  }

  /** The last segment that discovery recognises. */
  function Reach(top: nat): (n: nat)
    ensures n <= top && n <= MAX_SEQUENCE && (top <= MAX_SEQUENCE ==> n == top)
  {
    if top <= MAX_SEQUENCE then top else MAX_SEQUENCE
  }

  /** What a reader finds in the directory. */
  function Recovered(s: State): (rs: seq<Record>)
  {
    Records(Flat(s.disk, Reach(s.top)))
  }

  /** Discovery: the largest visible segment, or the first. */
  ghost predicate IsActive(disk: map<nat, seq<Byte>>, v: nat)
  {
    && (forall w: nat :: Visible(disk, w) ==> w <= v)
    && 1 <= v <= MAX_SEQUENCE && (v == 1 || Visible(disk, v))
  }

  ghost predicate AllWhole(disk: map<nat, seq<Byte>>)
  {
    forall w: nat :: Visible(disk, w) ==> |disk[w]| % RECORD_SIZE == 0
  }

  ghost predicate Enabled(s: State, a: Action)
  {
    match a
    case Repair(v) => !s.open && Visible(s.disk, v)
    case Open(v, limit) => !s.open && limit >= RECORD_SIZE && IsActive(s.disk, v) && AllWhole(s.disk)
    case Accept(_) => s.open && s.size + RECORD_SIZE <= s.rotation
    case Emit(k) => s.open && k <= |s.buffer| && s.sequence in s.disk
    case Flushed => s.open && s.buffer == []
    case Rotate => s.open && s.buffer == [] && s.size + RECORD_SIZE > s.rotation
    case Crash => s.open
  }

  function Opened(disk: map<nat, seq<Byte>>, v: nat): (d: map<nat, seq<Byte>>)
    ensures v in d
  {
    if v in disk then disk else disk[v := []]
  }

  ghost function ApplyOpen(s: State, v: nat, limit: nat): (t: State)
  {
    var disk, top := Opened(s.disk, v), if v > s.top then v else s.top;
    s.(rotation := limit, disk := disk, top := top, open := true, sequence := v, size := |disk[v]|, buffer := [],
       written := Records(Flat(disk, Reach(top))), flushed := |Records(Flat(disk, Reach(top)))|,
       cuts := if s.top == 0 then [0] else s.cuts, largest := if limit > s.largest then limit else s.largest)
  }

  ghost function Apply(s: State, a: Action): (t: State)
    requires Enabled(s, a)
  {
    match a
    case Repair(v) => s.(disk := s.disk[v := Whole(s.disk[v])])
    case Open(v, limit) => ApplyOpen(s, v, limit)
    case Accept(r) => s.(buffer := s.buffer + Encode(r), size := s.size + RECORD_SIZE, written := s.written + [r])
    case Emit(k) => s.(disk := s.disk[s.sequence := s.disk[s.sequence] + s.buffer[..k]], buffer := s.buffer[k..])
    case Flushed => s.(flushed := |s.written|)
    case Rotate =>
      s.(disk := Opened(s.disk, s.sequence + 1), top := if s.sequence < s.top then s.top else s.sequence + 1,
         sequence := s.sequence + 1, size := 0, cuts := s.cuts + [RECORD_SIZE * |s.written|])
    case Crash => s.(open := false, buffer := [])
  }

  ghost function Exec(s: State, actions: seq<Action>): (r: Result<State>)
    decreases |actions|
  {
    if actions == [] then Ok(s)
    else if !Enabled(s, actions[0]) then Err(NotEnabled)
    else Exec(Apply(s, actions[0]), actions[1..])
  }

  lemma {:induction false} ExecConcat(s: State, first: seq<Action>, second: seq<Action>)
    requires Exec(s, first).Ok?
    ensures Exec(s, first + second) == Exec(Exec(s, first).value, second)
    decreases |first|
  {
    hide Enabled, Apply;
    if first == [] {
      assert first + second == second;
    } else {
      ExecConcat(Apply(s, first[0]), first[1..], second);
      assert (first + second)[1..] == first[1..] + second;
    }
  }

  lemma ExecOne(s: State, actions: seq<Action>, a: Action)
    requires Exec(s, actions).Ok? && Enabled(Exec(s, actions).value, a)
    ensures Exec(s, actions + [a]) == Ok(Apply(Exec(s, actions).value, a))
  {
    hide Enabled, Apply;
    ExecConcat(s, actions, [a]);
    assert Exec(Apply(Exec(s, actions).value, a), [a][1..]) == Ok(Apply(Exec(s, actions).value, a));
  }

  // ---- the layout ----

  /** Segments begin at record boundaries, in order, the first one at zero. */
  ghost predicate Boundaries(cuts: seq<nat>, m: nat)
  {
    && (cuts == [] ==> m == 0)
    && (cuts != [] ==> cuts[0] == 0 && cuts[|cuts| - 1] <= m)
    && (forall i, j :: 0 <= i < j < |cuts| ==> cuts[i] <= cuts[j])
    && (forall i :: 0 <= i < |cuts| ==> cuts[i] % RECORD_SIZE == 0)
  }

  /** Where segment v ends. */
  function EndOf(cuts: seq<nat>, m: nat, v: nat): (n: nat)
  {
    if v < |cuts| then cuts[v] else m
  }

  /** The segments cut the first m bytes of the stream at the given places. */
  ghost predicate Pieces(disk: map<nat, seq<Byte>>, stream: seq<Byte>, cuts: seq<nat>, m: nat)
  {
    && m <= |stream| && Boundaries(cuts, m)
    && (forall v: nat :: v in disk <==> 1 <= v <= |cuts|)
    && (forall v: nat :: 1 <= v <= |cuts| ==> PieceIs(disk, stream, cuts, m, v))
  }

  ghost predicate PieceIs(disk: map<nat, seq<Byte>>, stream: seq<Byte>, cuts: seq<nat>, m: nat, v: nat)
    requires 1 <= v <= |cuts|
  {
    v in disk && cuts[v - 1] <= EndOf(cuts, m, v) <= |stream| && disk[v] == stream[cuts[v - 1]..EndOf(cuts, m, v)]
  }

  /** What every state has. */
  ghost predicate OpenInv(s: State)
  {
    && (forall v: nat :: v in s.disk ==> 1 <= v <= s.top)
    && (s.open ==> s.sequence in s.disk && s.rotation >= RECORD_SIZE)
  }

  /** The layout holds as long as every segment has a name that discovery
      recognises. */
  ghost predicate Inv(s: State, m: nat)
  {
    OpenInv(s) && (s.top <= MAX_SEQUENCE ==> Core(s, m))
  }

  ghost predicate Core(s: State, m: nat)
  {
    && s.top <= MAX_SEQUENCE && |s.cuts| == s.top
    && Pieces(s.disk, Bytes(s.written), s.cuts, m)
    && RECORD_SIZE * s.flushed <= m
    && (s.open ==>
          && s.sequence == s.top > 0 && s.rotation >= RECORD_SIZE
          && s.buffer == Bytes(s.written)[m..]
          && s.size == RECORD_SIZE * |s.written| - s.cuts[s.top - 1])
  }

  lemma ModShift(m: nat, a: nat)
    requires a <= m && a % RECORD_SIZE == 0
    ensures (m - a) % RECORD_SIZE == m % RECORD_SIZE
  {
    var q := a / RECORD_SIZE;
    assert m - a == m - RECORD_SIZE * q;
  }

  lemma WholeTail(stream: seq<Byte>, a: nat, m: nat)
    requires a <= m <= |stream| && a % RECORD_SIZE == 0
    ensures a <= m - m % RECORD_SIZE && Whole(stream[a..m]) == stream[a..m - m % RECORD_SIZE]
    ensures stream[..a] + Whole(stream[a..m]) == stream[..m - m % RECORD_SIZE]
  {
    ModShift(m, a);
    var stop := m - m % RECORD_SIZE;
    assert a <= stop;
    assert Whole(stream[a..m]) == stream[a..stop];
  }

  lemma {:induction false} FlatOfFull(disk: map<nat, seq<Byte>>, stream: seq<Byte>, cuts: seq<nat>, m: nat, k: nat)
    requires Pieces(disk, stream, cuts, m) && k < |cuts|
    ensures cuts[k] <= m && Flat(disk, k) == stream[..cuts[k]]
  {
    hide Whole;
    if k > 0 {
      FlatOfFull(disk, stream, cuts, m, k - 1);
      assert PieceIs(disk, stream, cuts, m, k);
      WholeTail(stream, cuts[k - 1], cuts[k]);
    }
  }

  /** The whole records on disk are the whole records among the first m bytes. */
  lemma FlatOfPieces(disk: map<nat, seq<Byte>>, stream: seq<Byte>, cuts: seq<nat>, m: nat)
    requires Pieces(disk, stream, cuts, m)
    ensures Flat(disk, |cuts|) == stream[..m - m % RECORD_SIZE]
  {
    hide Whole;
    var n := |cuts|;
    if n > 0 {
      FlatOfFull(disk, stream, cuts, m, n - 1);
      assert PieceIs(disk, stream, cuts, m, n);
      WholeTail(stream, cuts[n - 1], m);
    }
  }

  lemma {:induction false} BytesPrefix(rs: seq<Record>, n: nat)
    requires n <= |rs|
    ensures Bytes(rs[..n]) == Bytes(rs)[..RECORD_SIZE * n]
    decreases |rs|
  {
    hide Encode;
    if n == |rs| {
      assert rs[..n] == rs;
    } else {
      var front := rs[..|rs| - 1];
      BytesPrefix(front, n);
      assert front[..n] == rs[..n];
      assert Bytes(rs)[..RECORD_SIZE * n] == Bytes(front)[..RECORD_SIZE * n];
    }
  }

  /** In every state of the machine, crashed or not, the directory holds a
      prefix of the session's records that covers the last flush. */
  lemma RecoveredIsPrefix(s: State, m: nat)
    requires Core(s, m)
    ensures m <= RECORD_SIZE * |s.written|
    ensures Recovered(s) == s.written[..m / RECORD_SIZE] && s.flushed <= m / RECORD_SIZE
  {
    hide Bytes, Flat, Pieces, Records;
    PiecesBound(s, m);
    FlatOfPieces(s.disk, Bytes(s.written), s.cuts, m);
    RecordsOfPrefix(s.written, m - m % RECORD_SIZE);
  }

  lemma PiecesBound(s: State, m: nat)
    requires Core(s, m)
    ensures m <= RECORD_SIZE * |s.written|
    ensures s.top > 0 ==> s.cuts[s.top - 1] <= m && s.cuts[s.top - 1] % RECORD_SIZE == 0
  {
    hide Bytes, PieceIs;
  }

  /** The number of persistent bytes after a step. */
  function Persisted(s: State, m: nat, a: Action): (n: nat)
  {
    match a
    case Emit(k) => m + k
    case Repair(v) => if v == s.top then m - m % RECORD_SIZE else m
    case _ => m
  }

  lemma CoreStep(s: State, m: nat, a: Action)
    requires Core(s, m) && Enabled(s, a) && Apply(s, a).top <= MAX_SEQUENCE
    ensures Core(Apply(s, a), Persisted(s, m, a))
  {
    hide Bytes, Flat, Records, Encode, Pieces, ApplyOpen, IsActive, AllWhole;
    match a
    case Repair(v) => RepairStep(s, m, v);
    case Open(v, limit) => OpenStep(s, m, v, limit);
    case Accept(r) => AcceptStep(s, m, r);
    case Emit(k) => EmitStep(s, m, k);
    case Flushed => PiecesBound(s, m);
    case Rotate => RotateStep(s, m);
    case Crash =>
  }

  lemma TopGrows(s: State, a: Action)
    requires Enabled(s, a)
    ensures s.top <= Apply(s, a).top
  {
    hide Records, Flat, Encode, Whole, IsActive, AllWhole;
  }

  lemma OpenStays(s: State, a: Action)
    requires OpenInv(s) && Enabled(s, a)
    ensures OpenInv(Apply(s, a))
  {
    hide Records, Flat, Encode, Whole, AllWhole;
  }

  lemma InvStep(s: State, m: nat, a: Action)
    requires Inv(s, m) && Enabled(s, a)
    ensures Inv(Apply(s, a), Persisted(s, m, a))
  {
    hide Core, OpenInv, Enabled, Apply, Persisted;
    OpenStays(s, a);
    TopGrows(s, a);
    if Apply(s, a).top <= MAX_SEQUENCE {
      CoreStep(s, m, a);
    }
  }

  lemma {:induction false} TopRun(s: State, actions: seq<Action>)
    requires Exec(s, actions).Ok?
    ensures s.top <= Exec(s, actions).value.top
    decreases |actions|
  {
    hide Enabled, Apply;
    if actions != [] {
      TopGrows(s, actions[0]);
      TopRun(Apply(s, actions[0]), actions[1..]);
    }
  }

  lemma RepairStep(s: State, m: nat, v: nat)
    requires Core(s, m) && Enabled(s, Repair(v))
    ensures Core(Apply(s, Repair(v)), Persisted(s, m, Repair(v)))
  {
    hide Bytes, Pieces, Whole;
    assert 1 <= v <= s.top by { VisibleBelowTop(s, m, v); }
    PiecesRepaired(s.disk, Bytes(s.written), s.cuts, m, v);
  }

  lemma VisibleBelowTop(s: State, m: nat, v: nat)
    requires Core(s, m) && Visible(s.disk, v)
    ensures 1 <= v <= s.top
  {
    hide Bytes, PieceIs;
  }

  /** Cutting the last piece to whole records drops less than a record; the
      others are whole already. */
  lemma PiecesRepaired(disk: map<nat, seq<Byte>>, stream: seq<Byte>, cuts: seq<nat>, m: nat, v: nat)
    requires Pieces(disk, stream, cuts, m) && 1 <= v <= |cuts|
    ensures v in disk && Pieces(disk[v := Whole(disk[v])], stream, cuts, if v == |cuts| then m - m % RECORD_SIZE else m)
  {
    hide Whole;
    var n := |cuts|;
    assert PieceIs(disk, stream, cuts, m, v);
    WholeTail(stream, cuts[v - 1], EndOf(cuts, m, v));
    if v < n {
      assert disk[v := Whole(disk[v])] == disk;
    } else {
      var stop, d := m - m % RECORD_SIZE, disk[v := Whole(disk[v])];
      forall w: nat | 1 <= w <= n
        ensures PieceIs(d, stream, cuts, stop, w)
      {
        assert PieceIs(disk, stream, cuts, m, w);
      }
    }
  }

  lemma OpenStep(s: State, m: nat, v: nat, limit: nat)
    requires Core(s, m) && Enabled(s, Open(v, limit))
    ensures Core(Apply(s, Open(v, limit)), m)
  {
    hide Bytes, Flat, Records, Pieces, IsActive, AllWhole;
    var t := Apply(s, Open(v, limit));
    if s.top == 0 {
      NothingYet(s, m, v, limit);
      RecoveredIsPrefix(s, m);
      FirstPiece();
    } else {
      ActiveIsTop(s, m, v, limit);
      RecoveredIsPrefix(s, m);
      BytesPrefix(s.written, m / RECORD_SIZE);
      PiecesOfPrefix(s.disk, Bytes(s.written), s.cuts, m);
      assert t.disk == s.disk;
      PiecesBound(s, m);
    }
  }

  lemma NothingYet(s: State, m: nat, v: nat, limit: nat)
    requires Core(s, m) && Enabled(s, Open(v, limit)) && s.top == 0
    ensures v == 1 && s.disk == map[] && m == 0
  {
    hide Bytes, PieceIs;
  }

  /** The opened segment is the last one, and it is whole. */
  lemma ActiveIsTop(s: State, m: nat, v: nat, limit: nat)
    requires Core(s, m) && Enabled(s, Open(v, limit)) && s.top > 0
    ensures v == s.top && v in s.disk && m % RECORD_SIZE == 0 && |s.disk[v]| == m - s.cuts[s.top - 1]
  {
    hide Bytes;
    assert Visible(s.disk, s.top);
    assert PieceIs(s.disk, Bytes(s.written), s.cuts, m, s.top);
    ModShift(m, s.cuts[s.top - 1]);
  }

  lemma FirstPiece()
    ensures Flat(map[1 := []], 1) == [] && Records([]) == [] && Bytes([]) == [] && Pieces(map[1 := []], [], [0], 0)
  {
    assert Flat(map[1 := []], 0) == [];
  }

  lemma PiecesOfPrefix(disk: map<nat, seq<Byte>>, stream: seq<Byte>, cuts: seq<nat>, m: nat)
    requires Pieces(disk, stream, cuts, m)
    ensures Pieces(disk, stream[..m], cuts, m)
  {
    forall v: nat | 1 <= v <= |cuts|
      ensures PieceIs(disk, stream[..m], cuts, m, v)
    {
      assert PieceIs(disk, stream, cuts, m, v);
      assert EndOf(cuts, m, v) <= m;
      Slice(stream, 0, m, cuts[v - 1], EndOf(cuts, m, v));
      assert stream[0..m] == stream[..m];
    }
  }

  lemma PiecesOfLonger(disk: map<nat, seq<Byte>>, stream: seq<Byte>, more: seq<Byte>, cuts: seq<nat>, m: nat)
    requires Pieces(disk, stream, cuts, m)
    ensures Pieces(disk, stream + more, cuts, m)
  {
    forall v: nat | 1 <= v <= |cuts|
      ensures PieceIs(disk, stream + more, cuts, m, v)
    {
      assert PieceIs(disk, stream, cuts, m, v);
    }
  }

  lemma BytesAppend(rs: seq<Record>, r: Record)
    ensures Bytes(rs + [r]) == Bytes(rs) + Encode(r)
  {
    assert (rs + [r])[..|rs|] == rs;
  }

  lemma AcceptStep(s: State, m: nat, r: Record)
    requires Core(s, m) && Enabled(s, Accept(r))
    ensures Core(Apply(s, Accept(r)), m)
  {
    hide Encode, Bytes, Pieces;
    var stream := Bytes(s.written);
    BytesAppend(s.written, r);
    PiecesOfLonger(s.disk, stream, Encode(r), s.cuts, m);
    PiecesBound(s, m);
    assert (stream + Encode(r))[m..] == stream[m..] + Encode(r);
  }

  lemma EmitStep(s: State, m: nat, k: nat)
    requires Core(s, m) && Enabled(s, Emit(k))
    ensures Core(Apply(s, Emit(k)), m + k)
  {
    hide Bytes, Pieces;
    var stream := Bytes(s.written);
    PiecesBound(s, m);
    assert stream[m..][k..] == stream[m + k..] && stream[m..][..k] == stream[m..m + k];
    PiecesEmitted(s.disk, stream, s.cuts, m, k);
  }

  lemma PiecesEmitted(disk: map<nat, seq<Byte>>, stream: seq<Byte>, cuts: seq<nat>, m: nat, k: nat)
    requires Pieces(disk, stream, cuts, m) && cuts != [] && m + k <= |stream|
    ensures |cuts| in disk && Pieces(disk[|cuts| := disk[|cuts|] + stream[m..m + k]], stream, cuts, m + k)
  {
    var n := |cuts|;
    assert PieceIs(disk, stream, cuts, m, n);
    assert stream[cuts[n - 1]..m] + stream[m..m + k] == stream[cuts[n - 1]..m + k];
    var d, stop := disk[n := disk[n] + stream[m..m + k]], m + k;
    forall v: nat | 1 <= v <= n
      ensures PieceIs(d, stream, cuts, stop, v)
    {
      assert PieceIs(disk, stream, cuts, m, v);
    }
  }

  lemma RotateStep(s: State, m: nat)
    requires Core(s, m) && Enabled(s, Rotate) && Apply(s, Rotate).top <= MAX_SEQUENCE
    ensures Core(Apply(s, Rotate), m)
  {
    hide Bytes, Pieces;
    PiecesBound(s, m);
    assert m == RECORD_SIZE * |s.written|;
    PiecesRotated(s.disk, Bytes(s.written), s.cuts, m);
  }

  lemma PiecesRotated(disk: map<nat, seq<Byte>>, stream: seq<Byte>, cuts: seq<nat>, m: nat)
    requires Pieces(disk, stream, cuts, m) && cuts != [] && m % RECORD_SIZE == 0
    ensures Pieces(Opened(disk, |cuts| + 1), stream, cuts + [m], m)
  {
    var n, d := |cuts|, Opened(disk, |cuts| + 1);
    assert n + 1 !in disk;
    assert d == disk[n + 1 := []];
    forall v: nat | 1 <= v <= n + 1
      ensures PieceIs(d, stream, cuts + [m], m, v)
    {
      if v <= n {
        assert PieceIs(disk, stream, cuts, m, v);
      }
    }
  }

  // ---- over whole histories ----

  lemma {:induction false} InvRun(s: State, m: nat, actions: seq<Action>) returns (n: nat)
    requires Inv(s, m) && Exec(s, actions).Ok?
    ensures Inv(Exec(s, actions).value, n)
    decreases |actions|
  {
    hide Inv, Enabled, Apply, Persisted;
    if actions == [] {
      n := m;
    } else {
      InvStep(s, m, actions[0]);
      n := InvRun(Apply(s, actions[0]), Persisted(s, m, actions[0]), actions[1..]);
    }
  }

  lemma InitialInv()
    ensures Inv(Initial(), 0) && Core(Initial(), 0)
  {
  }

  /** Crash recovery: after any run of writes, flushes, rotations, crashes at
      any byte and restarts, with any options, the directory read in sequence
      order holds a prefix of the records of the session, and all that the last
      successful flush covered. */
  lemma CrashRecovery(actions: seq<Action>)
    requires Exec(Initial(), actions).Ok? && Exec(Initial(), actions).value.top <= MAX_SEQUENCE
    ensures var s := Exec(Initial(), actions).value;
            Recovered(s) <= s.written && s.flushed <= |Recovered(s)|
  {
    hide Core, Exec, Recovered, OpenInv;
    InitialInv();
    var m := InvRun(Initial(), 0, actions);
    RecoveredIsPrefix(Exec(Initial(), actions).value, m);
  }

  /** Opening loses nothing of what was there and adds nothing to it. */
  lemma OpenKeepsRecords(s: State, v: nat, limit: nat)
    requires OpenInv(s) && Enabled(s, Open(v, limit))
    ensures Apply(s, Open(v, limit)).written == Recovered(s) == Recovered(Apply(s, Open(v, limit)))
  {
    hide Records, AllWhole;
    var t := Apply(s, Open(v, limit));
    if v in s.disk {
      assert t.top == s.top;
    } else {
      assert v == 1;
      SameFlat(s.disk, t.disk, Reach(s.top));
      if s.top == 0 {
        assert Flat(t.disk, 1) == Flat(t.disk, 0) + Whole([]);
      }
    }
  }

  lemma CoreOpen(s: State, m: nat)
    requires Core(s, m)
    ensures OpenInv(s)
  {
    hide Bytes, PieceIs;
  }

  /** A step forgets no flushed record. */
  lemma FlushedStep(s: State, m: nat, a: Action)
    requires Core(s, m) && Enabled(s, a)
    ensures s.flushed <= |s.written|
    ensures var t := Apply(s, a);
            s.flushed <= t.flushed <= |t.written| && t.written[..s.flushed] == s.written[..s.flushed]
  {
    hide Bytes, Flat, Records, Pieces, Encode, Core, Recovered, IsActive, AllWhole;
    RecoveredIsPrefix(s, m);
    if a.Open? {
      assert OpenInv(s) by { CoreOpen(s, m); }
      OpenKeepsRecords(s, a.number, a.limit);
      assert Apply(s, a).flushed == |Apply(s, a).written| by { hide Opened; }
    }
  }

  lemma {:induction false} FlushedRun(s: State, m: nat, actions: seq<Action>)
    requires Core(s, m) && Exec(s, actions).Ok? && Exec(s, actions).value.top <= MAX_SEQUENCE
    ensures var t := Exec(s, actions).value;
            s.flushed <= |s.written| && s.flushed <= t.flushed <= |t.written|
            && t.written[..s.flushed] == s.written[..s.flushed]
    decreases |actions|
  {
    hide Core, Enabled, Apply, Persisted;
    if actions == [] {
      RecoveredIsPrefix(s, m);
    } else {
      var t := Apply(s, actions[0]);
      TopRun(t, actions[1..]);
      CoreStep(s, m, actions[0]);
      FlushedStep(s, m, actions[0]);
      FlushedRun(t, Persisted(s, m, actions[0]), actions[1..]);
      var u := Exec(s, actions).value;
      assert u.written[..s.flushed] == u.written[..t.flushed][..s.flushed] == t.written[..t.flushed][..s.flushed];
    }
  }

  /** Whatever comes after, with crashes and restarts, the records that a flush
      has covered are found first, in order, ever after. */
  lemma FlushedForEver(before: seq<Action>, after: seq<Action>)
    requires Exec(Initial(), before).Ok? && Exec(Exec(Initial(), before).value, after).Ok?
    requires Exec(Exec(Initial(), before).value, after).value.top <= MAX_SEQUENCE
    ensures var s := Exec(Initial(), before).value;
            var t := Exec(s, after).value;
            s.flushed <= |s.written| && s.written[..s.flushed] <= Recovered(t)
  {
    hide Core, Exec, Recovered, OpenInv;
    InitialInv();
    var s := Exec(Initial(), before).value;
    var m := InvRun(Initial(), 0, before);
    var t := Exec(s, after).value;
    TopRun(s, after);
    FlushedRun(s, m, after);
    var n := InvRun(s, m, after);
    RecoveredIsPrefix(t, n);
    assert t.written[..n / RECORD_SIZE][..s.flushed] == t.written[..s.flushed];
  }

  // ---- how large segments are ----

  /** No segment exceeds the largest rotation size so far. */
  ghost predicate Bounded(s: State, m: nat)
  {
    && (forall v: nat :: 1 <= v <= |s.cuts| ==> EndOf(s.cuts, m, v) - (s.cuts[v - 1] as int) <= s.largest)
    && (s.open ==> s.rotation <= s.largest && s.size <= s.largest)
  }

  lemma BoundedStep(s: State, m: nat, a: Action)
    requires Core(s, m) && Bounded(s, m) && Enabled(s, a)
    ensures Bounded(Apply(s, a), Persisted(s, m, a))
  {
    hide Bytes, Flat, Records, Pieces, Encode, Whole, IsActive, AllWhole;
    PiecesBound(s, m);
    var t, n := Apply(s, a), Persisted(s, m, a);
    if a.Open? {
      OpenBounded(s, m, a.number, a.limit);
    } else {
      forall v: nat | 1 <= v <= |t.cuts|
        ensures EndOf(t.cuts, n, v) - (t.cuts[v - 1] as int) <= t.largest
      {
        assert v <= |s.cuts| ==> EndOf(s.cuts, m, v) - (s.cuts[v - 1] as int) <= s.largest;
      }
    }
  }

  lemma OpenBounded(s: State, m: nat, v: nat, limit: nat)
    requires Core(s, m) && Bounded(s, m) && Enabled(s, Open(v, limit))
    ensures Bounded(Apply(s, Open(v, limit)), m)
  {
    hide Bytes, Flat, Records, Pieces, IsActive, AllWhole;
    if s.top == 0 {
      NothingYet(s, m, v, limit);
    } else {
      ActiveIsTop(s, m, v, limit);
      assert EndOf(s.cuts, m, s.top) == m;
    }
  }

  lemma {:induction false} BoundedRun(s: State, m: nat, actions: seq<Action>) returns (n: nat)
    requires Core(s, m) && Bounded(s, m) && Exec(s, actions).Ok? && Exec(s, actions).value.top <= MAX_SEQUENCE
    ensures Core(Exec(s, actions).value, n) && Bounded(Exec(s, actions).value, n)
    decreases |actions|
  {
    hide Core, Bounded, Enabled, Apply, Persisted;
    if actions == [] {
      n := m;
    } else {
      TopRun(Apply(s, actions[0]), actions[1..]);
      CoreStep(s, m, actions[0]);
      BoundedStep(s, m, actions[0]);
      n := BoundedRun(Apply(s, actions[0]), Persisted(s, m, actions[0]), actions[1..]);
    }
  }

  /** Over all runs no segment exceeds the largest rotation size in force so far. */
  lemma SegmentsBounded(actions: seq<Action>, v: nat)
    requires Exec(Initial(), actions).Ok? && Exec(Initial(), actions).value.top <= MAX_SEQUENCE
    requires v in Exec(Initial(), actions).value.disk
    ensures |Exec(Initial(), actions).value.disk[v]| <= Exec(Initial(), actions).value.largest
  {
    hide Exec, Bytes;
    InitialInv();
    var m := BoundedRun(Initial(), 0, actions);
    var s := Exec(Initial(), actions).value;
    assert PieceIs(s.disk, Bytes(s.written), s.cuts, m, v);
  }

  // ---- addressing under one rotation size ----

  /** The bytes a full segment holds: as many records as fit. */
  function Capacity(rotation: nat): (c: nat)
    ensures c <= rotation && c % RECORD_SIZE == 0 && c == RECORD_SIZE * (rotation / RECORD_SIZE)
  {
    RECORD_SIZE * (rotation / RECORD_SIZE)
  }

  /** Every session has the given rotation size. */
  ghost predicate OpensWith(actions: seq<Action>, rotation: nat)
  {
    forall i :: 0 <= i < |actions| && actions[i].Open? ==> actions[i].limit == rotation
  }

  /** Segment v + 1 begins after v full segments. */
  function Start(c: nat, v: nat): (n: nat)
  {
    if v == 0 then 0 else Start(c, v - 1) + c
  }

  /** All segments but the last are full. */
  ghost predicate Even(s: State, m: nat, rotation: nat)
  {
    var c := Capacity(rotation);
    && (forall i :: 0 <= i < |s.cuts| ==> s.cuts[i] == Start(c, i))
    && (s.cuts != [] ==> m - s.cuts[|s.cuts| - 1] <= c)
    && (s.open ==> s.rotation == rotation && s.size <= c)
  }

  /** A record that does not exceed the rotation size fits the capacity. */
  lemma FitsCapacity(rotation: nat, size: nat)
    requires size % RECORD_SIZE == 0
    ensures size + RECORD_SIZE <= rotation <==> size + RECORD_SIZE <= Capacity(rotation)
    ensures size <= Capacity(rotation) && size + RECORD_SIZE > rotation ==> size == Capacity(rotation)
  {
    var q := size / RECORD_SIZE;
    assert size == RECORD_SIZE * q;
  }

  lemma EvenStep(s: State, m: nat, a: Action, rotation: nat)
    requires Core(s, m) && Even(s, m, rotation) && Enabled(s, a) && (a.Open? ==> a.limit == rotation)
    ensures Even(Apply(s, a), Persisted(s, m, a), rotation)
  {
    hide Bytes, Flat, Records, Pieces, Encode, Whole, Capacity, IsActive, AllWhole, ApplyOpen, Opened;
    if a.Open? {
      OpenEven(s, m, a.number, rotation);
    } else if a.Rotate? {
      RotateEven(s, m, rotation);
    } else if s.open {
      PiecesBound(s, m);
      SizeWhole(s, m);
      FitsCapacity(rotation, s.size);
    }
  }

  lemma SizeWhole(s: State, m: nat)
    requires Core(s, m) && s.open
    ensures s.size % RECORD_SIZE == 0 && m - s.cuts[s.top - 1] <= s.size
  {
    hide Bytes, Pieces;
    PiecesBound(s, m);
    ModShift(RECORD_SIZE * |s.written|, s.cuts[s.top - 1]);
    MultipleOf(|s.written|);
  }

  lemma MultipleOf(n: nat)
    ensures (RECORD_SIZE * n) % RECORD_SIZE == 0
  {
  }

  lemma RotateEven(s: State, m: nat, rotation: nat)
    requires Core(s, m) && Even(s, m, rotation) && Enabled(s, Rotate)
    ensures Even(Apply(s, Rotate), m, rotation)
  {
    hide Bytes, Pieces, Capacity, Opened;
    PiecesBound(s, m);
    SizeWhole(s, m);
    FitsCapacity(rotation, s.size);
    assert s.cuts[s.top - 1] == Start(Capacity(rotation), s.top - 1);
  }

  lemma OpenEven(s: State, m: nat, v: nat, rotation: nat)
    requires Core(s, m) && Even(s, m, rotation) && Enabled(s, Open(v, rotation))
    ensures Even(Apply(s, Open(v, rotation)), m, rotation)
  {
    hide Bytes, Flat, Records, Pieces, IsActive, AllWhole;
    if s.top == 0 {
      NothingYet(s, m, v, rotation);
    } else {
      ActiveIsTop(s, m, v, rotation);
    }
  }

  lemma {:induction false} EvenRun(s: State, m: nat, actions: seq<Action>, rotation: nat) returns (n: nat)
    requires Core(s, m) && Even(s, m, rotation) && Exec(s, actions).Ok? && OpensWith(actions, rotation)
    requires Exec(s, actions).value.top <= MAX_SEQUENCE
    ensures Core(Exec(s, actions).value, n) && Even(Exec(s, actions).value, n, rotation)
    decreases |actions|
  {
    hide Core, Even, Enabled, Apply, Persisted;
    if actions == [] {
      n := m;
    } else {
      TopRun(Apply(s, actions[0]), actions[1..]);
      CoreStep(s, m, actions[0]);
      EvenStep(s, m, actions[0], rotation);
      n := EvenRun(Apply(s, actions[0]), Persisted(s, m, actions[0]), actions[1..], rotation);
    }
  }

  /** Record addressing: with one rotation size and k records to a segment the
      n-th surviving record is in segment 1 + n / k at byte 12 * (n mod k),
      whole. */
  lemma RecordAddressing(rotation: nat, actions: seq<Action>, n: nat)
    requires rotation >= RECORD_SIZE && Exec(Initial(), actions).Ok? && OpensWith(actions, rotation)
    requires Exec(Initial(), actions).value.top <= MAX_SEQUENCE
    requires n < |Recovered(Exec(Initial(), actions).value)|
    ensures var s, k := Exec(Initial(), actions).value, rotation / RECORD_SIZE;
            var v, at := 1 + n / k, RECORD_SIZE * (n % k);
            && v in s.disk && at + RECORD_SIZE <= |s.disk[v]| <= rotation
            && s.disk[v][at..at + RECORD_SIZE] == Encode(Recovered(s)[n])
  {
    hide Core, Exec, Recovered, Even, OpensWith;
    InitialInv();
    assert Even(Initial(), 0, rotation) by { InitialEven(rotation); }
    var m := EvenRun(Initial(), 0, actions, rotation);
    var s := Exec(Initial(), actions).value;
    RecoveredIsPrefix(s, m);
    assert |s.written[..m / RECORD_SIZE]| == m / RECORD_SIZE <= |s.written|;
    AddressIn(s, m, n, rotation);
  }

  lemma InitialEven(rotation: nat)
    ensures Even(Initial(), 0, rotation)
  {
  }

  lemma {:induction false} StartOf(k: nat, q: nat)
    ensures Start(RECORD_SIZE * k, q) == RECORD_SIZE * (k * q)
  {
    if q > 0 {
      StartOf(k, q - 1);
      assert k * q == k * (q - 1) + k;
    }
  }

  lemma {:induction false} StartMonotone(c: nat, v: nat, w: nat)
    requires v < w
    ensures Start(c, v) + c <= Start(c, w)
    decreases w
  {
    if v < w - 1 {
      StartMonotone(c, v, w - 1);
    }
  }

  lemma AddressIn(s: State, m: nat, n: nat, rotation: nat)
    requires Core(s, m) && Even(s, m, rotation) && n < m / RECORD_SIZE && n < |s.written| && rotation >= RECORD_SIZE
    ensures var k := rotation / RECORD_SIZE;
            var v, at := 1 + n / k, RECORD_SIZE * (n % k);
            && v in s.disk && at + RECORD_SIZE <= |s.disk[v]| <= rotation
            && s.disk[v][at..at + RECORD_SIZE] == Encode(s.written[n])
  {
    hide Bytes, Encode, Start, Core, Even;
    var k := rotation / RECORD_SIZE;
    BytesAt(s.written, n);
    StartOf(k, n / k);
    Position(n, k);
    SegmentOf(s, m, n, n / k, RECORD_SIZE * (n % k), rotation);
  }

  lemma Position(n: nat, k: nat)
    requires k > 0
    ensures RECORD_SIZE * (k * (n / k)) + RECORD_SIZE * (n % k) == RECORD_SIZE * n
    ensures RECORD_SIZE * (n % k) + RECORD_SIZE <= RECORD_SIZE * k
  {
    assert k * (n / k) + n % k == n;
  }

  /** The segment that holds byte 12 * n exists, reaches behind the record and
      holds it at the given place. */
  lemma SegmentOf(s: State, m: nat, n: nat, q: nat, at: nat, rotation: nat)
    requires Core(s, m) && Even(s, m, rotation) && n < m / RECORD_SIZE
    requires Start(Capacity(rotation), q) + at == RECORD_SIZE * n && at + RECORD_SIZE <= Capacity(rotation)
    ensures RECORD_SIZE * n + RECORD_SIZE <= RECORD_SIZE * |s.written|
    ensures q + 1 in s.disk && at + RECORD_SIZE <= |s.disk[q + 1]| <= Capacity(rotation)
    ensures s.disk[q + 1][at..at + RECORD_SIZE] == Bytes(s.written)[RECORD_SIZE * n..RECORD_SIZE * n + RECORD_SIZE]
  {
    hide Bytes, Pieces, Start, Capacity;
    PiecesBound(s, m);
    var c, stream := Capacity(rotation), Bytes(s.written);
    CutsReach(s.disk, stream, s.cuts, m, c, q, RECORD_SIZE * n);
    Slice(stream, s.cuts[q], EndOf(s.cuts, m, q + 1), at, at + RECORD_SIZE);
  }

  lemma CutsReach(disk: map<nat, seq<Byte>>, stream: seq<Byte>, cuts: seq<nat>, m: nat, c: nat, q: nat, byte: nat)
    requires Pieces(disk, stream, cuts, m) && Start(c, q) <= byte && byte + RECORD_SIZE <= m
             && byte + RECORD_SIZE <= Start(c, q) + c
    requires forall i :: 0 <= i < |cuts| ==> cuts[i] == Start(c, i)
    requires cuts != [] ==> m - cuts[|cuts| - 1] <= c
    ensures q < |cuts| && PieceIs(disk, stream, cuts, m, q + 1)
    ensures byte + RECORD_SIZE <= EndOf(cuts, m, q + 1) <= cuts[q] + c
  {
    var n := |cuts|;
    if n > 0 && q >= n {
      StartMonotone(c, n - 1, q);
    }
    if q + 1 < n {
      assert Start(c, q + 1) == Start(c, q) + c;
    }
    hide Start;
  }

  // ---- when the names are used up ----

  /** A flushed record can be lost once the names are used up: a file that fills
      the last named segment goes on in one that discovery does not recognise,
      and a record flushed there is not found. */
  lemma FlushLostBeyondNames(s: State, m: nat, r: Record) returns (actions: seq<Action>)
    requires Core(s, m) && s.top == MAX_SEQUENCE && Enabled(s, Rotate)
    ensures Exec(s, actions).Ok?
    ensures var t := Exec(s, actions).value;
            t.written == s.written + [r] && t.flushed == |t.written| > |Recovered(t)|
  {
    hide Bytes, Pieces, Encode, Records, Flat;
    var s1 := Apply(s, Rotate);
    assert Enabled(s1, Accept(r));
    var s2 := Apply(s1, Accept(r));
    assert s2.buffer == Encode(r) && Enabled(s2, Emit(RECORD_SIZE));
    var s3 := Apply(s2, Emit(RECORD_SIZE));
    assert Enabled(s3, Flushed);
    var t := Apply(s3, Flushed);
    var first, second := [Rotate], [Rotate] + [Accept(r)];
    var third := second + [Emit(RECORD_SIZE)];
    ExecLast(s, Rotate);
    ExecOne(s, first, Accept(r));
    ExecOne(s, second, Emit(RECORD_SIZE));
    ExecOne(s, third, Flushed);
    actions := third + [Flushed];
    RecoveredIsPrefix(s, m);
    SameFlat(s.disk, t.disk, MAX_SEQUENCE);
  }

  lemma ExecLast(s: State, a: Action)
    requires Enabled(s, a)
    ensures Exec(s, [a]) == Ok(Apply(s, a))
  {
    hide Enabled, Apply;
    assert [a][1..] == [];
  }

  /** An open file of n segments, the last one full, that holds n records. */
  ghost predicate Filled(s: State, n: nat)
  {
    && s.open && s.top == n == s.sequence && s.rotation == RECORD_SIZE == s.size && s.buffer == []
    && |s.written| == n && n in s.disk && n + 1 !in s.disk
  }

  lemma {:induction false} FillSegments(n: nat, r: Record) returns (actions: seq<Action>)
    requires 1 <= n <= MAX_SEQUENCE
    ensures Exec(Initial(), actions).Ok? && Filled(Exec(Initial(), actions).value, n)
  {
    hide Exec;
    var before: seq<Action>, open: State;
    if n == 1 {
      FirstOpen();
      open := Apply(Initial(), Open(1, RECORD_SIZE));
      before := [Open(1, RECORD_SIZE)];
      ExecLast(Initial(), Open(1, RECORD_SIZE));
    } else {
      var fewer := FillSegments(n - 1, r);
      var s := Exec(Initial(), fewer).value;
      InitialInv();
      var m := InvRun(Initial(), 0, fewer);
      RotateFilled(s, m, n - 1);
      ExecOne(Initial(), fewer, Rotate);
      open := Apply(s, Rotate);
      before := fewer + [Rotate];
    }
    FillOne(open, n, r);
    ExecOne(Initial(), before, Accept(r));
    ExecOne(Initial(), before + [Accept(r)], Emit(RECORD_SIZE));
    actions := before + [Accept(r)] + [Emit(RECORD_SIZE)];
  }

  /** An open file whose last segment is empty. */
  ghost predicate Emptied(s: State, n: nat)
  {
    && s.open && s.top == n == s.sequence && s.rotation == RECORD_SIZE && s.size == 0 && s.buffer == []
    && |s.written| == n - 1 && n in s.disk && n + 1 !in s.disk
  }

  lemma FirstOpen()
    ensures Enabled(Initial(), Open(1, RECORD_SIZE)) && Emptied(Apply(Initial(), Open(1, RECORD_SIZE)), 1)
  {
    FirstPiece();
    assert Opened(map[], 1) == map[1 := []];
  }

  lemma RotateFilled(s: State, m: nat, n: nat)
    requires Inv(s, m) && Filled(s, n) && n < MAX_SEQUENCE
    ensures Enabled(s, Rotate) && Emptied(Apply(s, Rotate), n + 1)
  {
    hide Bytes, PieceIs;
  }

  lemma FillOne(s: State, n: nat, r: Record)
    requires Emptied(s, n)
    ensures Enabled(s, Accept(r)) && Enabled(Apply(s, Accept(r)), Emit(RECORD_SIZE))
    ensures Filled(Apply(Apply(s, Accept(r)), Emit(RECORD_SIZE)), n)
  {
    hide Encode;
    assert [] + Encode(r) == Encode(r) && Encode(r)[RECORD_SIZE..] == [];
  }

  /** The failing history: with a rotation size of one record, 99999999 records
      fill the named segments, and the next one is flushed and lost. */
  lemma FlushedForEverFailsBeyondNames(r: Record) returns (actions: seq<Action>)
    ensures Exec(Initial(), actions).Ok?
    ensures var t := Exec(Initial(), actions).value; t.flushed == |t.written| > |Recovered(t)|
  {
    hide Exec, Recovered, Core, OpenInv;
    var before := FillSegments(MAX_SEQUENCE, r);
    var s := Exec(Initial(), before).value;
    InitialInv();
    var m := InvRun(Initial(), 0, before);
    var after := FlushLostBeyondNames(s, m, r);
    ExecConcat(Initial(), before, after);
    actions := before + after;
  }
}
