/** The connection registry of the TCP server while it runs: admission tokens,
    registration, binding to a MAC with replacement of the older connection, and
    removal, as interleaved atomic steps (sensor-server/tcp-server.go). */
module TcpRegistry {
  import opened Results
  import opened Protocol
  import opened SegmentNames

  /** A connection, by what its goroutine is about to do. */
  datatype Stage =
    | Admitted                       // has a token, about to be registered
    | Serving
    | Replacing(previous: Option<nat>) // bound, about to close the one it replaces
    | Closing                        // socket closed, about to be removed
    | Removed                        // about to give back its token
    | Gone

  datatype Conn = Conn(mac: Mac, bound: bool, socketClosed: bool, stage: Stage)

  /** conns are all connections ever admitted, by identifier; registered and
      byMac are the two maps of the server. */
  datatype State = State(
    limit: nat, tokens: nat, nextId: nat,
    conns: map<nat, Conn>, registered: set<nat>, byMac: map<Mac, nat>)

  datatype Action =
    | Admit | Register(id: nat) | Bind(id: nat, mac: Mac) | CloseOld(id: nat)
    | Hangup(id: nat) | Remove(id: nat) | Release(id: nat)

  function Initial(limit: nat): (s: State)
  {
    State(limit, 0, 1, map[], {}, map[])
  }

  predicate At(s: State, id: nat, stage: Stage)
  {
    id in s.conns && s.conns[id].stage == stage
  }

  /** A full token channel rejects the connection, so Admit needs a token. */
  predicate Enabled(s: State, a: Action)
  {
    match a
    case Admit => s.tokens < s.limit && s.nextId !in s.conns
    case Register(id) => At(s, id, Admitted)
    case Bind(id, _) => At(s, id, Serving) && !s.conns[id].bound
    case CloseOld(id) => id in s.conns && s.conns[id].stage.Replacing?
    case Hangup(id) => At(s, id, Serving)
    case Remove(id) => At(s, id, Closing)
    case Release(id) => At(s, id, Removed) && s.tokens > 0
  }

  function Put(s: State, id: nat, c: Conn): (t: State)
  {
    s.(conns := s.conns[id := c])
  }

  const ZERO_MAC: Mac := [0, 0, 0, 0, 0, 0]

  function Previous(s: State, id: nat, mac: Mac): (p: Option<nat>)
  {
    if mac in s.byMac && s.byMac[mac] != id then Some(s.byMac[mac]) else None
  }

  function Apply(s: State, a: Action): (t: State)
    requires Enabled(s, a)
  {
    match a
    case Admit =>
      var t := Put(s, s.nextId, Conn(ZERO_MAC, false, false, Admitted));
      t.(tokens := s.tokens + 1, nextId := s.nextId + 1)
    case Register(id) => Put(s, id, s.conns[id].(stage := Serving)).(registered := s.registered + {id})
    case Bind(id, mac) =>
      var c := s.conns[id].(mac := mac, bound := true, stage := Replacing(Previous(s, id, mac)));
      Put(s, id, c).(byMac := s.byMac[mac := id])
    case CloseOld(id) =>
      var replaced := s.conns[id].stage.previous;
      var t := Put(s, id, s.conns[id].(stage := Serving));
      if replaced.Some? && replaced.value in s.conns
      then Put(t, replaced.value, t.conns[replaced.value].(socketClosed := true))
      else t
    case Hangup(id) => Put(s, id, s.conns[id].(socketClosed := true, stage := Closing))
    case Remove(id) =>
      var t := Put(s, id, s.conns[id].(stage := Removed)).(registered := s.registered - {id});
      var mac := s.conns[id].mac;
      if mac in s.byMac && s.byMac[mac] == id then t.(byMac := s.byMac - {mac}) else t
    case Release(id) => Put(s, id, s.conns[id].(stage := Gone)).(tokens := s.tokens - 1)
  }

  // ---- what every step keeps ----

  /** Connections that hold a token. */
  function Holders(s: State): (h: set<nat>)
  {
    set id | id in s.conns && !s.conns[id].stage.Gone?
  }

  ghost predicate TokenInv(s: State)
  {
    && s.tokens == |Holders(s)| <= s.limit
    && (forall id :: id in s.conns ==> id < s.nextId)
  }

  ghost predicate RegisteredInv(s: State)
  {
    (forall id :: id in s.registered <==>
     id in s.conns && (s.conns[id].stage.Serving? || s.conns[id].stage.Replacing? || s.conns[id].stage.Closing?))
  }

  /** The current connection of a MAC is registered and bound to that MAC. */
  ghost predicate ByMacInv(s: State)
  {
    forall mac :: mac in s.byMac ==>
      var id := s.byMac[mac];
      id in s.registered && id in s.conns && s.conns[id].bound && s.conns[id].mac == mac
  }

  /** The binding of `other` is about to close `id`, bound to the same MAC. */
  predicate Replaces(s: State, other: nat, id: nat)
  {
    id in s.conns && other in s.conns && s.conns[other].stage == Replacing(Some(id))
    && s.conns[other].mac == s.conns[id].mac
  }

  ghost predicate PendingClose(s: State, id: nat)
  {
    exists other :: Replaces(s, other, id)
  }

  /** Every other registered connection bound to a MAC has its socket closed, or
      will have in the binding that replaced it. */
  ghost predicate ReplacedInv(s: State)
  {
    forall id :: id in s.registered && id in s.conns && s.conns[id].bound ==>
      || (s.conns[id].mac in s.byMac && s.byMac[s.conns[id].mac] == id)
      || s.conns[id].socketClosed
      || PendingClose(s, id)
  }

  ghost predicate StageInv(s: State)
  {
    forall id :: id in s.conns ==>
      && (s.conns[id].stage.Admitted? ==> !s.conns[id].bound)
      && (s.conns[id].stage.Replacing? ==> s.conns[id].bound)
  }

  ghost predicate Inv(s: State)
  {
    TokenInv(s) && RegisteredInv(s) && ByMacInv(s) && ReplacedInv(s) && StageInv(s)
  }

  lemma TokenStep(s: State, a: Action)
    requires TokenInv(s) && Enabled(s, a)
    ensures TokenInv(Apply(s, a))
  {
    hide Previous, Holders;
    var t := Apply(s, a);
    if a.Admit? {
      HoldersGrow(s, t, s.nextId);
    } else if a.Release? {
      HoldersGrow(t, s, a.id);
    } else {
      HoldersKeep(s, t);
    }
  }

  /** t has one holder more than s. */
  lemma HoldersGrow(s: State, t: State, id: nat)
    requires id in t.conns && !t.conns[id].stage.Gone? && (id in s.conns ==> s.conns[id].stage.Gone?)
    requires forall other :: other != id ==>
               (other in s.conns && !s.conns[other].stage.Gone? <==> other in t.conns && !t.conns[other].stage.Gone?)
    ensures |Holders(t)| == |Holders(s)| + 1
  {
    assert Holders(t) == Holders(s) + {id};
  }

  lemma HoldersKeep(s: State, t: State)
    requires s.conns.Keys == t.conns.Keys
    requires forall id :: id in s.conns ==> (s.conns[id].stage.Gone? <==> t.conns[id].stage.Gone?)
    ensures Holders(t) == Holders(s)
  {
  }

  lemma RegisteredStep(s: State, a: Action)
    requires RegisteredInv(s) && StageInv(s) && TokenInv(s) && Enabled(s, a)
    ensures RegisteredInv(Apply(s, a)) && StageInv(Apply(s, a))
  {
    hide Holders;
  }

  lemma ByMacStep(s: State, a: Action)
    requires ByMacInv(s) && RegisteredInv(s) && TokenInv(s) && Enabled(s, a)
    ensures ByMacInv(Apply(s, a))
  {
    hide Holders;
  }

  lemma ReplacedStep(s: State, a: Action)
    requires ReplacedInv(s) && ByMacInv(s) && RegisteredInv(s) && StageInv(s) && TokenInv(s) && Enabled(s, a)
    ensures ReplacedInv(Apply(s, a))
  {
    hide Holders;
    var t := Apply(s, a);
    forall id | id in t.registered && id in t.conns && t.conns[id].bound
      ensures (t.conns[id].mac in t.byMac && t.byMac[t.conns[id].mac] == id) || t.conns[id].socketClosed
              || PendingClose(t, id)
    {
      if id in s.registered && id in s.conns && s.conns[id].bound {
        ReplacedOne(s, a, id);
      }
    }
  }

  /** One connection that was bound before the step. */
  lemma ReplacedOne(s: State, a: Action, id: nat)
    requires ReplacedInv(s) && ByMacInv(s) && TokenInv(s) && Enabled(s, a)
    requires id in s.registered && id in s.conns && s.conns[id].bound && id in Apply(s, a).registered
    ensures var t := Apply(s, a);
            && id in t.conns && t.conns[id].mac == s.conns[id].mac
            && ((t.conns[id].mac in t.byMac && t.byMac[t.conns[id].mac] == id) || t.conns[id].socketClosed
                || PendingClose(t, id))
  {
    hide Holders;
    var t := Apply(s, a);
    if s.conns[id].mac in s.byMac && s.byMac[s.conns[id].mac] == id {
      if a.Bind? && a.mac == s.conns[id].mac {
        assert Replaces(t, a.id, id);
      }
    } else if s.conns[id].socketClosed {
    } else {
      var other :| Replaces(s, other, id);
      if a.CloseOld? && a.id == other {
        assert t.conns[id].socketClosed;
      } else {
        assert Replaces(t, other, id);
      }
    }
  }

  lemma InvStep(s: State, a: Action)
    requires Inv(s) && Enabled(s, a)
    ensures Inv(Apply(s, a))
  {
    hide TokenInv, RegisteredInv, ByMacInv, ReplacedInv, StageInv, Enabled, Apply;
    TokenStep(s, a);
    RegisteredStep(s, a);
    ByMacStep(s, a);
    ReplacedStep(s, a);
  }

  ghost function Exec(s: State, actions: seq<Action>): (r: Result<State>)
    decreases |actions|
  {
    if actions == [] then Ok(s)
    else if !Enabled(s, actions[0]) then Err(NotEnabled)
    else Exec(Apply(s, actions[0]), actions[1..])
  }

  lemma {:induction false} InvRun(s: State, actions: seq<Action>)
    requires Inv(s) && Exec(s, actions).Ok?
    ensures Inv(Exec(s, actions).value)
    decreases |actions|
  {
    hide Inv, Enabled, Apply;
    if actions != [] {
      InvStep(s, actions[0]);
      InvRun(Apply(s, actions[0]), actions[1..]);
    }
  }

  lemma InitialInv(limit: nat)
    ensures Inv(Initial(limit))
  {
    assert Holders(Initial(limit)) == {};
  }

  predicate BoundTogether(s: State, i: nat, j: nat)
  {
    && i in s.registered && j in s.registered && i in s.conns && j in s.conns
    && s.conns[i].bound && s.conns[j].bound && s.conns[i].mac == s.conns[j].mac
  }

  /** In every interleaving: at most `limit` connections are registered; the
      current connection of a MAC is registered and bound to it; and of two
      registered connections bound to one MAC one has its socket closed or
      about to be closed by the other's, or a later, binding. */
  lemma RegistrySafety(limit: nat, actions: seq<Action>)
    requires Exec(Initial(limit), actions).Ok?
    ensures var s := Exec(Initial(limit), actions).value;
            && |s.registered| <= limit
            && ByMacInv(s) && ReplacedInv(s)
            && forall i, j :: i != j && BoundTogether(s, i, j) ==>
                 (s.conns[i].socketClosed || PendingClose(s, i)) || (s.conns[j].socketClosed || PendingClose(s, j))
  {
    hide Exec, Enabled, Apply;
    InitialInv(limit);
    InvRun(Initial(limit), actions);
    SameLimit(Initial(limit), actions);
    var s := Exec(Initial(limit), actions).value;
    assert s.registered <= Holders(s);
    SubsetSize(s.registered, Holders(s));
  }

  /** In every interleaving a connection is admitted exactly while fewer than
      `limit` connections hold a token. */
  lemma AdmitsExactlyWhen(limit: nat, actions: seq<Action>)
    requires Exec(Initial(limit), actions).Ok?
    ensures var s := Exec(Initial(limit), actions).value;
            Enabled(s, Admit) <==> |set id | id in s.conns && !s.conns[id].stage.Gone?| < limit
  {
    hide Exec, Apply, RegisteredInv, ByMacInv, ReplacedInv, StageInv;
    InitialInv(limit);
    InvRun(Initial(limit), actions);
    SameLimit(Initial(limit), actions);
    var s := Exec(Initial(limit), actions).value;
    assert Holders(s) == set id | id in s.conns && !s.conns[id].stage.Gone?;
  }

  // ---- whose sockets are closed ----

  predicate Current(s: State, id: nat)
  {
    id in s.conns && s.conns[id].mac in s.byMac && s.byMac[s.conns[id].mac] == id
  }

  /** The connection that a binding is about to close has lost its MAC to it, and
      no other connection has its socket closed before it hangs up itself. */
  ghost predicate SocketInv(s: State)
  {
    forall id :: id in s.conns ==> SocketOk(s, id, s.conns[id])
  }

  predicate SocketOk(s: State, id: nat, c: Conn)
  {
    && (c.socketClosed && (c.stage.Admitted? || c.stage.Serving? || c.stage.Replacing?) ==> c.bound && !Current(s, id))
    && (c.stage.Replacing? && c.stage.previous.Some? ==>
          var p := c.stage.previous.value;
          p != id && p in s.conns && s.conns[p].bound && s.conns[p].mac == c.mac && !Current(s, p))
  }

  lemma SocketStep(s: State, a: Action)
    requires SocketInv(s) && ByMacInv(s) && TokenInv(s) && Enabled(s, a)
    ensures SocketInv(Apply(s, a))
  {
    hide TokenInv, ByMacInv, SocketInv, SocketOk, Enabled;
    var t := Apply(s, a);
    assert forall id :: id in t.conns ==> SocketOk(t, id, t.conns[id]) by {
      forall id | id in t.conns
        ensures SocketOk(t, id, t.conns[id])
      {
        SocketOne(s, a, id);
      }
    }
    assert SocketInv(t) by { AllSockets(t); }
  }

  lemma AllSockets(s: State)
    requires forall id :: id in s.conns ==> SocketOk(s, id, s.conns[id])
    ensures SocketInv(s)
  {
  }

  lemma SocketOne(s: State, a: Action, id: nat)
    requires SocketInv(s) && ByMacInv(s) && TokenInv(s) && Enabled(s, a) && id in Apply(s, a).conns
    ensures SocketOk(Apply(s, a), id, Apply(s, a).conns[id])
  {
    hide Holders;
    if id in s.conns {
      assert SocketOk(s, id, s.conns[id]);
    }
    if a.CloseOld? {
      assert SocketOk(s, a.id, s.conns[a.id]);
    }
  }

  lemma {:induction false} SocketRun(s: State, actions: seq<Action>)
    requires Inv(s) && SocketInv(s) && Exec(s, actions).Ok?
    ensures SocketInv(Exec(s, actions).value)
    decreases |actions|
  {
    hide TokenInv, RegisteredInv, ByMacInv, ReplacedInv, StageInv, SocketInv, Enabled, Apply;
    if actions != [] {
      InvStep(s, actions[0]);
      SocketStep(s, actions[0]);
      SocketRun(Apply(s, actions[0]), actions[1..]);
    }
  }

  /** In every interleaving the socket of a connection that is still serving is
      closed only if another connection has bound its MAC since; so the current
      connection of a MAC keeps its socket until it hangs up itself. */
  lemma SocketsClosedOnlyWhenReplaced(limit: nat, actions: seq<Action>, id: nat)
    requires Exec(Initial(limit), actions).Ok? && id in Exec(Initial(limit), actions).value.conns
    ensures var s := Exec(Initial(limit), actions).value;
            var c := s.conns[id];
            c.socketClosed && (c.stage.Admitted? || c.stage.Serving? || c.stage.Replacing?) ==>
              c.bound && !(c.mac in s.byMac && s.byMac[c.mac] == id)
  {
    hide Exec, Inv;
    InitialInv(limit);
    SocketRun(Initial(limit), actions);
    var s := Exec(Initial(limit), actions).value;
    assert SocketOk(s, id, s.conns[id]);
  }

  lemma SubsetSize(a: set<nat>, b: set<nat>)
    requires a <= b
    ensures |a| <= |b|
  {
    assert b == a + (b - a);
  }

  lemma {:induction false} SameLimit(s: State, actions: seq<Action>)
    requires Exec(s, actions).Ok?
    ensures Exec(s, actions).value.limit == s.limit
    decreases |actions|
  {
    if actions != [] {
      SameLimit(Apply(s, actions[0]), actions[1..]);
    }
  }

  /** No connection is ever bound to another MAC, however the run goes on. */
  lemma {:induction false} BindingsAreFinal(s: State, more: seq<Action>, id: nat)
    requires Exec(s, more).Ok? && id in s.conns && s.conns[id].bound
    ensures var t := Exec(s, more).value; id in t.conns && t.conns[id].bound && t.conns[id].mac == s.conns[id].mac
    decreases |more|
  {
    if more != [] {
      BoundStays(s, more[0], id);
      hide Enabled, Apply;
      BindingsAreFinal(Apply(s, more[0]), more[1..], id);
    }
  }

  /** A connection that binds a MAC is bound to that MAC ever after. */
  lemma {:induction false} BoundToItsMac(s: State, actions: seq<Action>, i: nat)
    requires Exec(s, actions).Ok? && i < |actions| && actions[i].Bind?
    ensures var t, id := Exec(s, actions).value, actions[i].id;
            id in t.conns && t.conns[id].bound && t.conns[id].mac == actions[i].mac
    decreases |actions|
  {
    if i == 0 {
      assert Apply(s, actions[0]).conns[actions[0].id].mac == actions[0].mac;
      hide Enabled, Apply;
      BindingsAreFinal(Apply(s, actions[0]), actions[1..], actions[0].id);
    } else {
      hide Enabled, Apply;
      BoundToItsMac(Apply(s, actions[0]), actions[1..], i - 1);
    }
  }

  lemma BoundStays(s: State, a: Action, id: nat)
    requires Enabled(s, a) && id in s.conns && s.conns[id].bound
    ensures var t := Apply(s, a);
            id in t.conns && t.conns[id].bound && t.conns[id].mac == s.conns[id].mac
  {
  }

  /** The current connection of a MAC stays current until it is removed itself
      or another connection binds the MAC: the removal of a replaced connection,
      however late, never evicts its replacement. */
  lemma {:induction false} ReplacementStays(s: State, more: seq<Action>, mac: Mac)
    requires Exec(s, more).Ok? && mac in s.byMac
    requires forall i :: 0 <= i < |more| ==> more[i] != Remove(s.byMac[mac]) && !(more[i].Bind? && more[i].mac == mac)
    ensures var t := Exec(s, more).value; mac in t.byMac && t.byMac[mac] == s.byMac[mac]
    decreases |more|
  {
    if more != [] {
      var a := more[0];
      CurrentStays(s, a, mac);
      hide Enabled, Apply;
      ReplacementStays(Apply(s, a), more[1..], mac);
    }
  }

  lemma CurrentStays(s: State, a: Action, mac: Mac)
    requires Enabled(s, a) && mac in s.byMac && a != Remove(s.byMac[mac]) && !(a.Bind? && a.mac == mac)
    ensures var t := Apply(s, a); mac in t.byMac && t.byMac[mac] == s.byMac[mac]
  {
  }
}
