/**
 The ownership registry as a protocol: a value for its state, and one function for each
 lock region of pkg/bridge/ownership.go.

 Records are heap objects in the program and several keys name the same one. Here a record
 is named by its place in `records`, the list of all records ever registered, so two keys
 with the same number are two names of one object.
 */
module OwnershipProtocol {
  import opened Common

  /** The identity of a client connection. */
  type Conn = nat

  datatype Lifecycle = Open | Closing | Closed {
    function Rank(): nat {
      match this case Open => 0 case Closing => 1 case Closed => 2
    }
  }

  /** What a backend attach event and the identifiers minted for it say about one target. */
  datatype Ids = Ids(pageTarget: string, tabTarget: string, pageSession: string, tabSession: string, juggler: string)

  datatype Record = Record(ids: Ids, owner: Option<Conn>, state: Lifecycle, paired: bool, cleaned: bool,
      cancelled: bool)

  datatype ConnState = ConnState(closed: bool, discover: bool, autoAttach: bool)

  datatype Claim = Claim(owner: Conn, generation: nat)

  datatype Registry = Registry(
    nextGeneration: nat,
    connections: map<Conn, ConnState>,
    targets: map<string, nat>,
    sessions: map<string, nat>,
    browserSessions: map<string, Conn>,
    pending: map<nat, Claim>,
    claims: map<string, Claim>,
    cancelledTargets: set<string>,
    records: seq<Record>)

  const EMPTY := Registry(0, map[], map[], map[], map[], map[], map[], {}, [])

  // ---------------------------------------------------------------- the lock regions

  function Touch(s: Registry, c: Conn): Registry {
    if c in s.connections then s else s.(connections := s.connections[c := ConnState(false, false, false)])
  }

  /** A missing connection (nil in the program) and one never seen both count as closed. */
  predicate Gone(s: Registry, c: Option<Conn>) {
    c.None? || c.value !in s.connections || s.connections[c.value].closed
  }

  function BeginCreate(s: Registry, c: Conn): Registry {
    var g := s.nextGeneration + 1;
    Touch(s, c).(nextGeneration := g, pending := s.pending[g := Claim(c, g)])
  }

  function FinishCreate(s: Registry, g: nat): Registry {
    s.(pending := s.pending - {g})
  }

  function EffectiveClaim(s: Registry, c: Conn, g: nat): Claim {
    if g in s.pending then s.pending[g] else Claim(c, g)
  }

  predicate TargetsInRange(s: Registry) {
    forall k | k in s.targets :: s.targets[k] < |s.records|
  }

  predicate SessionsInRange(s: Registry) {
    forall k | k in s.sessions :: s.sessions[k] < |s.records|
  }

  function SetRecord(s: Registry, id: nat, r: Record): Registry
    requires id < |s.records|
  {
    s.(records := s.records[id := r])
  }

  function ClaimTarget(s: Registry, c: Conn, t: string, g: nat): (r: (Registry, Option<nat>))
    requires TargetsInRange(s)
    ensures |r.0.records| == |s.records| && r.0.targets == s.targets && r.0.sessions == s.sessions
    ensures r.1.Some? <==> t != "" && t in s.targets
    ensures r.1.Some? ==> r.1.value == s.targets[t]
  {
    if t == "" then (s, None) else
    var claim := EffectiveClaim(s, c, g);
    var cancelled := Gone(s, Some(claim.owner));
    if t in s.targets then
      var id := s.targets[t];
      var r := s.records[id];
      if cancelled then
        (SetRecord(s, id, r.(cancelled := true, state := Closing)), Some(id))
      else if r.owner.None? && r.state.Open? then
        (SetRecord(Touch(s, claim.owner), id, r.(owner := Some(claim.owner))), Some(id))
      else
        (s, Some(id))
    else if cancelled then
      (s.(cancelledTargets := s.cancelledTargets + {t}), None)
    else
      (s.(claims := s.claims[t := claim]), None)
  }

  function OwnerForTarget(s: Registry, t: string): Option<Conn>
    requires TargetsInRange(s)
  {
    if t !in s.targets then None else
    var r := s.records[s.targets[t]];
    if !r.state.Open? || Gone(s, r.owner) then None else r.owner
  }

  predicate RegisterCancelled(s: Registry, t: string) {
    if t in s.claims then Gone(s, Some(s.claims[t].owner)) else t in s.cancelledTargets
  }

  function RegisterOwner(s: Registry, owner: Option<Conn>, t: string): Option<Conn> {
    if RegisterCancelled(s, t) then None
    else if t in s.claims then Some(s.claims[t].owner)
    else owner
  }

  /** A pair is entered under both its target IDs and both its session IDs, a worker under one of each. */
  function Register(s: Registry, owner: Option<Conn>, ids: Ids, paired: bool): (Registry, nat) {
    var t := ids.pageTarget;
    var cancelled := RegisterCancelled(s, t);
    var o := RegisterOwner(s, owner, t);
    var touched := if o.Some? then Touch(s, o.value) else s;
    var id := |s.records|;
    var r := Record(ids, o, if cancelled then Closing else Open, paired, false, cancelled);
    var targets := s.targets[t := id];
    var sessions := s.sessions[ids.pageSession := id];
    (touched.(claims := s.claims - {t},
              cancelledTargets := s.cancelledTargets - {t},
              targets := if paired then targets[ids.tabTarget := id] else targets,
              sessions := if paired then sessions[ids.tabSession := id] else sessions,
              records := s.records + [r]), id)
  }

  function RegisterBrowserSession(s: Registry, c: Conn, sid: string): Registry {
    if sid == "" then s else Touch(s, c).(browserSessions := s.browserSessions[sid := c])
  }

  function SessionOwner(s: Registry, sid: string): Option<Conn>
    requires SessionsInRange(s)
  {
    if sid == "" then None
    else if sid in s.sessions then
      var r := s.records[s.sessions[sid]];
      if r.state.Open? && !Gone(s, r.owner) then r.owner else None
    else if sid in s.browserSessions && !Gone(s, Some(s.browserSessions[sid])) then Some(s.browserSessions[sid])
    else None
  }

  function ExpireClaim(s: Registry, t: string, g: nat): (Registry, bool) {
    if t !in s.claims || s.claims[t].generation != g then (s, false)
    else (s.(claims := s.claims - {t}, cancelledTargets := s.cancelledTargets + {t}), true)
  }

  function CancelTarget(s: Registry, t: string): (r: (Registry, Option<nat>))
    requires TargetsInRange(s)
    ensures |r.0.records| == |s.records| && r.0.targets == s.targets && r.0.sessions == s.sessions
  {
    if t == "" then (s, None) else
    var s1 := s.(claims := s.claims - {t}, cancelledTargets := s.cancelledTargets + {t});
    if t in s.targets then
      var id := s.targets[t];
      (SetRecord(s1, id, s.records[id].(cancelled := true, state := Closing)), Some(id))
    else (s1, None)
  }

  /** The open records of `c` that some target key names. */
  function OpenOf(s: Registry, c: Conn): set<nat> {
    set k | k in s.targets && s.targets[k] < |s.records|
            && s.records[s.targets[k]].owner == Some(c) && s.records[s.targets[k]].state.Open? :: s.targets[k]
  }

  function Orphaned(records: seq<Record>, ids: set<nat>): (r: seq<Record>)
    ensures |r| == |records|
  {
    seq(|records|, i requires 0 <= i < |records| =>
      if i in ids then records[i].(owner := None, state := Closing) else records[i])
  }

  function CloseConnection(s: Registry, c: Conn): (r: (Registry, set<nat>))
    ensures |r.0.records| == |s.records| && r.0.targets == s.targets && r.0.sessions == s.sessions
    ensures c in r.0.connections && r.0.connections[c].closed
  {
    var t := Touch(s, c);
    if t.connections[c].closed then (t, {}) else
    var lost := set k | k in s.claims && s.claims[k].owner == c;
    (t.(connections := t.connections[c := t.connections[c].(closed := true)],
        pending := map g | g in s.pending && s.pending[g].owner != c :: s.pending[g],
        claims := s.claims - lost,
        cancelledTargets := s.cancelledTargets + lost,
        browserSessions := map k | k in s.browserSessions && s.browserSessions[k] != c :: s.browserSessions[k],
        records := Orphaned(s.records, OpenOf(s, c))), OpenOf(s, c))
  }

  function BeginCleanup(s: Registry, id: nat): (Registry, bool)
    requires id < |s.records|
  {
    var r := s.records[id];
    if r.cleaned || r.state.Closed? then (s, false)
    else (SetRecord(s, id, r.(state := Closing, cleaned := true)), true)
  }

  /** Deletes `k`, unless it has come to name another record. */
  function Unname(m: map<string, nat>, k: string, id: nat): map<string, nat> {
    if k in m && m[k] == id then m - {k} else m
  }

  function Leave(m: map<string, nat>, page: string, tab: string, id: nat): map<string, nat> {
    var rest := Unname(m, page, id);
    if tab != "" then Unname(rest, tab, id) else rest
  }

  function Remove(s: Registry, id: nat): Registry
    requires id < |s.records|
  {
    var r := s.records[id];
    SetRecord(s, id, r.(state := Closed)).(
      targets := Leave(s.targets, r.ids.pageTarget, r.ids.tabTarget, id),
      sessions := Leave(s.sessions, r.ids.pageSession, r.ids.tabSession, id))
  }

  function SetDiscover(s: Registry, c: Conn, on: bool): Registry {
    var t := Touch(s, c);
    t.(connections := t.connections[c := t.connections[c].(discover := on)])
  }

  function SetAutoAttach(s: Registry, c: Conn, on: bool): Registry {
    var t := Touch(s, c);
    t.(connections := t.connections[c := t.connections[c].(autoAttach := on)])
  }

  // ---------------------------------------------------------------- runs

  datatype Event =
    | Seen(c: Conn)
    | DidBeginCreate(c: Conn)
    | DidFinishCreate(g: nat)
    | DidClaim(c: Conn, t: string, g: nat)
    | DidRegister(owner: Option<Conn>, ids: Ids, paired: bool)
    | DidBrowserSession(c: Conn, sid: string)
    | DidExpire(t: string, g: nat)
    | DidCancel(t: string)
    | DidClose(c: Conn)
    | DidBeginCleanup(id: nat)
    | DidRemove(id: nat)
    | DidSetDiscover(c: Conn, on: bool)
    | DidSetAutoAttach(c: Conn, on: bool)

  /**
   The registry with what is known about the past: the IDs seen so far, those among them the
   bridge minted itself, and the records some lock region has handed to a caller whose next
   act is to close them.
   */
  datatype World = World(reg: Registry, seen: set<string>, minted: set<string>, handed: set<nat>)

  const START := World(EMPTY, {}, {}, {})

  predicate Fresh(w: World, id: string) { id != "" && id !in w.seen }

  predicate GoodIds(w: World, ids: Ids, paired: bool) {
    && ids.pageTarget != "" && ids.pageTarget !in w.minted && ids.pageTarget !in w.reg.targets
    && Fresh(w, ids.pageSession) && ids.pageSession != ids.pageTarget
    && (if paired then
          && Fresh(w, ids.tabTarget) && ids.tabTarget != ids.pageTarget && ids.tabTarget != ids.pageSession
          && Fresh(w, ids.tabSession) && ids.tabSession != ids.pageTarget && ids.tabSession != ids.pageSession
          && ids.tabTarget != ids.tabSession
        else ids.tabTarget == "" && ids.tabSession == "")
  }

  /**
   What the callers and the backend keep to: minted IDs are new and non-empty, the backend's
   target IDs are never IDs the bridge minted and name one live target at a time, a create
   call presents its own generation, and only the winner of BeginCleanup removes a record.
   */
  ghost predicate Enabled(w: World, e: Event) {
    match e
    case DidClaim(c, t, g) =>
      t != "" && t !in w.minted && (g in w.reg.pending ==> w.reg.pending[g].owner == c)
    case DidRegister(owner, ids, paired) =>
      GoodIds(w, ids, paired) && (owner.Some? ==> owner.value in w.reg.connections)
    case DidBrowserSession(c, sid) => Fresh(w, sid)
    case DidExpire(t, g) => t !in w.minted
    case DidCancel(t) => t !in w.minted
    case DidBeginCleanup(id) => id < |w.reg.records|
    case DidRemove(id) => id < |w.reg.records| && w.reg.records[id].cleaned
    case _ => true
  }

  function MintedBy(ids: Ids, paired: bool): set<string> {
    if paired then {ids.pageSession, ids.tabSession, ids.tabTarget} else {ids.pageSession}
  }

  /** A record handed back with its cancelled mark set is one the caller goes on to close. */
  function Owed(s: Registry, id: Option<nat>): set<nat> {
    if id.Some? && id.value < |s.records| && s.records[id.value].cancelled then {id.value} else {}
  }

  function AfterClaim(w: World, c: Conn, t: string, g: nat): World
    requires TargetsInRange(w.reg)
  {
    var (s, id) := ClaimTarget(w.reg, c, t, g);
    w.(reg := s, seen := w.seen + {t}, handed := w.handed + Owed(s, id))
  }

  function AfterRegister(w: World, owner: Option<Conn>, ids: Ids, paired: bool): World {
    var (s, id) := Register(w.reg, owner, ids, paired);
    World(s, w.seen + {ids.pageTarget} + MintedBy(ids, paired), w.minted + MintedBy(ids, paired),
          w.handed + Owed(s, Some(id)))
  }

  function AfterCancel(w: World, t: string): World
    requires TargetsInRange(w.reg)
  {
    var (s, id) := CancelTarget(w.reg, t);
    w.(reg := s, seen := w.seen + {t}, handed := w.handed + Owed(s, id))
  }

  function AfterClose(w: World, c: Conn): World {
    var (s, ids) := CloseConnection(w.reg, c);
    w.(reg := s, handed := w.handed + ids)
  }

  ghost function Next(w: World, e: Event): World
    requires TargetsInRange(w.reg) && Enabled(w, e)
  {
    match e
    case Seen(c) => w.(reg := Touch(w.reg, c))
    case DidBeginCreate(c) => w.(reg := BeginCreate(w.reg, c))
    case DidFinishCreate(g) => w.(reg := FinishCreate(w.reg, g))
    case DidClaim(c, t, g) => AfterClaim(w, c, t, g)
    case DidRegister(owner, ids, paired) => AfterRegister(w, owner, ids, paired)
    case DidBrowserSession(c, sid) =>
      World(RegisterBrowserSession(w.reg, c, sid), w.seen + {sid}, w.minted + {sid}, w.handed)
    case DidExpire(t, g) => w.(reg := ExpireClaim(w.reg, t, g).0)
    case DidCancel(t) => AfterCancel(w, t)
    case DidClose(c) => AfterClose(w, c)
    case DidBeginCleanup(id) => w.(reg := BeginCleanup(w.reg, id).0)
    case DidRemove(id) => w.(reg := Remove(w.reg, id))
    case DidSetDiscover(c, on) => w.(reg := SetDiscover(w.reg, c, on))
    case DidSetAutoAttach(c, on) => w.(reg := SetAutoAttach(w.reg, c, on))
  }

  // ---------------------------------------------------------------- the invariant

  predicate Names(m: map<string, nat>, k: string, id: nat) { k in m && m[k] == id }

  /** A target key names a record that has it among its target IDs and is not closed. */
  predicate TargetKeyOk(s: Registry, k: string) {
    k in s.targets ==>
      && k != "" && s.targets[k] < |s.records|
      && var r := s.records[s.targets[k]];
         (k == r.ids.pageTarget || k == r.ids.tabTarget) && !r.state.Closed?
  }

  predicate SessionKeyOk(s: Registry, k: string) {
    k in s.sessions ==>
      && k != "" && s.sessions[k] < |s.records|
      && var r := s.records[s.sessions[k]];
         (k == r.ids.pageSession || k == r.ids.tabSession) && !r.state.Closed?
  }

  /** A claim belongs to a live connection and waits for a target that is not attached. */
  predicate ClaimOk(w: World, t: string) {
    t in w.reg.claims ==>
      !Gone(w.reg, Some(w.reg.claims[t].owner)) && t !in w.reg.targets && t in w.seen && t !in w.minted
  }

  /** A record that is not closed is found under all its IDs. */
  predicate Named(s: Registry, i: nat)
    requires i < |s.records|
  {
    var ids := s.records[i].ids;
    && Names(s.targets, ids.pageTarget, i) && Names(s.sessions, ids.pageSession, i)
    && (ids.tabTarget != "" ==> Names(s.targets, ids.tabTarget, i))
    && (ids.tabSession != "" ==> Names(s.sessions, ids.tabSession, i))
  }

  predicate IdsKnown(w: World, r: Record) {
    && r.ids.pageTarget in w.seen && r.ids.pageTarget !in w.minted && r.ids.pageTarget != ""
    && r.ids.pageSession in w.minted && r.ids.pageSession != ""
    && (r.paired ==> r.ids.tabTarget in w.minted && r.ids.tabSession in w.minted)
    && r.paired == (r.ids.tabTarget != "") && r.paired == (r.ids.tabSession != "")
    && r.ids.pageSession !in w.reg.browserSessions && r.ids.tabSession !in w.reg.browserSessions
  }

  /** The marks of a record agree; a closing record has a caller that knows it must close it. */
  predicate MarksAgree(w: World, i: nat)
    requires i < |w.reg.records|
  {
    var r := w.reg.records[i];
    && (r.cleaned ==> !r.state.Open?) && (r.state.Closed? ==> r.cleaned)
    && (r.cancelled ==> !r.state.Open?)
    && (r.state.Closing? ==> i in w.handed || r.cleaned)
    && (r.owner.Some? ==> r.owner.value in w.reg.connections)
  }

  predicate RecordOk(w: World, i: nat) {
    i < |w.reg.records| ==>
      && (!w.reg.records[i].state.Closed? ==> Named(w.reg, i))
      && IdsKnown(w, w.reg.records[i]) && MarksAgree(w, i)
  }

  predicate KeysSeen(w: World) {
    && w.minted <= w.seen && "" !in w.minted
    && w.reg.targets.Keys <= w.seen && w.reg.sessions.Keys <= w.minted && w.reg.browserSessions.Keys <= w.minted
  }

  ghost predicate Inv(w: World) {
    && TargetsInRange(w.reg) && KeysSeen(w)
    && (forall k {:trigger TargetKeyOk(w.reg, k)} :: TargetKeyOk(w.reg, k))
    && (forall k {:trigger SessionKeyOk(w.reg, k)} :: SessionKeyOk(w.reg, k))
    && (forall t {:trigger ClaimOk(w, t)} :: ClaimOk(w, t))
    && (forall i: nat {:trigger RecordOk(w, i)} :: RecordOk(w, i))
  }

  lemma InvStart()
    ensures Inv(START)
  {}

  /** A step that leaves the target and session keys alone and only adds to what is known. */
  ghost predicate KeysSteady(w: World, w': World) {
    && w'.reg.targets == w.reg.targets && w'.reg.sessions == w.reg.sessions
    && w.seen <= w'.seen && w.minted <= w'.minted <= w'.seen
    && (w'.minted - w.minted) !! w.seen && "" !in w'.minted
    && w.handed <= w'.handed
    && w.reg.connections.Keys <= w'.reg.connections.Keys
    && w'.reg.browserSessions.Keys <= w.reg.browserSessions.Keys + (w'.minted - w.minted)
    && (forall t {:trigger ClaimOk(w', t)} :: ClaimOk(w', t))
  }

  ghost predicate SameIds(s: Registry, s': Registry) {
    |s'.records| == |s.records| && forall i | 0 <= i < |s.records| :: s'.records[i].ids == s.records[i].ids
                                                                      && s'.records[i].paired == s.records[i].paired
                                                                      && (s'.records[i].state.Closed?
                                                                        <==> s.records[i].state.Closed?)
  }

  /** When keys are steady the invariant is down to the marks of the records. */
  lemma InvSteady(w: World, w': World)
    requires Inv(w) && KeysSteady(w, w') && SameIds(w.reg, w'.reg)
    requires forall i: nat | i < |w'.reg.records| :: MarksAgree(w', i)
    ensures Inv(w')
  {
    forall k ensures TargetKeyOk(w'.reg, k) { assert TargetKeyOk(w.reg, k); }
    forall k ensures SessionKeyOk(w'.reg, k) { assert SessionKeyOk(w.reg, k); }
    forall i: nat ensures RecordOk(w', i) { assert RecordOk(w, i); }
    forall k | k in w'.reg.targets ensures w'.reg.targets[k] < |w'.reg.records| { assert TargetKeyOk(w.reg, k); }
  }

  ghost predicate Aside(e: Event) {
    !e.DidClaim? && !e.DidRegister? && !e.DidClose? && !e.DidCancel? && !e.DidBeginCleanup? && !e.DidRemove?
  }

  lemma ClaimsAside(w: World, e: Event, t: string)
    requires Inv(w) && Enabled(w, e) && Aside(e)
    ensures ClaimOk(Next(w, e), t)
  {
    assert ClaimOk(w, t);
  }

  lemma InvAside(w: World, e: Event)
    requires Inv(w) && Enabled(w, e) && Aside(e)
    ensures Inv(Next(w, e))
  {
    var w' := Next(w, e);
    forall t ensures ClaimOk(w', t) { ClaimsAside(w, e, t); }
    forall i: nat | i < |w'.reg.records| ensures MarksAgree(w', i) { assert RecordOk(w, i); }
    InvSteady(w, w');
  }

  lemma ClaimsClaim(w: World, c: Conn, t: string, g: nat, k: string)
    requires Inv(w) && t !in w.minted
    ensures ClaimOk(AfterClaim(w, c, t, g), k)
  {
    assert ClaimOk(w, k);
  }

  /** What a claim does to the records: at most the attached one changes, to closing or to owned. */
  lemma ClaimEffect(s: Registry, c: Conn, t: string, g: nat, i: nat)
    requires TargetsInRange(s) && i < |s.records|
    ensures var (s', id) := ClaimTarget(s, c, t, g); var r := s.records[i]; var owner := EffectiveClaim(s, c, g).owner;
      if id != Some(i) then s'.records[i] == r
      else if Gone(s, Some(owner)) then s'.records[i] == r.(cancelled := true, state := Closing)
      else s'.records[i] == (if r.owner.None? && r.state.Open? then r.(owner := Some(owner)) else r)
  {
    if t == "" || t !in s.targets {
      assert ClaimTarget(s, c, t, g).0.records == s.records;
    }
  }

  lemma MarksClaim(w: World, c: Conn, t: string, g: nat, i: nat)
    requires TargetsInRange(w.reg) && i < |w.reg.records| && MarksAgree(w, i)
    requires t in w.reg.targets ==> !w.reg.records[w.reg.targets[t]].state.Closed?
    ensures MarksAgree(AfterClaim(w, c, t, g), i)
  {
    ClaimEffect(w.reg, c, t, g, i);
  }

  lemma InvClaim(w: World, c: Conn, t: string, g: nat)
    requires Inv(w) && t !in w.minted
    ensures Inv(AfterClaim(w, c, t, g))
  {
    var w' := AfterClaim(w, c, t, g);
    assert TargetKeyOk(w.reg, t);
    forall k ensures ClaimOk(w', k) { ClaimsClaim(w, c, t, g, k); }
    forall i: nat | i < |w'.reg.records| ensures MarksAgree(w', i) { assert RecordOk(w, i); MarksClaim(w, c, t, g, i); }
    ClaimSteady(w.reg, c, t, g);
    hide ClaimTarget, TargetKeyOk, RecordOk, MarksAgree, ClaimOk;
    InvSteady(w, w');
  }

  lemma ClaimSteady(s: Registry, c: Conn, t: string, g: nat)
    requires TargetsInRange(s) && (t in s.targets ==> !s.records[s.targets[t]].state.Closed?)
    ensures var s' := ClaimTarget(s, c, t, g).0;
      && SameIds(s, s') && s'.targets == s.targets && s'.sessions == s.sessions
          && s'.browserSessions == s.browserSessions
      && s.connections.Keys <= s'.connections.Keys
  {
    var s', owner := ClaimTarget(s, c, t, g).0, EffectiveClaim(s, c, g).owner;
    if t == "" { assert s' == s; }
    else if t !in s.targets { assert s'.records == s.records && s'.connections == s.connections; }
    else if Gone(s, Some(owner)) { assert s'.connections == s.connections; }
    else if s.records[s.targets[t]].owner.None? && s.records[s.targets[t]].state.Open? {
      assert s'.connections == Touch(s, owner).connections;
    } else { assert s' == s; }
  }

  lemma InvCancel(w: World, t: string)
    requires Inv(w)
    ensures Inv(AfterCancel(w, t))
  {
    var w' := AfterCancel(w, t);
    assert TargetKeyOk(w.reg, t);
    forall k ensures ClaimOk(w', k) { assert ClaimOk(w, k); }
    forall i: nat | i < |w'.reg.records| ensures MarksAgree(w', i) { assert RecordOk(w, i); }
    InvSteady(w, w');
  }

  lemma InvCleanup(w: World, id: nat)
    requires Inv(w) && Enabled(w, DidBeginCleanup(id))
    ensures Inv(Next(w, DidBeginCleanup(id)))
  {
    var w' := Next(w, DidBeginCleanup(id));
    forall k ensures ClaimOk(w', k) { assert ClaimOk(w, k); }
    forall i: nat | i < |w'.reg.records| ensures MarksAgree(w', i) { assert RecordOk(w, i); }
    InvSteady(w, w');
  }

  lemma OpenOfNamed(w: World, c: Conn, i: nat)
    requires Inv(w) && i < |w.reg.records|
    ensures i in OpenOf(w.reg, c) <==> w.reg.records[i].owner == Some(c) && w.reg.records[i].state.Open?
  {
    assert RecordOk(w, i);
    var t := w.reg.records[i].ids.pageTarget;
    if w.reg.records[i].state.Open? { assert t in w.reg.targets && w.reg.targets[t] == i; }
  }

  lemma ClaimsClose(w: World, c: Conn, t: string)
    requires Inv(w)
    ensures ClaimOk(AfterClose(w, c), t)
  {
    assert ClaimOk(w, t);
  }

  lemma RecordsClose(w: World, c: Conn, i: nat)
    requires Inv(w) && i < |w.reg.records|
    ensures var w' := AfterClose(w, c);
      && |w'.reg.records| == |w.reg.records| && MarksAgree(w', i)
      && w'.reg.records[i].ids == w.reg.records[i].ids
      && w'.reg.records[i].paired == w.reg.records[i].paired
      && (w'.reg.records[i].state.Closed? <==> w.reg.records[i].state.Closed?)
  {
    assert RecordOk(w, i);
    OpenOfNamed(w, c, i);
  }

  lemma InvClose(w: World, c: Conn)
    requires Inv(w)
    ensures Inv(AfterClose(w, c))
  {
    var w' := AfterClose(w, c);
    assert |w'.reg.records| == |w.reg.records|;
    forall t ensures ClaimOk(w', t) { ClaimsClose(w, c, t); }
    forall i: nat | i < |w.reg.records|
      ensures MarksAgree(w', i) && w'.reg.records[i].ids == w.reg.records[i].ids
      ensures w'.reg.records[i].paired == w.reg.records[i].paired
      ensures w'.reg.records[i].state.Closed? <==> w.reg.records[i].state.Closed?
    { RecordsClose(w, c, i); }
    InvSteady(w, w');
  }

  lemma InvRegister(w: World, owner: Option<Conn>, ids: Ids, paired: bool)
    requires Inv(w) && GoodIds(w, ids, paired) && (owner.Some? ==> owner.value in w.reg.connections)
    ensures Inv(AfterRegister(w, owner, ids, paired))
  {
    var w' := AfterRegister(w, owner, ids, paired);
    assert ClaimOk(w, ids.pageTarget);
    forall k ensures TargetKeyOk(w'.reg, k) { assert TargetKeyOk(w.reg, k); }
    forall k ensures SessionKeyOk(w'.reg, k) { assert SessionKeyOk(w.reg, k); }
    forall k ensures ClaimOk(w', k) { assert ClaimOk(w, k); }
    forall i: nat ensures RecordOk(w', i) { assert RecordOk(w, i); }
  }

  lemma KeysRemove(s: Registry, id: nat, k: string)
    requires id < |s.records| && TargetKeyOk(s, k) && SessionKeyOk(s, k)
    ensures TargetKeyOk(Remove(s, id), k) && SessionKeyOk(Remove(s, id), k)
  {
  }

  lemma NamedRemove(s: Registry, id: nat, i: nat)
    requires id < |s.records| && i < |s.records| && i != id && Named(s, i)
    ensures Named(Remove(s, id), i)
  {
  }

  lemma InvRemove(w: World, id: nat)
    requires Inv(w) && id < |w.reg.records| && w.reg.records[id].cleaned
    ensures Inv(w.(reg := Remove(w.reg, id)))
  {
    var w' := w.(reg := Remove(w.reg, id));
    forall k ensures TargetKeyOk(w'.reg, k) && SessionKeyOk(w'.reg, k) {
      assert TargetKeyOk(w.reg, k) && SessionKeyOk(w.reg, k);
      KeysRemove(w.reg, id, k);
    }
    forall t ensures ClaimOk(w', t) { assert ClaimOk(w, t); }
    forall i: nat ensures RecordOk(w', i) {
      assert RecordOk(w, i);
      if i < |w.reg.records| && i != id && !w.reg.records[i].state.Closed? { NamedRemove(w.reg, id, i); }
    }
  }

  /** Every lock region, whoever calls it and whenever, keeps the invariant. */
  lemma InvNext(w: World, e: Event)
    requires Inv(w) && Enabled(w, e)
    ensures Inv(Next(w, e))
  {
    match e
    case DidClaim(c, t, g) => InvClaim(w, c, t, g);
    case DidRegister(owner, ids, paired) => InvRegister(w, owner, ids, paired);
    case DidClose(c) => InvClose(w, c);
    case DidCancel(t) => InvCancel(w, t);
    case DidBeginCleanup(id) => InvCleanup(w, id);
    case DidRemove(id) => InvRemove(w, id);
    case _ => InvAside(w, e);
  }
}
