/**
 Whole runs of the ownership protocol: any number of clients, backend events, timers and
 disconnects, interleaved in any order that the callers can produce.
 */
module OwnershipRuns {
  import opened Common
  import opened OwnershipProtocol

  ghost predicate Possible(w: World, es: seq<Event>)
    decreases |es|
  {
    es == [] || (TargetsInRange(w.reg) && Enabled(w, es[0]) && Possible(Next(w, es[0]), es[1..]))
  }

  ghost function End(w: World, es: seq<Event>): World
    requires Possible(w, es)
    decreases |es|
  {
    if es == [] then w else End(Next(w, es[0]), es[1..])
  }

  lemma {:induction false} InvRun(w: World, es: seq<Event>)
    requires Inv(w) && Possible(w, es)
    ensures Inv(End(w, es))
    decreases |es|
  {
    if es != [] {
      InvNext(w, es[0]);
      InvRun(Next(w, es[0]), es[1..]);
    }
  }

  // ---------------------------------------------------------------- owners and lifecycles

  /**
   How a record may change: its IDs never do, its lifecycle only moves forward, an owner is
   kept until it is dropped, and a record that has stopped being open gains no owner.
   */
  predicate Later(a: Record, b: Record) {
    && b.ids == a.ids && b.paired == a.paired
    && a.state.Rank() <= b.state.Rank()
    && (a.cleaned ==> b.cleaned) && (a.cancelled ==> b.cancelled)
    && (a.owner.Some? ==> b.owner == a.owner || (b.owner.None? && !b.state.Open?))
    && (a.owner.None? && !a.state.Open? ==> b.owner.None?)
  }

  lemma LaterClose(w: World, c: Conn, i: nat)
    requires Inv(w) && i < |w.reg.records|
    ensures Later(w.reg.records[i], AfterClose(w, c).reg.records[i])
  {
    OpenOfNamed(w, c, i);
  }

  lemma LaterCancel(w: World, t: string, i: nat)
    requires Inv(w) && i < |w.reg.records|
    ensures Later(w.reg.records[i], AfterCancel(w, t).reg.records[i])
  {
    assert TargetKeyOk(w.reg, t);
  }

  lemma LaterRemove(s: Registry, id: nat, i: nat)
    requires id < |s.records| && i < |s.records|
    ensures |s.records| == |Remove(s, id).records| && Later(s.records[i], Remove(s, id).records[i])
  {
    hide Leave;
  }

  lemma LaterCleanup(s: Registry, id: nat, i: nat)
    requires id < |s.records| && i < |s.records|
    ensures |s.records| == |BeginCleanup(s, id).0.records| && Later(s.records[i], BeginCleanup(s, id).0.records[i])
  {
    var r := s.records[id];
    if r.cleaned || r.state.Closed? {
      assert BeginCleanup(s, id).0 == s;
    } else {
      assert BeginCleanup(s, id).0.records == s.records[id := r.(state := Closing, cleaned := true)];
    }
  }

  lemma LaterNext(w: World, e: Event, i: nat)
    requires Inv(w) && Enabled(w, e) && i < |w.reg.records|
    ensures |w.reg.records| <= |Next(w, e).reg.records|
    ensures Later(w.reg.records[i], Next(w, e).reg.records[i])
  {
    match e
    case DidClaim(c, t, g) => assert TargetKeyOk(w.reg, t); ClaimEffect(w.reg, c, t, g, i);
    case DidRegister(owner, ids, paired) => assert Next(w, e).reg.records[i] == w.reg.records[i];
    case DidCancel(t) => LaterCancel(w, t, i);
    case DidClose(c) => LaterClose(w, c, i);
    case DidBeginCleanup(id) => LaterCleanup(w.reg, id, i);
    case DidRemove(id) => LaterRemove(w.reg, id, i);
    case _ => assert Next(w, e).reg.records == w.reg.records;
  }

  /**
   Over every run a record's owner goes at most from none to one connection to none, and its lifecycle
   only forward.
   */
  lemma {:induction false} LaterRun(w: World, es: seq<Event>, i: nat)
    requires Inv(w) && Possible(w, es) && i < |w.reg.records|
    ensures i < |End(w, es).reg.records| && Later(w.reg.records[i], End(w, es).reg.records[i])
    decreases |es|
  {
    if es != [] {
      InvNext(w, es[0]);
      LaterNext(w, es[0], i);
      LaterRun(Next(w, es[0]), es[1..], i);
    }
  }

  // ---------------------------------------------------------------- sessions

  /** `sid` is a session ID in use that can be accepted from `c` or from nobody. */
  ghost predicate OnlyFor(w: World, sid: string, c: Conn) {
    && sid in w.minted
    && (sid in w.reg.sessions ==>
          && w.reg.sessions[sid] < |w.reg.records|
          && var r := w.reg.records[w.reg.sessions[sid]];
             r.owner == Some(c) || (r.owner.None? && !r.state.Open?))
    && (sid in w.reg.browserSessions ==> w.reg.browserSessions[sid] == c)
  }

  lemma OnlyForNext(w: World, e: Event, sid: string, c: Conn)
    requires Inv(w) && Enabled(w, e) && OnlyFor(w, sid, c)
    ensures OnlyFor(Next(w, e), sid, c)
  {
    if sid in w.reg.sessions { LaterNext(w, e, w.reg.sessions[sid]); }
    SessionKeysNext(w, e, sid);
  }

  /** A session ID in use is never given to another record or browser session. */
  lemma SessionKeysNext(w: World, e: Event, sid: string)
    requires Inv(w) && Enabled(w, e) && sid in w.minted
    ensures sid in Next(w, e).minted
    ensures var s' := Next(w, e).reg;
      && (sid in s'.sessions ==> sid in w.reg.sessions && s'.sessions[sid] == w.reg.sessions[sid])
      && (sid in s'.browserSessions
          ==> sid in w.reg.browserSessions && s'.browserSessions[sid] == w.reg.browserSessions[sid])
  {
  }

  lemma {:induction false} OnlyForRun(w: World, es: seq<Event>, sid: string, c: Conn)
    requires Inv(w) && Possible(w, es) && OnlyFor(w, sid, c)
    ensures OnlyFor(End(w, es), sid, c)
    decreases |es|
  {
    if es != [] {
      InvNext(w, es[0]);
      OnlyForNext(w, es[0], sid, c);
      OnlyForRun(Next(w, es[0]), es[1..], sid, c);
    }
  }

  lemma SessionsFromKeys(s: Registry)
    requires forall k {:trigger SessionKeyOk(s, k)} :: SessionKeyOk(s, k)
    ensures SessionsInRange(s)
  {
    forall k | k in s.sessions ensures s.sessions[k] < |s.records| { assert SessionKeyOk(s, k); }
  }

  ghost predicate Accepts(w: World, c: Conn, sid: string)
    requires Inv(w)
  {
    SessionsFromKeys(w.reg);
    SessionOwner(w.reg, sid) == Some(c)
  }

  /** A session ID accepted from one connection is never later accepted from another. */
  lemma SessionNeverChangesHands(w: World, es: seq<Event>, sid: string, c: Conn, d: Conn)
    requires Inv(w) && Possible(w, es) && Accepts(w, c, sid)
    requires Inv(End(w, es)) && Accepts(End(w, es), d, sid)
    ensures c == d
  {
    assert SessionKeyOk(w.reg, sid);
    if sid in w.reg.sessions { assert RecordOk(w, w.reg.sessions[sid]); }
    OnlyForRun(w, es, sid, c);
  }

  // ---------------------------------------------------------------- what is known of a connection

  /** What is known of a connection, nothing of one that was never seen. */
  function StateOf(s: Registry, c: Conn): ConnState {
    if c in s.connections then s.connections[c] else ConnState(false, false, false)
  }

  /** What a step makes of what is known of a connection. */
  function StateAfter(was: ConnState, e: Event, c: Conn): ConnState {
    match e
    case DidClose(d) => if d == c then was.(closed := true) else was
    case DidSetDiscover(d, on) => if d == c then was.(discover := on) else was
    case DidSetAutoAttach(d, on) => if d == c then was.(autoAttach := on) else was
    case _ => was
  }

  lemma StateNext(w: World, e: Event, c: Conn)
    requires Inv(w) && Enabled(w, e)
    ensures StateOf(Next(w, e).reg, c) == StateAfter(StateOf(w.reg, c), e, c)
  {
    match e
    case DidClaim(d, t, g) => ClaimKeepsStates(w.reg, d, t, g, c);
    case DidRegister(owner, ids, paired) => RegisterKeepsStates(w.reg, owner, ids, paired, c);
    case DidClose(d) => CloseClosesOne(w.reg, d, c);
    case Seen(d) => ConnectionStepKeepsStates(w.reg, d, "", c);
    case DidBeginCreate(d) => ConnectionStepKeepsStates(w.reg, d, "", c);
    case DidBrowserSession(d, sid) => ConnectionStepKeepsStates(w.reg, d, sid, c);
    case DidSetDiscover(d, on) => FlagStepSetsState(w.reg, d, on, c);
    case DidSetAutoAttach(d, on) => FlagStepSetsState(w.reg, d, on, c);
    case _ => SameConnections(w, e);
    hide Inv, Enabled, Touch, SetDiscover, SetAutoAttach, BeginCreate, RegisterBrowserSession, ClaimTarget, Register,
      CloseConnection;
  }

  lemma ConnectionStepKeepsStates(s: Registry, d: Conn, sid: string, c: Conn)
    ensures StateOf(Touch(s, d), c) == StateOf(s, c) && StateOf(BeginCreate(s, d), c) == StateOf(s, c)
    ensures StateOf(RegisterBrowserSession(s, d, sid), c) == StateOf(s, c)
  {}

  lemma FlagStepSetsState(s: Registry, d: Conn, on: bool, c: Conn)
    ensures StateOf(SetDiscover(s, d, on), c) == StateAfter(StateOf(s, c), DidSetDiscover(d, on), c)
    ensures StateOf(SetAutoAttach(s, d, on), c) == StateAfter(StateOf(s, c), DidSetAutoAttach(d, on), c)
  {}

  lemma SameConnections(w: World, e: Event)
    requires Inv(w) && Enabled(w, e)
    requires e.DidFinishCreate? || e.DidExpire? || e.DidCancel? || e.DidRemove? || e.DidBeginCleanup?
    ensures Next(w, e).reg.connections == w.reg.connections
  {
    match e
    case DidExpire(t, g) =>
      if t !in w.reg.claims || w.reg.claims[t].generation != g { assert Next(w, e).reg == w.reg; }
    case DidBeginCleanup(id) =>
      if w.reg.records[id].cleaned || w.reg.records[id].state.Closed? { assert Next(w, e).reg == w.reg; }
    case DidCancel(t) => if t == "" { assert Next(w, e).reg == w.reg; }
    case _ =>
  }

  lemma ClaimKeepsStates(s: Registry, d: Conn, t: string, g: nat, c: Conn)
    requires TargetsInRange(s)
    ensures StateOf(ClaimTarget(s, d, t, g).0, c) == StateOf(s, c)
  {}

  lemma RegisterKeepsStates(s: Registry, owner: Option<Conn>, ids: Ids, paired: bool, c: Conn)
    ensures StateOf(Register(s, owner, ids, paired).0, c) == StateOf(s, c)
  {}

  lemma CloseClosesOne(s: Registry, d: Conn, c: Conn)
    ensures var now := StateOf(CloseConnection(s, d).0, c);
      now == StateOf(s, c).(closed := StateOf(s, c).closed || c == d)
  {
    CloseConnections(s, d);
    hide CloseConnection;
  }

  lemma CloseConnections(s: Registry, d: Conn)
    ensures var touched := Touch(s, d).connections;
      CloseConnection(s, d).0.connections == touched[d := touched[d].(closed := true)]
  {
    var touched := Touch(s, d);
    if touched.connections[d].closed {
      assert CloseConnection(s, d).0 == touched;
    } else {
      assert CloseConnection(s, d).0.connections == touched.connections[d := touched.connections[d].(closed := true)];
    }
  }

  // ---------------------------------------------------------------- disconnect

  ghost predicate Disconnected(s: Registry, c: Conn) { c in s.connections && s.connections[c].closed }

  /** Only its own disconnect closes a connection. */
  lemma DisconnectedNext(w: World, e: Event, c: Conn)
    requires Inv(w) && Enabled(w, e)
    ensures Disconnected(Next(w, e).reg, c) <==> Disconnected(w.reg, c) || e == DidClose(c)
  {
    StateNext(w, e, c);
    hide Inv, Enabled, Next;
  }

  /** A connection is closed at the end of a run exactly if it was before, or the run has its disconnect. */
  lemma {:induction false} DisconnectedIff(w: World, es: seq<Event>, c: Conn)
    requires Inv(w) && Possible(w, es)
    ensures Disconnected(End(w, es).reg, c) <==> Disconnected(w.reg, c) || DidClose(c) in es
    decreases |es|
  {
    hide Inv, Enabled, Next, Disconnected;
    if es != [] {
      assert es == [es[0]] + es[1..];
      InvNext(w, es[0]);
      DisconnectedNext(w, es[0], c);
      DisconnectedIff(Next(w, es[0]), es[1..], c);
    }
  }

  /** A connection once closed is closed in every later state. */
  lemma {:induction false} DisconnectedForever(w: World, es: seq<Event>, c: Conn)
    requires Inv(w) && Possible(w, es) && Disconnected(w.reg, c)
    ensures Disconnected(End(w, es).reg, c)
    decreases |es|
  {
    hide Inv, Enabled, Next, Disconnected;
    if es != [] {
      InvNext(w, es[0]);
      DisconnectedNext(w, es[0], c);
      DisconnectedForever(Next(w, es[0]), es[1..], c);
    }
  }

  // ---------------------------------------------------------------- browser sessions

  /** `sid` is the browser session of `c`, who has been seen; nothing else goes by that ID. */
  ghost predicate BrowserSessionOf(w: World, sid: string, c: Conn) {
    && sid in w.minted && sid !in w.reg.sessions && (!Disconnected(w.reg, c) ==> !Gone(w.reg, Some(c)))
    && (sid in w.reg.browserSessions ==> w.reg.browserSessions[sid] == c)
    && (Disconnected(w.reg, c) || sid in w.reg.browserSessions)
  }

  /** Registering a browser session makes it its client's. */
  lemma BrowserSessionStored(w: World, c: Conn, sid: string)
    requires Inv(w) && Enabled(w, DidBrowserSession(c, sid))
    ensures BrowserSessionOf(Next(w, DidBrowserSession(c, sid)), sid, c)
    ensures Disconnected(Next(w, DidBrowserSession(c, sid)).reg, c) <==> Disconnected(w.reg, c)
  {}

  /** Only a disconnect drops browser sessions, and only those of its own client. */
  lemma BrowserSessionsNext(w: World, e: Event, sid: string)
    requires Inv(w) && Enabled(w, e) && sid in w.minted
    ensures sid in w.reg.browserSessions && e != DidClose(w.reg.browserSessions[sid]) ==>
      sid in Next(w, e).reg.browserSessions && Next(w, e).reg.browserSessions[sid] == w.reg.browserSessions[sid]
  {
    match e
    case DidClaim(d, t, g) => ClaimKeepsBrowserSessions(w.reg, d, t, g);
    case DidClose(d) =>
      if !Touch(w.reg, d).connections[d].closed {} else {
        assert Next(w, e).reg.browserSessions == w.reg.browserSessions;
      }
    case _ =>
  }

  lemma ClaimKeepsBrowserSessions(s: Registry, d: Conn, t: string, g: nat)
    requires TargetsInRange(s)
    ensures ClaimTarget(s, d, t, g).0.browserSessions == s.browserSessions
  {}

  lemma BrowserSessionNext(w: World, e: Event, sid: string, c: Conn)
    requires Inv(w) && Enabled(w, e) && BrowserSessionOf(w, sid, c)
    ensures BrowserSessionOf(Next(w, e), sid, c)
  {
    SessionKeysNext(w, e, sid);
    DisconnectedNext(w, e, c);
    BrowserSessionsNext(w, e, sid);
    hide Inv, Enabled, Next, Disconnected;
  }

  lemma {:induction false} BrowserSessionRun(w: World, es: seq<Event>, sid: string, c: Conn)
    requires Inv(w) && Possible(w, es) && BrowserSessionOf(w, sid, c)
    ensures BrowserSessionOf(End(w, es), sid, c)
    decreases |es|
  {
    hide Inv, Enabled, Next, BrowserSessionOf;
    if es != [] {
      InvNext(w, es[0]);
      BrowserSessionNext(w, es[0], sid, c);
      BrowserSessionRun(Next(w, es[0]), es[1..], sid, c);
    }
  }

  /**
   A browser session belongs to the client it was given to, from its registration through every
   later state, exactly until that client disconnects.
   */
  lemma BrowserSessionWorks(w: World, c: Conn, sid: string, es: seq<Event>)
    requires Inv(w) && Enabled(w, DidBrowserSession(c, sid)) && Possible(Next(w, DidBrowserSession(c, sid)), es)
    ensures var s := End(Next(w, DidBrowserSession(c, sid)), es).reg;
      && SessionsInRange(s) && sid !in s.sessions
      && SessionOwner(s, sid) == (if Disconnected(w.reg, c) || DidClose(c) in es then None else Some(c))
  {
    var w1 := Next(w, DidBrowserSession(c, sid));
    InvNext(w, DidBrowserSession(c, sid));
    BrowserSessionStored(w, c, sid);
    BrowserSessionRun(w1, es, sid, c);
    DisconnectedIff(w1, es, c);
    InvRun(w1, es);
    SessionsFromKeys(End(w1, es).reg);
    assert KeysSeen(End(w1, es));
    hide Inv, Possible, End, Next, Enabled;
  }

  /** And until then it is known to be a browser session. */
  lemma BrowserSessionHeld(w: World, c: Conn, sid: string, es: seq<Event>)
    requires Inv(w) && Enabled(w, DidBrowserSession(c, sid)) && Possible(Next(w, DidBrowserSession(c, sid)), es)
    ensures var s := End(Next(w, DidBrowserSession(c, sid)), es).reg;
      sid != "" && (!Disconnected(w.reg, c) && DidClose(c) !in es ==> sid in s.browserSessions)
  {
    var w1 := Next(w, DidBrowserSession(c, sid));
    InvNext(w, DidBrowserSession(c, sid));
    BrowserSessionStored(w, c, sid);
    BrowserSessionRun(w1, es, sid, c);
    DisconnectedIff(w1, es, c);
    hide Inv, Possible, End, Next;
  }

  // ---------------------------------------------------------------- what an ID answers

  /** The connection a record answers for: its owner, while the record is open and the owner connected. */
  function Answers(s: Registry, r: Record): Option<Conn> {
    if r.state.Open? && !Gone(s, r.owner) then r.owner else None
  }

  /** Every ID of a record, of its page or of its tab, target or session, answers for the same connection. */
  lemma EveryIdAnswers(w: World, i: nat)
    requires Inv(w) && i < |w.reg.records| && !w.reg.records[i].state.Closed?
    ensures SessionsInRange(w.reg)
    ensures var r := w.reg.records[i];
      && OwnerForTarget(w.reg, r.ids.pageTarget) == Answers(w.reg, r)
      && SessionOwner(w.reg, r.ids.pageSession) == Answers(w.reg, r)
      && (r.paired ==>
            && OwnerForTarget(w.reg, r.ids.tabTarget) == Answers(w.reg, r)
            && SessionOwner(w.reg, r.ids.tabSession) == Answers(w.reg, r))
  {
    SessionsFromKeys(w.reg);
    assert RecordOk(w, i);
  }

  /**
   A target ID answers for a connection exactly when it is one of the IDs of an open record that the
   connection owns.
   */
  lemma OwnerForTargetIff(w: World, t: string, c: Conn)
    requires Inv(w)
    ensures OwnerForTarget(w.reg, t) == Some(c) <==>
      && !Gone(w.reg, Some(c)) && t != ""
      && exists i :: 0 <= i < |w.reg.records| && w.reg.records[i].state.Open? && w.reg.records[i].owner == Some(c)
                     && (t == w.reg.records[i].ids.pageTarget || t == w.reg.records[i].ids.tabTarget)
  {
    assert TargetKeyOk(w.reg, t);
    if OwnerForTarget(w.reg, t) == Some(c) { assert w.reg.records[w.reg.targets[t]].state.Open?; }
    forall i | 0 <= i < |w.reg.records| && w.reg.records[i].state.Open? && w.reg.records[i].owner == Some(c)
               && t != "" && (t == w.reg.records[i].ids.pageTarget || t == w.reg.records[i].ids.tabTarget)
      ensures Names(w.reg.targets, t, i)
    { assert RecordOk(w, i); }
  }

  // ---------------------------------------------------------------- the flags of a connection

  /** The last value a run gives to the flag that says whether a connection wants to hear of new targets. */
  function LastDiscover(es: seq<Event>, c: Conn): Option<bool> {
    if es == [] then None
    else
      var later := LastDiscover(es[1..], c);
      if later.Some? then later else if es[0].DidSetDiscover? && es[0].c == c then Some(es[0].on) else None
  }

  function LastAutoAttach(es: seq<Event>, c: Conn): Option<bool> {
    if es == [] then None
    else
      var later := LastAutoAttach(es[1..], c);
      if later.Some? then later else if es[0].DidSetAutoAttach? && es[0].c == c then Some(es[0].on) else None
  }

  predicate Discovers(s: Registry, c: Conn) { c in s.connections && s.connections[c].discover }

  predicate AutoAttaches(s: Registry, c: Conn) { c in s.connections && s.connections[c].autoAttach }

  lemma FlagsNext(w: World, e: Event, c: Conn)
    requires Inv(w) && Enabled(w, e)
    ensures Discovers(Next(w, e).reg, c) == if e.DidSetDiscover? && e.c == c then e.on else Discovers(w.reg, c)
    ensures AutoAttaches(Next(w, e).reg, c) == if e.DidSetAutoAttach? && e.c == c then e.on else AutoAttaches(w.reg, c)
  {
    StateNext(w, e, c);
    hide Inv, Enabled, Next;
  }

  /** Over every run a connection's flags are what it last asked for, and off until it has asked. */
  lemma {:induction false} FlagsAreLastSet(w: World, es: seq<Event>, c: Conn)
    requires Inv(w) && Possible(w, es)
    ensures Discovers(End(w, es).reg, c)
         == match LastDiscover(es, c) case Some(on) => on case None => Discovers(w.reg, c)
    ensures AutoAttaches(End(w, es).reg, c)
         == match LastAutoAttach(es, c) case Some(on) => on case None => AutoAttaches(w.reg, c)
    decreases |es|
  {
    hide Inv, Enabled, Next, Discovers, AutoAttaches;
    if es != [] {
      InvNext(w, es[0]);
      FlagsNext(w, es[0], c);
      FlagsAreLastSet(Next(w, es[0]), es[1..], c);
    }
  }

  lemma FlagsStartOff(c: Conn)
    ensures !Discovers(START.reg, c) && !AutoAttaches(START.reg, c)
  {}

  // ---------------------------------------------------------------- connections and create calls

  /** The steps in which a connection makes itself known. */
  predicate ComesWith(e: Event, c: Conn) {
    match e
    case Seen(d) => d == c
    case DidBeginCreate(d) => d == c
    case DidBrowserSession(d, sid) => d == c
    case DidClose(d) => d == c
    case DidSetDiscover(d, on) => d == c
    case DidSetAutoAttach(d, on) => d == c
    case _ => false
  }

  lemma ClaimKeepsConnections(w: World, d: Conn, t: string, g: nat)
    requires Inv(w)
    ensures ClaimTarget(w.reg, d, t, g).0.connections == w.reg.connections
  {
    assert t in w.reg.targets ==> w.reg.targets[t] < |w.reg.records| by { assert TargetKeyOk(w.reg, t); }
  }

  lemma RegisterKeepsConnections(w: World, owner: Option<Conn>, ids: Ids, paired: bool)
    requires Inv(w) && (owner.Some? ==> owner.value in w.reg.connections)
    ensures Register(w.reg, owner, ids, paired).0.connections == w.reg.connections
  {
    assert ClaimOk(w, ids.pageTarget);
  }

  lemma KnownNext(w: World, e: Event, c: Conn)
    requires Inv(w) && Enabled(w, e)
    ensures c in Next(w, e).reg.connections <==> c in w.reg.connections || ComesWith(e, c)
  {
    match e
    case DidClaim(d, t, g) => ClaimKeepsConnections(w, d, t, g);
    case DidRegister(owner, ids, paired) => RegisterKeepsConnections(w, owner, ids, paired);
    case DidClose(d) => CloseConnections(w.reg, d);
    case Seen(d) =>
    case DidBeginCreate(d) =>
    case DidBrowserSession(d, sid) =>
    case DidSetDiscover(d, on) =>
    case DidSetAutoAttach(d, on) =>
    case _ => SameConnections(w, e);
    hide Inv, ClaimTarget, Register, CloseConnection;
  }

  /** The registry knows exactly the connections that have come with a step of their own, and forgets none. */
  lemma {:induction false} KnownIff(w: World, es: seq<Event>, c: Conn)
    requires Inv(w) && Possible(w, es)
    ensures c in End(w, es).reg.connections <==> c in w.reg.connections || exists e :: e in es && ComesWith(e, c)
    decreases |es|
  {
    hide Inv, Enabled, Next, ComesWith;
    if es != [] {
      assert es == [es[0]] + es[1..];
      InvNext(w, es[0]);
      KnownNext(w, es[0], c);
      KnownIff(Next(w, es[0]), es[1..], c);
    }
  }

  lemma GenerationNext(w: World, e: Event)
    requires Inv(w) && Enabled(w, e)
    ensures Next(w, e).reg.nextGeneration == w.reg.nextGeneration + if e.DidBeginCreate? then 1 else 0
  {
    match e
    case DidClaim(d, t, g) => assert ClaimTarget(w.reg, d, t, g).0.nextGeneration == w.reg.nextGeneration;
    case DidClose(d) => assert CloseConnection(w.reg, d).0.nextGeneration == w.reg.nextGeneration;
    case _ =>
    hide Inv, ClaimTarget, CloseConnection;
  }

  /** The create calls of a run. */
  function Creations(es: seq<Event>): nat {
    if es == [] then 0 else (if es[0].DidBeginCreate? then 1 else 0) + Creations(es[1..])
  }

  lemma {:induction false} GenerationsCount(w: World, es: seq<Event>)
    requires Inv(w) && Possible(w, es)
    ensures End(w, es).reg.nextGeneration == w.reg.nextGeneration + Creations(es)
    decreases |es|
  {
    hide Inv, Enabled, Next;
    if es != [] {
      InvNext(w, es[0]);
      GenerationNext(w, es[0]);
      GenerationsCount(Next(w, es[0]), es[1..]);
    }
  }

  /** A step that may end the create call `g` of `c`. */
  predicate EndsCreate(e: Event, c: Conn, g: nat) { e == DidFinishCreate(g) || e == DidClose(c) }

  ghost predicate Creating(s: Registry, c: Conn, g: nat) { g in s.pending && s.pending[g] == Claim(c, g) }

  lemma CreatingNext(w: World, e: Event, c: Conn, g: nat)
    requires Inv(w) && Enabled(w, e) && Creating(w.reg, c, g) && g <= w.reg.nextGeneration && !EndsCreate(e, c, g)
    ensures Creating(Next(w, e).reg, c, g)
  {
    match e
    case DidClaim(d, t, h) => ClaimKeepsPending(w.reg, d, t, h);
    case DidClose(d) => CloseKeepsCreating(w.reg, d, c, g);
    case _ =>
    hide Inv, ClaimTarget, CloseConnection, Register, Touch;
  }

  lemma ClaimKeepsPending(s: Registry, d: Conn, t: string, h: nat)
    requires TargetsInRange(s)
    ensures ClaimTarget(s, d, t, h).0.pending == s.pending
  {}

  lemma CloseKeepsCreating(s: Registry, d: Conn, c: Conn, g: nat)
    requires Creating(s, c, g) && d != c
    ensures Creating(CloseConnection(s, d).0, c, g)
  {
    if Touch(s, d).connections[d].closed { assert CloseConnection(s, d).0.pending == s.pending; }
  }

  lemma {:induction false} CreatingRun(w: World, es: seq<Event>, c: Conn, g: nat)
    requires Inv(w) && Possible(w, es) && Creating(w.reg, c, g) && g <= w.reg.nextGeneration
    requires DidFinishCreate(g) !in es && DidClose(c) !in es
    ensures Creating(End(w, es).reg, c, g)
    decreases |es|
  {
    hide Inv, Enabled, Next, Creating;
    if es != [] {
      InvNext(w, es[0]);
      GenerationNext(w, es[0]);
      CreatingNext(w, es[0], c, g);
      CreatingRun(Next(w, es[0]), es[1..], c, g);
    }
  }

  /**
   Create calls are numbered in the order in which they begin, and each is pending under its number,
   as its caller's, until it returns or the caller disconnects.
   */
  lemma CreateCallsAreNumbered(w: World, c: Conn, es: seq<Event>)
    requires Inv(w) && Possible(Next(w, DidBeginCreate(c)), es)
    ensures var w' := End(Next(w, DidBeginCreate(c)), es); var g := w.reg.nextGeneration + 1;
      && w'.reg.nextGeneration == g + Creations(es)
      && (DidFinishCreate(g) !in es && DidClose(c) !in es ==> Creating(w'.reg, c, g))
  {
    var w1, g := Next(w, DidBeginCreate(c)), w.reg.nextGeneration + 1;
    InvNext(w, DidBeginCreate(c));
    GenerationNext(w, DidBeginCreate(c));
    GenerationsCount(w1, es);
    assert Creating(w1.reg, c, g);
    hide Inv, Next, Enabled, Creating, End, Possible;
    if DidFinishCreate(g) !in es && DidClose(c) !in es { CreatingRun(w1, es, c, g); }
  }

  /** A create call that has returned is pending no longer. */
  lemma FinishedIsNotPending(w: World, g: nat)
    requires Inv(w)
    ensures g !in Next(w, DidFinishCreate(g)).reg.pending
    ensures forall h | h in w.reg.pending && h != g ::
      h in Next(w, DidFinishCreate(g)).reg.pending && Next(w, DidFinishCreate(g)).reg.pending[h] == w.reg.pending[h]
  {}

  /** The claim of a create call waits under the call's number for a target that is not attached yet. */
  lemma ClaimWaits(w: World, c: Conn, t: string, g: nat)
    requires Inv(w) && Enabled(w, DidClaim(c, t, g)) && t !in w.reg.targets
    requires Creating(w.reg, c, g) && !Gone(w.reg, Some(c))
    ensures var s := Next(w, DidClaim(c, t, g)).reg;
      && s.claims == w.reg.claims[t := Claim(c, g)] && s.cancelledTargets == w.reg.cancelledTargets
      && s.records == w.reg.records && s.pending == w.reg.pending
  {}

  /**
   An attach adds one record and uses up what was noted for its target, the claim or the cancellation;
   what was noted for other targets stays.
   */
  lemma AttachWrites(w: World, owner: Option<Conn>, ids: Ids, paired: bool)
    requires Inv(w) && Enabled(w, DidRegister(owner, ids, paired))
    ensures var s := Next(w, DidRegister(owner, ids, paired)).reg; var t := ids.pageTarget;
      && s.claims == w.reg.claims - {t} && s.cancelledTargets == w.reg.cancelledTargets - {t}
      && |s.records| == |w.reg.records| + 1 && s.records[..|w.reg.records|] == w.reg.records
      && var r := s.records[|w.reg.records|];
         && r.ids == ids && r.paired == paired && !r.cleaned
         && (if t in w.reg.claims then r.state.Open? && !r.cancelled && r.owner == Some(w.reg.claims[t].owner)
             else if t in w.reg.cancelledTargets then r.state.Closing? && r.cancelled && r.owner.None?
             else r.state.Open? && !r.cancelled && r.owner == owner)
  {
    assert ClaimOk(w, ids.pageTarget);
  }

  // ---------------------------------------------------------------- claims and disconnects

  /** In every reachable state the owner of each claim is a live connection. */
  lemma ClaimOwnersLive(es: seq<Event>, t: string)
    requires Possible(START, es) && t in End(START, es).reg.claims
    ensures !Gone(End(START, es).reg, Some(End(START, es).reg.claims[t].owner))
  {
    InvStart();
    InvRun(START, es);
    assert ClaimOk(End(START, es), t);
  }

  /**
   A disconnect hands back exactly the open records of the connection, orphans them, leaves
   the others as they were, and leaves nothing behind that names the connection.
   */
  lemma CloseIsExact(w: World, c: Conn)
    requires Inv(w) && !Disconnected(w.reg, c)
    ensures var (s', ids) := CloseConnection(w.reg, c);
      && (forall i | 0 <= i < |w.reg.records| ::
            var r := w.reg.records[i];
            && (i in ids <==> r.owner == Some(c) && r.state.Open?)
            && s'.records[i] == (if r.owner == Some(c) && r.state.Open? then r.(owner := None, state := Closing)
                else r))
      && (forall i | i in ids :: i < |w.reg.records|)
      && (forall g | g in s'.pending :: s'.pending[g].owner != c)
      && (forall t | t in s'.claims :: s'.claims[t].owner != c)
      && (forall sid | sid in s'.browserSessions :: s'.browserSessions[sid] != c)
      && (forall t | t in w.reg.claims && w.reg.claims[t].owner == c :: t in s'.cancelledTargets)
  {
    forall i | 0 <= i < |w.reg.records|
      ensures i in OpenOf(w.reg, c) <==> w.reg.records[i].owner == Some(c) && w.reg.records[i].state.Open?
    { OpenOfNamed(w, c, i); }
  }

  ghost predicate Untouched(es: seq<Event>, t: string) {
    forall e | e in es :: !(e.DidClaim? && e.t == t) && !(e.DidRegister? && e.ids.pageTarget == t)
  }

  ghost predicate Doomed(w: World, t: string) { t in w.reg.cancelledTargets && t !in w.reg.claims }

  lemma DoomedNext(w: World, e: Event, t: string)
    requires Inv(w) && Enabled(w, e) && Doomed(w, t) && Untouched([e], t)
    ensures Doomed(Next(w, e), t)
  {
    assert TargetsInRange(w.reg) && e in [e];
    hide Inv;
    match e
    case DidClaim(c, u, g) => DoomedClaim(w, c, u, g, t);
    case DidRegister(owner, ids, paired) =>
      assert Next(w, e).reg.cancelledTargets == w.reg.cancelledTargets - {ids.pageTarget};
    case DidClose(c) => DoomedClose(w, c, t);
    case DidCancel(u) => DoomedCancel(w, u, t);
    case DidExpire(u, g) =>
      if u !in w.reg.claims || w.reg.claims[u].generation != g { assert Next(w, e).reg == w.reg; }
      else { assert Next(w, e).reg.cancelledTargets == w.reg.cancelledTargets + {u}; }
    case DidBeginCleanup(id) =>
      if w.reg.records[id].cleaned || w.reg.records[id].state.Closed? { assert Next(w, e).reg == w.reg; }
      else { assert Next(w, e).reg.claims == w.reg.claims; }
    case _ => assert Next(w, e).reg.claims == w.reg.claims && Next(w, e).reg.cancelledTargets == w.reg.cancelledTargets;
  }

  lemma DoomedClaim(w: World, c: Conn, u: string, g: nat, t: string)
    requires TargetsInRange(w.reg) && Doomed(w, t) && u != t
    ensures Doomed(AfterClaim(w, c, u, g), t)
  {
    var claim := EffectiveClaim(w.reg, c, g);
    if u == "" { assert AfterClaim(w, c, u, g).reg == w.reg; }
    else if u in w.reg.targets { assert AfterClaim(w, c, u, g).reg.claims == w.reg.claims; }
    else if Gone(w.reg, Some(claim.owner)) { assert AfterClaim(w, c, u, g).reg.claims == w.reg.claims; }
    else { assert AfterClaim(w, c, u, g).reg.claims == w.reg.claims[u := claim]; }
  }

  lemma DoomedClose(w: World, c: Conn, t: string)
    requires Doomed(w, t)
    ensures Doomed(AfterClose(w, c), t)
  {
    var touched := Touch(w.reg, c);
    assert touched.claims == w.reg.claims && touched.cancelledTargets == w.reg.cancelledTargets;
    if touched.connections[c].closed { assert AfterClose(w, c).reg == touched; }
    else { assert t in AfterClose(w, c).reg.cancelledTargets && t !in AfterClose(w, c).reg.claims; }
  }

  lemma DoomedCancel(w: World, u: string, t: string)
    requires TargetsInRange(w.reg) && Doomed(w, t)
    ensures Doomed(AfterCancel(w, u), t)
  {
    if u == "" { assert AfterCancel(w, u).reg == w.reg; }
    else if u in w.reg.targets { assert AfterCancel(w, u).reg.claims == w.reg.claims - {u}; }
    else { assert AfterCancel(w, u).reg.claims == w.reg.claims - {u}; }
  }

  lemma {:induction false} DoomedRun(w: World, es: seq<Event>, t: string)
    requires Inv(w) && Possible(w, es) && Doomed(w, t) && Untouched(es, t)
    ensures Doomed(End(w, es), t)
    decreases |es|
  {
    if es != [] {
      InvNext(w, es[0]);
      DoomedNext(w, es[0], t);
      DoomedRun(Next(w, es[0]), es[1..], t);
    }
  }

  /** A target claimed by a connection that has since gone registers as cancelled, unowned and handed to its closer. */
  lemma LateAttachIsCancelled(w: World, c: Conn, t: string, es: seq<Event>, owner: Option<Conn>, ids: Ids, paired: bool)
    requires Inv(w) && !Disconnected(w.reg, c)
    requires t in w.reg.claims && w.reg.claims[t].owner == c
    requires Possible(AfterClose(w, c), es) && Untouched(es, t) && ids.pageTarget == t
    ensures var w1 := End(AfterClose(w, c), es); var id := |w1.reg.records|;
      var w2 := AfterRegister(w1, owner, ids, paired);
      && w2.reg.records == w1.reg.records + [Record(ids, None, Closing, paired, false, true)] && id in w2.handed
  {
    assert AfterClose(w, c) == Next(w, DidClose(c));
    InvNext(w, DidClose(c));
    assert Doomed(AfterClose(w, c), t);
    DoomedRun(AfterClose(w, c), es, t);
    DoomedRegisters(End(AfterClose(w, c), es), owner, ids, paired);
  }

  lemma DoomedRegisters(w: World, owner: Option<Conn>, ids: Ids, paired: bool)
    requires Doomed(w, ids.pageTarget)
    ensures var w2 := AfterRegister(w, owner, ids, paired); var id := |w.reg.records|;
      && w2.reg.records == w.reg.records + [Record(ids, None, Closing, paired, false, true)] && id in w2.handed
  {
  }

  /** A timer cancels a target only while no attach has met the claim; after that it changes nothing. */
  lemma ExpiryOnlyWhileUnmatched(w: World, t: string, g: nat)
    requires Inv(w)
    ensures t in w.reg.targets ==> ExpireClaim(w.reg, t, g) == (w.reg, false)
    ensures ExpireClaim(w.reg, t, g).1 ==> Doomed(w.(reg := ExpireClaim(w.reg, t, g).0), t)
    ensures ExpireClaim(w.reg, t, g).1 <==> t in w.reg.claims && w.reg.claims[t].generation == g
  {
    assert ClaimOk(w, t);
  }

  // ---------------------------------------------------------------- cleanup runs once

  predicate Cleaned(s: Registry, id: nat) { id < |s.records| && s.records[id].cleaned }

  /** How many of the callers that tried to clean up record `id` were told to go ahead. */
  ghost function Wins(w: World, es: seq<Event>, id: nat): nat
    requires Possible(w, es)
    decreases |es|
  {
    if es == [] then 0
    else
      (if es[0] == DidBeginCleanup(id) && id < |w.reg.records| && BeginCleanup(w.reg, id).1 then 1 else 0)
      + Wins(Next(w, es[0]), es[1..], id)
  }

  lemma CleanedNext(w: World, e: Event, id: nat)
    requires Inv(w) && Enabled(w, e)
    ensures Cleaned(Next(w, e).reg, id) <==> Cleaned(w.reg, id) || e == DidBeginCleanup(id)
    ensures e == DidBeginCleanup(id) ==> id < |w.reg.records| && BeginCleanup(w.reg, id).1 == !Cleaned(w.reg, id)
  {
    assert RecordOk(w, id);
    if id < |w.reg.records| {
      LaterNext(w, e, id);
      if !Cleaned(w.reg, id) && e != DidBeginCleanup(id) { CleanedOnlyByCleanup(w, e, id); }
    }
  }

  lemma CleanedOnlyByCleanup(w: World, e: Event, id: nat)
    requires Inv(w) && Enabled(w, e) && id < |w.reg.records| <= |Next(w, e).reg.records|
    requires !Cleaned(w.reg, id) && e != DidBeginCleanup(id)
    ensures !Cleaned(Next(w, e).reg, id)
  {
    match e
    case DidClaim(c, t, g) => ClaimEffect(w.reg, c, t, g, id);
    case _ =>
  }

  /**
   However page close, target close, disconnect and backend detach are interleaved on a record,
   the number of cleanups that go ahead is one if anyone tried, and none otherwise.
   */
  lemma {:induction false} CleanupRunsOnce(w: World, es: seq<Event>, id: nat)
    requires Inv(w) && Possible(w, es) && !Cleaned(w.reg, id)
    ensures Wins(w, es, id) == if DidBeginCleanup(id) in es then 1 else 0
    decreases |es|
  {
    if es != [] {
      InvNext(w, es[0]);
      CleanedNext(w, es[0], id);
      assert es == [es[0]] + es[1..];
      if es[0] == DidBeginCleanup(id) { NoSecondCleanup(Next(w, es[0]), es[1..], id); }
      else { CleanupRunsOnce(Next(w, es[0]), es[1..], id); }
    }
  }

  lemma {:induction false} NoSecondCleanup(w: World, es: seq<Event>, id: nat)
    requires Inv(w) && Possible(w, es) && Cleaned(w.reg, id)
    ensures Wins(w, es, id) == 0
    decreases |es|
  {
    if es != [] {
      InvNext(w, es[0]);
      CleanedNext(w, es[0], id);
      NoSecondCleanup(Next(w, es[0]), es[1..], id);
    }
  }

  ghost predicate Forgotten(s: Registry, id: nat) {
    && (forall k | k in s.targets :: s.targets[k] != id)
    && (forall k | k in s.sessions :: s.sessions[k] != id)
  }

  /** Once a record is removed no key of the registry names it, then or at any later time. */
  lemma RemovedIsForgotten(w: World, id: nat, es: seq<Event>)
    requires Inv(w) && Enabled(w, DidRemove(id)) && Possible(Next(w, DidRemove(id)), es)
    ensures var s := End(Next(w, DidRemove(id)), es).reg;
      Forgotten(s, id) && id < |s.records| && s.records[id].state.Closed?
  {
    var w1 := Next(w, DidRemove(id));
    InvNext(w, DidRemove(id));
    InvRun(w1, es);
    LaterRun(w1, es, id);
    var s := End(w1, es).reg;
    forall k | k in s.targets ensures s.targets[k] != id { assert TargetKeyOk(s, k); }
    forall k | k in s.sessions ensures s.sessions[k] != id { assert SessionKeyOk(s, k); }
  }

  /** No record is left closing without a caller that will close it, in any reachable state. */
  lemma NoRecordIsStranded(es: seq<Event>, i: nat)
    requires Possible(START, es) && i < |End(START, es).reg.records|
    ensures var w := End(START, es);
      w.reg.records[i].state.Closing? ==> i in w.handed || w.reg.records[i].cleaned
  {
    InvStart();
    InvRun(START, es);
    assert RecordOk(End(START, es), i);
  }

  // ---------------------------------------------------------------- the owner looked up too early

  /** Every open record that has an owner has a live one. */
  ghost predicate OwnersLive(s: Registry) {
    forall i | 0 <= i < |s.records| && s.records[i].state.Open? && s.records[i].owner.Some? ::
      !Gone(s, s.records[i].owner)
  }

  /** The attach handler looked its owner up in an earlier region; it is still good, or not used. */
  predicate OwnerStillGood(s: Registry, owner: Option<Conn>, t: string) {
    owner.None? || t in s.claims || t in s.cancelledTargets || !Gone(s, owner)
  }

  /**
   Registering keeps every open record with a live owner exactly when the owner passed in is
   absent, overruled by a claim or a cancellation, or still connected at that moment.
   */
  lemma RegisterKeepsOwnersLive(w: World, owner: Option<Conn>, ids: Ids, paired: bool)
    requires Inv(w) && OwnersLive(w.reg) && Enabled(w, DidRegister(owner, ids, paired))
    ensures OwnersLive(AfterRegister(w, owner, ids, paired).reg) <==> OwnerStillGood(w.reg, owner, ids.pageTarget)
  {
    var s' := AfterRegister(w, owner, ids, paired).reg;
    var id := |w.reg.records|;
    assert ClaimOk(w, ids.pageTarget);
    assert s'.records[id].state.Open? && s'.records[id].owner.Some? ==>
      (Gone(s', s'.records[id].owner) <==> !OwnerStillGood(w.reg, owner, ids.pageTarget));
    forall i | 0 <= i < id ensures s'.records[i] == w.reg.records[i] {}
    if OwnerStillGood(w.reg, owner, ids.pageTarget) {
      forall i | 0 <= i < |s'.records| && s'.records[i].state.Open? && s'.records[i].owner.Some?
        ensures !Gone(s', s'.records[i].owner)
      {}
    }
  }

  lemma OwnersLiveClaim(w: World, c: Conn, t: string, g: nat)
    requires Inv(w) && OwnersLive(w.reg)
    ensures OwnersLive(AfterClaim(w, c, t, g).reg)
  {
    var s' := AfterClaim(w, c, t, g).reg;
    forall i | 0 <= i < |s'.records| && s'.records[i].state.Open? && s'.records[i].owner.Some?
      ensures !Gone(s', s'.records[i].owner)
    { ClaimEffect(w.reg, c, t, g, i); }
  }

  lemma OwnersLiveClose(w: World, c: Conn)
    requires Inv(w) && OwnersLive(w.reg)
    ensures OwnersLive(AfterClose(w, c).reg)
  {
    var s' := AfterClose(w, c).reg;
    forall i | 0 <= i < |s'.records| && s'.records[i].state.Open? && s'.records[i].owner.Some?
      ensures !Gone(s', s'.records[i].owner)
    { OpenOfNamed(w, c, i); }
  }

  lemma OwnersLiveCancel(w: World, t: string)
    requires Inv(w) && OwnersLive(w.reg)
    ensures OwnersLive(AfterCancel(w, t).reg)
  {
    assert TargetKeyOk(w.reg, t);
  }

  lemma OwnersLiveNext(w: World, e: Event)
    requires Inv(w) && OwnersLive(w.reg) && Enabled(w, e)
    requires e.DidRegister? ==> OwnerStillGood(w.reg, e.owner, e.ids.pageTarget)
    ensures OwnersLive(Next(w, e).reg)
  {
    match e
    case DidClaim(c, t, g) => OwnersLiveClaim(w, c, t, g);
    case DidRegister(owner, ids, paired) => RegisterKeepsOwnersLive(w, owner, ids, paired);
    case DidClose(c) => OwnersLiveClose(w, c);
    case DidCancel(t) => OwnersLiveCancel(w, t);
    case DidBeginCleanup(id) =>
    case DidRemove(id) =>
    case _ => assert Next(w, e).reg.records == w.reg.records;
  }

  /** Every registration of the run is handed an owner that is still good. */
  ghost predicate OwnersStayGood(w: World, es: seq<Event>)
    requires Possible(w, es)
    decreases |es|
  {
    es == [] || ((es[0].DidRegister? ==> OwnerStillGood(w.reg, es[0].owner, es[0].ids.pageTarget))
                 && OwnersStayGood(Next(w, es[0]), es[1..]))
  }

  lemma {:induction false} OwnersLiveRun(w: World, es: seq<Event>)
    requires Inv(w) && OwnersLive(w.reg) && Possible(w, es) && OwnersStayGood(w, es)
    ensures OwnersLive(End(w, es).reg)
    decreases |es|
  {
    if es != [] {
      InvNext(w, es[0]);
      OwnersLiveNext(w, es[0]);
      OwnersLiveRun(Next(w, es[0]), es[1..]);
    }
  }

  const OPENER := Ids("opener", "tab 1", "page session 1", "tab session 1", "juggler 1")
  const POPUP := Ids("popup", "tab 2", "page session 2", "tab session 2", "juggler 2")

  const LOOKED_UP := World(
    Registry(1, map[0 := ConnState(false, false, false)],
             map["opener" := 0, "tab 1" := 0], map["page session 1" := 0, "tab session 1" := 0],
             map[], map[], map[], {}, [Record(OPENER, Some(0), Open, true, false, false)]),
    {"opener", "tab 1", "page session 1", "tab session 1"}, {"tab 1", "page session 1", "tab session 1"}, {})

  const CREATED := World(
    Registry(1, map[0 := ConnState(false, false, false)], map[], map[], map[], map[1 := Claim(0, 1)], map[], {}, []),
        {}, {}, {})

  const CLAIMED := World(
    Registry(1, map[0 := ConnState(false, false, false)], map[], map[], map[], map[1 := Claim(0, 1)],
             map["opener" := Claim(0, 1)], {}, []),
    {"opener"}, {}, {})

  lemma CreatedThenClaimed()
    ensures Enabled(START, DidBeginCreate(0)) && Next(START, DidBeginCreate(0)) == CREATED
    ensures Enabled(CREATED, DidClaim(0, "opener", 1)) && Next(CREATED, DidClaim(0, "opener", 1)) == CLAIMED
  {}

  lemma ClaimedThenAttached()
    ensures Enabled(CLAIMED, DidRegister(None, OPENER, true))
    ensures var w := Next(CLAIMED, DidRegister(None, OPENER, true));
      TargetsInRange(w.reg) && Enabled(w, DidFinishCreate(1))
    ensures Next(Next(CLAIMED, DidRegister(None, OPENER, true)), DidFinishCreate(1)) == LOOKED_UP
  {
    assert OPENER.pageTarget != OPENER.tabTarget && OPENER.pageSession != OPENER.tabSession;
  }

  /**
   Client 0 creates a page: it asks, its claim comes first, the backend attaches the page with no
   opener, the call returns.
   */
  lemma LookedUpIsReachable()
    ensures var es := [DidBeginCreate(0), DidClaim(0, "opener", 1), DidRegister(None, OPENER, true),
        DidFinishCreate(1)];
      Possible(START, es) && End(START, es) == LOOKED_UP
    ensures OwnerForTarget(LOOKED_UP.reg, "opener") == Some(0)
  {
    CreatedThenClaimed();
    ClaimedThenAttached();
    hide Next, Enabled;
    var e1, e2, e3, e4 := DidBeginCreate(0), DidClaim(0, "opener", 1), DidRegister(None, OPENER, true),
        DidFinishCreate(1);
    RunOne(Next(CLAIMED, e3), e4, []);
    RunOne(CLAIMED, e3, [e4]);
    RunOne(CREATED, e2, [e3, e4]);
    RunOne(START, e1, [e2, e3, e4]);
    assert [e4] + [] == [e4] && [e3] + [e4] == [e3, e4] && [e2] + [e3, e4] == [e2, e3, e4];
    assert [e1] + [e2, e3, e4] == [e1, e2, e3, e4];
  }

  lemma RunOne(w: World, e: Event, es: seq<Event>)
    requires TargetsInRange(w.reg) && Enabled(w, e) && Possible(Next(w, e), es)
    ensures Possible(w, [e] + es) && End(w, [e] + es) == End(Next(w, e), es)
  {
    assert ([e] + es)[1..] == es;
  }

  /**
   The popup's owner is looked up while connection 0 is there; 0 leaves; the popup registers
   to 0 all the same. It stays open, nobody was told to close it, and no disconnect ever will.
   */
  lemma OpenerRaceLeaksPage()
    ensures OwnerForTarget(LOOKED_UP.reg, "opener") == Some(0)
    ensures Enabled(LOOKED_UP, DidClose(0)) && Enabled(AfterClose(LOOKED_UP, 0), DidRegister(Some(0), POPUP, true))
    ensures var w := AfterRegister(AfterClose(LOOKED_UP, 0), Some(0), POPUP, true);
      && !OwnersLive(w.reg) && |w.reg.records| == 2
      && w.reg.records[1] == Record(POPUP, Some(0), Open, true, false, false)
      && 1 !in w.handed && CloseConnection(w.reg, 0).1 == {}
  {
    var w := AfterClose(LOOKED_UP, 0);
    LeftBehind();
    var w' := AfterRegister(w, Some(0), POPUP, true);
    assert w'.reg.records[1].owner == Some(0);
  }

  lemma LeftBehind()
    ensures var w := AfterClose(LOOKED_UP, 0);
      && |w.reg.records| == 1 && w.handed <= {0} && w.reg.connections == map[0 := ConnState(true, false, false)]
      && w.reg.claims == map[] && w.reg.cancelledTargets == {} && w.seen == LOOKED_UP.seen
          && w.minted == LOOKED_UP.minted
      && "popup" !in w.reg.targets
    ensures Enabled(AfterClose(LOOKED_UP, 0), DidRegister(Some(0), POPUP, true))
  {
    assert POPUP.pageTarget != POPUP.tabTarget && POPUP.pageSession != POPUP.tabSession;
    assert OpenOf(LOOKED_UP.reg, 0) <= {0};
  }

  // ---------------------------------------------------------------- page creation

  /** Whether the target under creation has been cancelled, or its claim timed out before the attach. */
  datatype Fate = Running | Expired | Cancelled

  /** Whether the claim has been made, which record, if any, the backend attach has produced, and the fate so far. */
  datatype Progress = Progress(claimed: bool, id: Option<nat>, fate: Fate)

  const NOTHING_YET := Progress(false, None, Running)

  ghost predicate Dropped(w: World, c: Conn, p: Progress) { Disconnected(w.reg, c) || !p.fate.Running? }

  /** Where the creation of target `t` by `c` stands. */
  ghost predicate Phase(w: World, t: string, c: Conn, p: Progress) {
    && c in w.reg.connections && t != "" && t !in w.minted && (!p.claimed ==> p.fate.Running?)
    && match p.id
       case None =>
         && t !in w.reg.targets
         && (if !p.claimed then t !in w.reg.claims && t !in w.reg.cancelledTargets
             else if Dropped(w, c, p) then Doomed(w, t)
             else t in w.reg.claims && w.reg.claims[t].owner == c)
       case Some(i) =>
         && i < |w.reg.records|
         && var r := w.reg.records[i];
            && r.paired && !r.cleaned && Names(w.reg.targets, t, i) && Names(w.reg.targets, r.ids.tabTarget, i)
            && (if !p.claimed then r.state.Open? && r.owner.None?
                else if Dropped(w, c, p) then
                  r.state.Closing? && i in w.handed && (r.owner.None? || (p.fate.Cancelled? && r.owner == Some(c)))
                else r.state.Open? && r.owner == Some(c))
  }

  /**
   Other steps are free; `t` is claimed once, by `c`, and attached once with no opener. Its timer may
   fire at any time, and once it is claimed it may be cancelled; it is not closed by other means.
   */
  predicate Undisturbing(e: Event, t: string, c: Conn, p: Progress) {
    && (e.DidClaim? && e.t == t ==> e.c == c && !p.claimed)
    && (e.DidRegister? && e.ids.pageTarget == t ==> e.owner.None? && e.paired && p.id.None?)
    && (e.DidRegister? ==> t !in MintedBy(e.ids, e.paired)) && (e.DidBrowserSession? ==> e.sid != t)
    && (e.DidCancel? && e.t == t ==> p.claimed)
    && !(e.DidBeginCleanup? && p.id == Some(e.id))
  }

  function FateBy(w: World, e: Event, t: string, fate: Fate): Fate {
    if e.DidCancel? && e.t == t then Cancelled
    else if e.DidExpire? && e.t == t && ExpireClaim(w.reg, t, e.g).1 then Expired
    else fate
  }

  function ProgressBy(w: World, e: Event, t: string, p: Progress): Progress {
    Progress(p.claimed || (e.DidClaim? && e.t == t),
             if e.DidRegister? && e.ids.pageTarget == t then Some(|w.reg.records|) else p.id,
             FateBy(w, e, t, p.fate))
  }

  lemma PhaseClaimFirst(w: World, e: Event, t: string, c: Conn, p: Progress)
    requires Inv(w) && Enabled(w, e) && Phase(w, t, c, p) && Undisturbing(e, t, c, p)
    requires e.DidClaim? && p.id.None?
    ensures Phase(AfterClaim(w, e.c, e.t, e.g), t, c, ProgressBy(w, e, t, p))
  {
    var w', claim := AfterClaim(w, e.c, e.t, e.g), EffectiveClaim(w.reg, e.c, e.g);
    if e.t in w.reg.targets { assert w'.reg.claims == w.reg.claims && w'.reg.targets == w.reg.targets; }
    else if Gone(w.reg, Some(claim.owner)) {
      assert w'.reg == w.reg.(cancelledTargets := w.reg.cancelledTargets + {e.t});
    }
    else { assert w'.reg == w.reg.(claims := w.reg.claims[e.t := claim]); }
  }

  lemma PhaseClaimAttached(w: World, e: Event, t: string, c: Conn, p: Progress)
    requires Inv(w) && Enabled(w, e) && Phase(w, t, c, p) && Undisturbing(e, t, c, p)
    requires e.DidClaim? && p.id.Some?
    ensures Phase(AfterClaim(w, e.c, e.t, e.g), t, c, ProgressBy(w, e, t, p))
  {
    assert TargetKeyOk(w.reg, e.t) && RecordOk(w, p.id.value) && TargetKeyOk(w.reg, t);
    ClaimEffect(w.reg, e.c, e.t, e.g, p.id.value);
  }

  lemma PhaseClose(w: World, d: Conn, t: string, c: Conn, p: Progress)
    requires Inv(w) && Phase(w, t, c, p)
    ensures Phase(AfterClose(w, d), t, c, p)
  {
    if p.id.Some? { OpenOfNamed(w, d, p.id.value); }
  }

  lemma PhaseRegister(w: World, e: Event, t: string, c: Conn, p: Progress)
    requires Inv(w) && Enabled(w, e) && Phase(w, t, c, p) && Undisturbing(e, t, c, p)
    requires e.DidRegister?
    ensures Phase(AfterRegister(w, e.owner, e.ids, e.paired), t, c, ProgressBy(w, e, t, p))
  {
    if p.id.Some? { assert RecordOk(w, p.id.value); }
  }

  lemma PhaseCancelOther(w: World, u: string, t: string, c: Conn, p: Progress)
    requires Inv(w) && u !in w.minted && u != t && Phase(w, t, c, p)
    ensures Phase(AfterCancel(w, u), t, c, p)
  {
    if p.id.Some? {
      assert RecordOk(w, p.id.value) && TargetKeyOk(w.reg, t) && TargetKeyOk(w.reg, u);
      assert AfterCancel(w, u).reg.records[p.id.value] == w.reg.records[p.id.value];
    }
  }

  lemma PhaseCancelled(w: World, t: string, c: Conn, p: Progress)
    requires Inv(w) && Phase(w, t, c, p) && p.claimed
    ensures Phase(AfterCancel(w, t), t, c, p.(fate := Cancelled))
  {
    if p.id.Some? { assert RecordOk(w, p.id.value) && TargetKeyOk(w.reg, t); }
  }

  lemma PhaseExpire(w: World, e: Event, t: string, c: Conn, p: Progress)
    requires Inv(w) && Enabled(w, e) && Phase(w, t, c, p) && e.DidExpire?
    ensures Phase(w.(reg := ExpireClaim(w.reg, e.t, e.g).0), t, c, ProgressBy(w, e, t, p))
  {
    assert ClaimOk(w, e.t);
  }

  lemma PhaseCleanup(w: World, i: nat, t: string, c: Conn, p: Progress)
    requires Inv(w) && i < |w.reg.records| && Phase(w, t, c, p) && p.id != Some(i)
    ensures Phase(Next(w, DidBeginCleanup(i)), t, c, p)
  {
    assert Next(w, DidBeginCleanup(i)) == w.(reg := BeginCleanup(w.reg, i).0);
    hide Inv;
  }

  lemma PhaseRemove(w: World, i: nat, t: string, c: Conn, p: Progress)
    requires Inv(w) && i < |w.reg.records| && w.reg.records[i].cleaned && Phase(w, t, c, p)
    ensures Phase(Next(w, DidRemove(i)), t, c, p)
  {
    assert Next(w, DidRemove(i)) == w.(reg := Remove(w.reg, i));
    hide Inv;
  }

  /** A step on the registry's side tables. */
  lemma PhaseAside(w: World, e: Event, t: string, c: Conn, p: Progress)
    requires Inv(w) && Enabled(w, e) && Phase(w, t, c, p) && Undisturbing(e, t, c, p)
    requires Aside(e) && !e.DidExpire?
    ensures Phase(Next(w, e), t, c, p)
  {
    assert Next(w, e).reg.records == w.reg.records && Next(w, e).reg.targets == w.reg.targets;
  }

  lemma PhaseNext(w: World, e: Event, t: string, c: Conn, p: Progress)
    requires Inv(w) && Enabled(w, e) && Phase(w, t, c, p) && Undisturbing(e, t, c, p)
    ensures Phase(Next(w, e), t, c, ProgressBy(w, e, t, p))
  {
    hide Phase, Inv;
    match e
    case DidClaim(d, u, g) =>
      if p.id.Some? { PhaseClaimAttached(w, e, t, c, p); } else { PhaseClaimFirst(w, e, t, c, p); }
    case DidRegister(owner, ids, paired) => PhaseRegister(w, e, t, c, p);
    case DidClose(d) => PhaseClose(w, d, t, c, p);
    case DidCancel(u) => if u == t { PhaseCancelled(w, t, c, p); } else { PhaseCancelOther(w, u, t, c, p); }
    case DidExpire(u, g) => PhaseExpire(w, e, t, c, p);
    case DidRemove(i) => PhaseRemove(w, i, t, c, p);
    case DidBeginCleanup(i) => PhaseCleanup(w, i, t, c, p);
    case _ => PhaseAside(w, e, t, c, p);
  }

  /** The whole run leaves `t` to its creation. */
  ghost predicate Undisturbed(w: World, es: seq<Event>, t: string, c: Conn, p: Progress)
    requires Possible(w, es)
    decreases |es|
  {
    es == [] || (Undisturbing(es[0], t, c, p)
                 && Undisturbed(Next(w, es[0]), es[1..], t, c, ProgressBy(w, es[0], t, p)))
  }

  /** What the run does to `t`: a cancellation is final, and an expiry counts when it meets the unmatched claim. */
  ghost function FateOf(w: World, es: seq<Event>, t: string, fate: Fate): Fate
    requires Possible(w, es)
    decreases |es|
  {
    if es == [] then fate else FateOf(Next(w, es[0]), es[1..], t, FateBy(w, es[0], t, fate))
  }

  lemma {:induction false} PhaseRun(w: World, es: seq<Event>, t: string, c: Conn, p: Progress)
    returns (p': Progress)
    requires Inv(w) && Possible(w, es) && Phase(w, t, c, p) && Undisturbed(w, es, t, c, p)
    ensures Phase(End(w, es), t, c, p') && p'.fate == FateOf(w, es, t, p.fate)
    ensures p'.claimed <==> p.claimed || exists e :: e in es && e.DidClaim? && e.t == t
    ensures p'.id.Some? <==> p.id.Some? || exists e :: e in es && e.DidRegister? && e.ids.pageTarget == t
    decreases |es|
  {
    hide Next, Phase, Enabled, FateBy;
    p' := p;
    if es != [] {
      InvNext(w, es[0]);
      PhaseNext(w, es[0], t, c, p);
      p' := PhaseRun(Next(w, es[0]), es[1..], t, c, ProgressBy(w, es[0], t, p));
      assert es == [es[0]] + es[1..];
    }
  }

  /**
   Page creation is confluent. Whatever the order of the claim, the attach, the timer and the
   client's disconnect, and whatever else happens around them, the page ends under one record found
   by its page and tab IDs. If the creator is there, the timer has not met the claim and the page was
   not cancelled, the record is open and owned by the creator. In every other case it is closing,
   nobody's in the eyes of the registry, and handed to a caller that closes it; it is unowned outright
   unless it was cancelled.
   */
  lemma PageCreationConfluent(w: World, es: seq<Event>, t: string, c: Conn)
    requires Inv(w) && Possible(w, es) && Phase(w, t, c, NOTHING_YET) && Undisturbed(w, es, t, c, NOTHING_YET)
    requires exists e :: e in es && e.DidClaim? && e.t == t
    requires exists e :: e in es && e.DidRegister? && e.ids.pageTarget == t
    ensures var w' := End(w, es); var fate := FateOf(w, es, t, Running);
      && TargetsInRange(w'.reg) && t in w'.reg.targets
      && var i := w'.reg.targets[t]; var r := w'.reg.records[i];
         && r.ids.pageTarget == t && Names(w'.reg.targets, r.ids.tabTarget, i)
         && (if fate.Running? && !Disconnected(w'.reg, c) then
               r.state.Open? && r.owner == Some(c) && OwnerForTarget(w'.reg, t) == Some(c)
             else
               && r.state.Closing? && i in w'.handed && OwnerForTarget(w'.reg, t) == None
               && (r.owner.None? || (fate.Cancelled? && r.owner == Some(c))))
  {
    var p := PhaseRun(w, es, t, c, NOTHING_YET);
    InvRun(w, es);
    var w' := End(w, es);
    assert RecordOk(w', p.id.value) && TargetKeyOk(w'.reg, t);
  }
}
