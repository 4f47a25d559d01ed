/**
 Closing a target: the body of closeRecord (pkg/bridge/bridge.go) over the registry, the session
 tables, the session index and the auto-attach state, as a function of the whole state. The object
 that runs it is Bridge.Bridge; CleanupRuns splits it into its lock regions and interleaves them.
 */
module CleanupProtocol {
  import opened Common
  import P = OwnershipProtocol
  import R = OwnershipRuns
  import X = SessionIndex
  import opened OwnedTables
  import opened SessionTables

  type Conn = P.Conn

  /** A message handed to a connection when one of its targets comes or goes. */
  datatype Notice =
    | Created(to: Conn, target: string)
    | Attached(to: Conn, session: string, target: string)
    | Detached(to: Conn, session: string, target: string)
    | Destroyed(to: Conn, target: string)

  /** The bridge's state, over any kind of pair. */
  datatype State<Pair> = State(
    reg: P.Registry, tables: Tables, index: X.Index, pairs: map<string, Pair>, queue: seq<Pair>,
    intercepting: bool, notices: seq<Notice>, pageCloses: seq<string>)

  function Without<T(==)>(s: seq<T>, x: Option<T>): (r: seq<T>) {
    if s == [] then [] else (if Some(s[0]) != x then [s[0]] else []) + Without(s[1..], x)
  }

  lemma {:induction false} WithoutKeeps<T>(s: seq<T>, x: Option<T>, y: T)
    ensures y in Without(s, x) <==> y in s && Some(y) != x
  {
    if s != [] {
      WithoutKeeps(s[1..], x, y);
      assert s == [s[0]] + s[1..];
    }
  }

  lemma {:induction false} WithoutSnoc<T>(s: seq<T>, x: Option<T>, y: T)
    ensures Without(s + [y], x) == Without(s, x) + (if Some(y) != x then [y] else [])
  {
    if s != [] {
      WithoutSnoc(s[1..], x, y);
      assert (s + [y])[1..] == s[1..] + [y];
    }
  }

  // ---------------------------------------------------------------- the steps of the body

  function ClearTables<Pair>(b: State<Pair>, ids: P.Ids): State<Pair> {
    b.(tables := Cleared(b.tables, ids.pageSession, ids.juggler), pairs := Del(b.pairs, ids.juggler))
  }

  function DisableFetchIfUnused<Pair>(b: State<Pair>, ok: bool): State<Pair> {
    b.(intercepting := if b.tables.fetchPatterns == map[] && ok then false else b.intercepting)
  }

  /** Nobody is told when the record has no owner, as after its owner's disconnect. */
  function Farewell(owner: Option<Conn>, ids: P.Ids): seq<Notice> {
    match owner
    case None => []
    case Some(c) => [Detached(c, ids.pageSession, ids.pageTarget), Destroyed(c, ids.pageTarget)]
  }

  function DropSessions<Pair>(b: State<Pair>, ids: P.Ids): State<Pair> {
    b.(index := X.Remove(X.Remove(b.index, ids.pageSession), ids.tabSession))
  }

  function DropPair<Pair(==)>(b: State<Pair>, ids: P.Ids, pair: Option<Pair>): State<Pair> {
    b.(pairs := if ids.juggler != "" then Del(b.pairs, ids.juggler) else b.pairs, queue := Without(b.queue, pair))
  }

  /** Everything between the registry's BeginCleanup and its Remove. */
  function Erased<Pair(==)>(b: State<Pair>, owner: Option<Conn>, ids: P.Ids, pair: Option<Pair>, closeBackend: bool,
      ok: bool): State<Pair> {
    var b1 := b.(pageCloses := b.pageCloses + if closeBackend && ids.pageSession != "" then [ids.pageSession] else []);
    var b2 := DisableFetchIfUnused(ClearTables(b1, ids), ok);
    var b3 := b2.(notices := b2.notices + Farewell(owner, ids));
    DropPair(DropSessions(b3, ids), ids, pair)
  }

  /** The whole body, after BeginCleanup has said to go ahead. */
  function Body<Pair(==)>(b: State<Pair>, id: nat, pair: Option<Pair>, closeBackend: bool, ok: bool): State<Pair>
    requires id < |b.reg.records|
  {
    var r := b.reg.records[id];
    Erased(b, r.owner, r.ids, pair, closeBackend, ok).(reg := P.Remove(b.reg, id))
  }

  function CloseRecord<Pair(==)>(b: State<Pair>, id: nat, pair: Option<Pair>, closeBackend: bool,
      ok: bool): (b': State<Pair>)
    requires id < |b.reg.records|
    ensures |b'.reg.records| == |b.reg.records|
  {
    var (s, won) := P.BeginCleanup(b.reg, id);
    if won then Body(b.(reg := s), id, pair, closeBackend, ok) else b
  }

  // ---------------------------------------------------------------- what a finished cleanup leaves

  /** Nothing outside the registry mentions the target. */
  ghost predicate TablesForget<Pair>(b: State<Pair>, ids: P.Ids) {
    SliceOf(b.tables, ids.pageSession, ids.juggler) == NOTHING && ids.juggler !in b.pairs
  }

  /** None of the three indexes of the session manager knows the target's page or its tab. */
  predicate IndexForgets(x: X.Index, ids: P.Ids) {
    && ids.pageSession !in x.sessions && ids.pageTarget !in x.targets && ids.juggler !in x.jugglers
    && (ids.tabSession != "" ==>
          ids.tabSession !in x.sessions && ids.tabTarget !in x.targets && "tab:" + ids.juggler !in x.jugglers)
  }

  ghost predicate Gone<Pair>(b: State<Pair>, id: nat, ids: P.Ids, pair: Option<Pair>) {
    && TablesForget(b, ids) && IndexForgets(b.index, ids) && R.Forgotten(b.reg, id)
    && (pair.Some? ==> pair.value !in b.queue)
  }

  // ---------------------------------------------------------------- the session index

  /** A key of the index leads to the entry of one of these sessions, if it leads anywhere. */
  predicate Under(x: X.Index, m: map<string, nat>, k: string, sids: set<string>) {
    k in m && m[k] < |x.entries| ==> x.entries[m[k]].sessionID in sids
  }

  /** The keys of a target's page and tab are entries of its own two sessions. */
  predicate KeysHeld(x: X.Index, ids: P.Ids) {
    var own := {ids.pageSession, ids.tabSession};
    && Under(x, x.targets, ids.pageTarget, own) && Under(x, x.jugglers, ids.juggler, own)
    && (ids.tabSession != "" ==>
          Under(x, x.targets, ids.tabTarget, own) && Under(x, x.jugglers, "tab:" + ids.juggler, own))
  }

  /** As the attach handler leaves them: the page's keys lead to the page's entry, the tab's to the tab's. */
  predicate PageTied(x: X.Index, ids: P.Ids) {
    Under(x, x.targets, ids.pageTarget, {ids.pageSession}) && Under(x, x.jugglers, ids.juggler, {ids.pageSession})
  }

  predicate TabTied(x: X.Index, ids: P.Ids) {
    ids.tabSession != "" ==>
      && Under(x, x.targets, ids.tabTarget, {ids.tabSession})
      && Under(x, x.jugglers, "tab:" + ids.juggler, {ids.tabSession})
  }

  predicate Tied(x: X.Index, ids: P.Ids) { PageTied(x, ids) && TabTied(x, ids) }

  /** Adding a page and then its tab ties the keys of both. */
  lemma AttachTies(x: X.Index, ids: P.Ids, page: X.Info, tab: X.Info)
    requires page.sessionID == ids.pageSession && page.target == ids.pageTarget && page.juggler == ids.juggler
    requires tab.sessionID == ids.tabSession && tab.target == ids.tabTarget && tab.juggler == "tab:" + ids.juggler
    requires ids.pageTarget != "" && ids.tabTarget != "" && ids.pageTarget != ids.tabTarget
    requires X.Coherent(x)
    ensures Tied(X.Add(X.Add(x, page), tab), ids)
  {
    assert |"tab:" + ids.juggler| > |ids.juggler|;
    assert X.JugglerEntryOk(x, ids.juggler);
  }

  /** Removing a session takes away exactly the keys of its own entry. */
  lemma RemovedKeys(x: X.Index, sid: string, k: string)
    requires X.Coherent(x)
    ensures var y := X.Remove(x, sid);
      && X.Coherent(y) && y.entries == x.entries
      && (k in y.sessions <==> k in x.sessions && k != sid)
      && (k in y.sessions ==> y.sessions[k] == x.sessions[k])
      && (k in y.targets <==> k in x.targets && !Under(x, x.targets, k, {sid}))
      && (k in y.targets ==> y.targets[k] == x.targets[k])
      && (k in y.jugglers <==> k in x.jugglers && !Under(x, x.jugglers, k, {sid}))
      && (k in y.jugglers ==> y.jugglers[k] == x.jugglers[k])
  {
    X.RemoveCoherent(x, sid);
    assert X.SessionEntryOk(x, sid) && X.TargetEntryOk(x, k) && X.JugglerEntryOk(x, k);
    hide X.Coherent;
  }

  /** The same for two sessions, one after the other. */
  lemma RemovedTwice(x: X.Index, a: string, c: string, k: string)
    requires X.Coherent(x)
    ensures var y := X.Remove(X.Remove(x, a), c);
      && X.Coherent(y) && y.entries == x.entries
      && At(y.sessions, k) == (if k == a || k == c then None else At(x.sessions, k))
      && At(y.targets, k) == (if Under(x, x.targets, k, {a, c}) then None else At(x.targets, k))
      && At(y.jugglers, k) == (if Under(x, x.jugglers, k, {a, c}) then None else At(x.jugglers, k))
  {
    RemovedKeys(x, a, k);
    RemovedKeys(X.Remove(x, a), c, k);
    assert X.TargetEntryOk(x, k) && X.JugglerEntryOk(x, k);
    hide X.Coherent, X.Remove;
  }

  /** Removing both sessions leaves no key of the target exactly when the keys were those of its own sessions. */
  lemma IndexForgetsIff(x: X.Index, ids: P.Ids)
    requires X.Coherent(x)
    ensures var y := X.Remove(X.Remove(x, ids.pageSession), ids.tabSession);
      X.Coherent(y) && (IndexForgets(y, ids) <==> KeysHeld(x, ids))
  {
    RemovedTwice(x, ids.pageSession, ids.tabSession, ids.pageSession);
    RemovedTwice(x, ids.pageSession, ids.tabSession, ids.tabSession);
    RemovedTwice(x, ids.pageSession, ids.tabSession, ids.pageTarget);
    RemovedTwice(x, ids.pageSession, ids.tabSession, ids.tabTarget);
    RemovedTwice(x, ids.pageSession, ids.tabSession, ids.juggler);
    RemovedTwice(x, ids.pageSession, ids.tabSession, "tab:" + ids.juggler);
    var own := {ids.pageSession, ids.tabSession};
    assert ids.pageTarget !in x.targets ==> Under(x, x.targets, ids.pageTarget, own);
    hide X.Coherent, X.Remove, Under;
  }

  lemma IndexKeepsForgetting(x: X.Index, a: string, c: string, ids: P.Ids)
    requires X.Coherent(x) && IndexForgets(x, ids)
    ensures var y := X.Remove(X.Remove(x, a), c); X.Coherent(y) && IndexForgets(y, ids)
  {
    RemovedTwice(x, a, c, ids.pageSession);
    RemovedTwice(x, a, c, ids.tabSession);
    RemovedTwice(x, a, c, ids.pageTarget);
    RemovedTwice(x, a, c, ids.tabTarget);
    RemovedTwice(x, a, c, ids.juggler);
    RemovedTwice(x, a, c, "tab:" + ids.juggler);
    hide X.Coherent, X.Remove, Under;
  }

  lemma RemovalKeepsHeld(x: X.Index, a: string, c: string, ids: P.Ids)
    requires X.Coherent(x) && KeysHeld(x, ids)
    ensures KeysHeld(X.Remove(X.Remove(x, a), c), ids)
  {
    RemovedTwice(x, a, c, ids.pageTarget);
    RemovedTwice(x, a, c, ids.tabTarget);
    RemovedTwice(x, a, c, ids.juggler);
    RemovedTwice(x, a, c, "tab:" + ids.juggler);
    hide X.Coherent, X.Remove;
  }

  // ---------------------------------------------------------------- one uninterrupted close

  lemma NothingStays(t: Tables, sid: string, juggler: string, page: string, other: string)
    requires Paired(t) && SliceOf(t, sid, juggler) == NOTHING
    ensures SliceOf(Cleared(t, page, other), sid, juggler) == NOTHING
  {
    StaysEmpty(t.ctxOwners, ContextsOf(t.ctxMap, t.ctxOwners, page, other), sid, t.ctxMap);
    StaysEmpty(t.ctxUniqueOwners, KeysOf(t.ctxUniqueOwners, page), sid, t.ctxUniqueOwners);
    StaysEmpty(t.nodeOwners, KeysOf(t.nodeOwners, page), sid, t.nodeObjects);
    StaysEmpty(t.objectOwners, KeysOf(t.objectOwners, page), sid, t.objectOwners);
    StaysEmpty(t.pdfOwners, KeysOf(t.pdfOwners, page), sid, t.pdfStreams);
    StaysEmpty(t.requestOwners, KeysOf(t.requestOwners, page), sid, t.requestOwners);
    AlsoAbsent(t, sid, juggler, page, other);
  }

  lemma StaysEmpty<K, V>(owners: map<K, string>, gone: set<K>, sid: string, values: map<K, V>)
    requires KeysOf(owners, sid) == {}
    ensures KeysOf(owners - gone, sid) == {} && Owned(owners - gone, values - gone, sid) == map[]
  {
    forall k | k in owners - gone ensures (owners - gone)[k] != sid { assert k !in KeysOf(owners, sid); }
  }

  lemma AbsentFrom<V>(m: map<string, V>, k: string, x: string)
    requires At(m, k) == None
    ensures At(m - {x}, k) == None
  {}

  lemma AlsoAbsent(t: Tables, sid: string, juggler: string, page: string, other: string)
    requires SliceOf(t, sid, juggler) == NOTHING
    ensures var s := SliceOf(Cleared(t, page, other), sid, juggler);
      && s.loader == None && s.worlds == None && s.query == None && s.all == None && s.skips == None && s.dialog == None
      && s.patterns == None && s.contextClear == None && s.applied == None
      && s.latest == None && s.frames == None && s.pendingFrame == None
  {
    AbsentFrom(t.loaders, sid, page);
    AbsentFrom(t.latestCtx, juggler, other);
  }

  /** What one uninterrupted cleanup does to each part of the state. */
  lemma CloseRecordParts<Pair>(b: State<Pair>, id: nat, pair: Option<Pair>, closeBackend: bool, ok: bool)
    requires id < |b.reg.records| && !b.reg.records[id].cleaned && !b.reg.records[id].state.Closed?
    ensures var b' := CloseRecord(b, id, pair, closeBackend, ok); var ids := b.reg.records[id].ids;
      && b'.reg == P.Remove(P.BeginCleanup(b.reg, id).0, id)
      && b'.tables == Cleared(b.tables, ids.pageSession, ids.juggler)
      && b'.index == X.Remove(X.Remove(b.index, ids.pageSession), ids.tabSession)
      && b'.pairs == Del(b.pairs, ids.juggler) && b'.queue == Without(b.queue, pair)
  {
    hide Cleared, P.Remove, X.Remove, Without, Farewell;
  }

  lemma CleanedThenRemoved(w: P.World, id: nat)
    requires P.Inv(w) && id < |w.reg.records|
    ensures R.Forgotten(P.Remove(P.BeginCleanup(w.reg, id).0, id), id)
  {
    assert P.RecordOk(w, id);
    P.InvNext(w, P.DidBeginCleanup(id));
    R.RemovedIsForgotten(P.Next(w, P.DidBeginCleanup(id)), id, []);
  }

  lemma CloseRecordIndex<Pair>(w: P.World, b: State<Pair>, id: nat, pair: Option<Pair>, closeBackend: bool, ok: bool)
    requires P.Inv(w) && b.reg == w.reg && id < |w.reg.records| && !w.reg.records[id].cleaned
    requires Paired(b.tables) && X.Coherent(b.index)
    ensures var b' := CloseRecord(b, id, pair, closeBackend, ok); var ids := w.reg.records[id].ids;
      && (IndexForgets(b'.index, ids) <==> KeysHeld(b.index, ids))
      && Paired(b'.tables) && X.Coherent(b'.index) && b'.reg == P.Remove(P.BeginCleanup(w.reg, id).0, id)
  {
    assert P.RecordOk(w, id);
    CloseRecordParts(b, id, pair, closeBackend, ok);
    hide Cleared, Paired, P.Inv, X.Remove, X.Coherent, KeysHeld, CloseRecord, P.Remove, P.BeginCleanup;
    var ids := w.reg.records[id].ids;
    ClearedPaired(b.tables, ids.pageSession, ids.juggler);
    IndexForgetsIff(b.index, ids);
  }

  /**
   One uninterrupted cleanup leaves nothing that mentions the target, in the registry or outside,
   exactly when the index held the target's keys for its own sessions.
   */
  lemma CloseRecordForgets<Pair>(w: P.World, b: State<Pair>, id: nat, pair: Option<Pair>, closeBackend: bool, ok: bool)
    requires P.Inv(w) && b.reg == w.reg && id < |w.reg.records| && !w.reg.records[id].cleaned
    requires Paired(b.tables) && X.Coherent(b.index)
    ensures var b' := CloseRecord(b, id, pair, closeBackend, ok); var ids := w.reg.records[id].ids;
      Gone(b', id, ids, pair) <==> KeysHeld(b.index, ids)
  {
    CloseRecordIndex(w, b, id, pair, closeBackend, ok);
    assert P.RecordOk(w, id);
    CloseRecordParts(b, id, pair, closeBackend, ok);
    hide Cleared, SliceOf, Paired, P.Inv, X.Remove, X.Coherent, R.Forgotten, CloseRecord, P.Remove, P.BeginCleanup,
        KeysHeld,
      IndexForgets;
    var ids := w.reg.records[id].ids;
    CleanedThenRemoved(w, id);
    ClearedHasNothing(b.tables, ids.pageSession, ids.juggler);
    if pair.Some? { WithoutKeeps(b.queue, pair, pair.value); }
  }

  lemma IdsDiffer(w: P.World, id: nat, i: nat)
    requires P.Inv(w) && id < |w.reg.records| && i < |w.reg.records| && i != id
    requires !w.reg.records[id].state.Closed? && !w.reg.records[i].state.Closed?
    ensures var a := w.reg.records[id].ids; var c := w.reg.records[i].ids;
      && c.pageSession != a.pageSession && c.pageSession != a.tabSession
      && (c.tabSession != "" ==> c.tabSession != a.pageSession && c.tabSession != a.tabSession)
  {
    assert P.RecordOk(w, id) && P.RecordOk(w, i);
  }

  lemma RegistryKeepsOthers(w: P.World, id: nat, i: nat)
    requires P.Inv(w) && id < |w.reg.records| && i < |w.reg.records| && i != id && !w.reg.records[i].state.Closed?
    ensures var s := P.Remove(P.BeginCleanup(w.reg, id).0, id);
      |s.records| == |w.reg.records| && s.records[i] == w.reg.records[i] && P.Named(s, i)
  {
    assert P.RecordOk(w, i);
    P.NamedRemove(P.BeginCleanup(w.reg, id).0, id, i);
  }

  /** All six keys of a page and its tab lead where they led before. */
  predicate SameKeys(x: X.Index, y: X.Index, ids: P.Ids) {
    && At(y.sessions, ids.pageSession) == At(x.sessions, ids.pageSession)
    && At(y.targets, ids.pageTarget) == At(x.targets, ids.pageTarget)
    && At(y.jugglers, ids.juggler) == At(x.jugglers, ids.juggler)
    && (ids.tabSession != "" ==>
          && At(y.sessions, ids.tabSession) == At(x.sessions, ids.tabSession)
          && At(y.targets, ids.tabTarget) == At(x.targets, ids.tabTarget)
          && At(y.jugglers, "tab:" + ids.juggler) == At(x.jugglers, "tab:" + ids.juggler))
  }

  lemma KeysKept(x: X.Index, a: string, c: string, ids: P.Ids)
    requires X.Coherent(x) && Tied(x, ids) && ids.pageSession !in {a, c}
        && (ids.tabSession != "" ==> ids.tabSession !in {a, c})
    ensures SameKeys(x, X.Remove(X.Remove(x, a), c), ids) && X.Remove(X.Remove(x, a), c).entries == x.entries
  {
    RemovedTwice(x, a, c, ids.pageSession);
    RemovedTwice(x, a, c, ids.tabSession);
    RemovedTwice(x, a, c, ids.pageTarget);
    RemovedTwice(x, a, c, ids.tabTarget);
    RemovedTwice(x, a, c, ids.juggler);
    RemovedTwice(x, a, c, "tab:" + ids.juggler);
    assert X.TargetEntryOk(x, ids.pageTarget) && X.TargetEntryOk(x, ids.tabTarget);
    assert X.JugglerEntryOk(x, ids.juggler) && X.JugglerEntryOk(x, "tab:" + ids.juggler);
    hide X.Coherent, X.Remove;
  }

  /**
   Closing one target leaves every other target as it was: its record and its keys, its entries in
   all three indexes and among the pairs, and, exactly when none of its contexts is taken for the closed
   Juggler session, all that the tables hold for it.
   */
  lemma CloseRecordKeepsOthers<Pair>(w: P.World, b: State<Pair>, id: nat, pair: Option<Pair>, closeBackend: bool,
      ok: bool, i: nat)
    requires P.Inv(w) && b.reg == w.reg && Paired(b.tables) && X.Coherent(b.index)
    requires id < |w.reg.records| && i < |w.reg.records| && i != id
    requires !w.reg.records[id].cleaned && !w.reg.records[i].state.Closed?
    requires w.reg.records[i].ids.juggler != w.reg.records[id].ids.juggler && Tied(b.index, w.reg.records[i].ids)
    ensures var b' := CloseRecord(b, id, pair, closeBackend, ok); var r := w.reg.records[i];
      && b'.reg.records[i] == r && P.Named(b'.reg, i)
      && SameKeys(b.index, b'.index, r.ids) && b'.index.entries == b.index.entries
      && At(b'.pairs, r.ids.juggler) == At(b.pairs, r.ids.juggler)
      && (SliceOf(b'.tables, r.ids.pageSession, r.ids.juggler) == SliceOf(b.tables, r.ids.pageSession, r.ids.juggler)
          <==> Apart(b.tables, r.ids.pageSession, w.reg.records[id].ids.juggler))
  {
    assert P.RecordOk(w, id);
    var gone, mine := w.reg.records[id].ids, w.reg.records[i].ids;
    IdsDiffer(w, id, i);
    RegistryKeepsOthers(w, id, i);
    CloseRecordParts(b, id, pair, closeBackend, ok);
    hide P.Inv, P.Leave, P.Named, Cleared, SliceOf, Apart, X.Remove, X.Coherent, SameKeys, Tied, CloseRecord, P.Remove,
      P.BeginCleanup, Without;
    OthersKeptIff(b.tables, gone.pageSession, gone.juggler, mine.pageSession, mine.juggler);
    KeysKept(b.index, gone.pageSession, gone.tabSession, mine);
    PairsKeepOther(b.pairs, gone.juggler, mine.juggler);
    hide At, Del, Paired;
  }

  lemma PairsKeepOther<Pair>(pairs: map<string, Pair>, k: string, other: string)
    requires other != k
    ensures At(Del(pairs, k), other) == At(pairs, other)
  {}

  // ---------------------------------------------------------------- a disconnect

  predicate Below(ids: seq<nat>, n: nat) { forall k | 0 <= k < |ids| :: ids[k] < n }

  /** ConnectionClosed closes the records one after another; `oks` says which of the backend calls succeed. */
  function CloseEach<Pair(==)>(b: State<Pair>, ids: seq<nat>, pairOf: map<nat, Pair>, oks: seq<bool>): State<Pair>
    requires |oks| == |ids| && Below(ids, |b.reg.records|)
    decreases |ids|
  {
    if ids == [] then b
    else CloseEach(CloseRecord(b, ids[0], At(pairOf, ids[0]), true, oks[0]), ids[1..], pairOf, oks[1..])
  }

  function Disconnect<Pair(==)>(b: State<Pair>, c: Conn, ids: seq<nat>, pairOf: map<nat, Pair>, oks: seq<bool>,
      ok: bool): State<Pair>
    requires |oks| == |ids| && Below(ids, |b.reg.records|)
  {
    DisableFetchIfUnused(CloseEach(b.(reg := P.CloseConnection(b.reg, c).0), ids, pairOf, oks), ok)
  }

  lemma ForgottenStays(s: P.Registry, id: nat, i: nat)
    requires id < |s.records| && R.Forgotten(s, i)
    ensures R.Forgotten(P.Remove(P.BeginCleanup(s, id).0, id), i)
  {}

  lemma StillGone<Pair>(b: State<Pair>, id: nat, pair: Option<Pair>, closeBackend: bool, ok: bool, i: nat,
      ids: P.Ids, mine: Option<Pair>)
    requires id < |b.reg.records| && Paired(b.tables) && X.Coherent(b.index)
    requires Gone(b, i, ids, mine)
    ensures Gone(CloseRecord(b, id, pair, closeBackend, ok), i, ids, mine)
  {
    hide Cleared, SliceOf, Paired, R.Forgotten, P.Remove, X.Remove, X.Coherent, IndexForgets, Without;
    var r := b.reg.records[id];
    ForgottenStays(b.reg, id, i);
    NothingStays(b.tables, ids.pageSession, ids.juggler, r.ids.pageSession, r.ids.juggler);
    IndexKeepsForgetting(b.index, r.ids.pageSession, r.ids.tabSession, ids);
    if mine.Some? { WithoutKeeps(b.queue, pair, mine.value); }
  }

  /**
   A close that goes ahead tells the owner, if the record has one, that it is detached from the
   page's session and then that the target is gone, and nobody else anything. The backend is asked
   to close the page once, if the close is not its own doing.
   */
  lemma CloseRecordTells<Pair>(b: State<Pair>, id: nat, pair: Option<Pair>, closeBackend: bool, ok: bool)
    requires id < |b.reg.records| && !b.reg.records[id].cleaned && !b.reg.records[id].state.Closed?
    ensures var b' := CloseRecord(b, id, pair, closeBackend, ok); var r := b.reg.records[id];
      && (r.owner.None? ==> b'.notices == b.notices)
      && (r.owner.Some? ==>
            b'.notices == b.notices + [Detached(r.owner.value, r.ids.pageSession, r.ids.pageTarget),
                                       Destroyed(r.owner.value, r.ids.pageTarget)])
      && (closeBackend && r.ids.pageSession != "" ==> b'.pageCloses == b.pageCloses + [r.ids.pageSession])
      && (!closeBackend || r.ids.pageSession == "" ==> b'.pageCloses == b.pageCloses)
  {
    assert b.notices + [] == b.notices && b.pageCloses + [] == b.pageCloses;
    hide Cleared, P.Remove, X.Remove, Without;
  }

  /** Closing a record again changes nothing and tells nobody anything. */
  lemma SecondCloseIsIdle<Pair>(b: State<Pair>, id: nat, pair: Option<Pair>, closeBackend: bool, ok: bool,
      again: Option<Pair>, backendAgain: bool, okAgain: bool)
    requires id < |b.reg.records|
    ensures var b' := CloseRecord(b, id, pair, closeBackend, ok);
      CloseRecord(b', id, again, backendAgain, okAgain) == b'
  {
    var r := b.reg.records[id];
    if !r.cleaned && !r.state.Closed? {
      CloseRecordReg(b, id, pair, closeBackend, ok);
      ClosedKeeps(b.reg, id, id);
      hide CloseRecord, Closed;
      var b' := CloseRecord(b, id, pair, closeBackend, ok);
      Idle(b', id, again, backendAgain, okAgain);
    } else {
      Idle(b, id, pair, closeBackend, ok);
      Idle(b, id, again, backendAgain, okAgain);
    }
  }

  lemma Idle<Pair>(b: State<Pair>, id: nat, pair: Option<Pair>, closeBackend: bool, ok: bool)
    requires id < |b.reg.records| && (b.reg.records[id].cleaned || b.reg.records[id].state.Closed?)
    ensures CloseRecord(b, id, pair, closeBackend, ok) == b
  {}

  function PageSessions(s: P.Registry, ids: seq<nat>): seq<string>
    requires Below(ids, |s.records|)
  {
    if ids == [] then [] else [s.records[ids[0]].ids.pageSession] + PageSessions(s, ids[1..])
  }

  lemma PageSessionsFirst(s: P.Registry, ids: seq<nat>)
    requires Below(ids, |s.records|)
    ensures PageSessions(s, ids) == if ids == [] then []
        else [s.records[ids[0]].ids.pageSession] + PageSessions(s, ids[1..])
  {}

  /** The records listed are still to be cleaned up and have lost their owner. */
  ghost predicate Orphans(s: P.Registry, ids: seq<nat>) {
    && Distinct(ids) && Below(ids, |s.records|)
    && forall k | 0 <= k < |ids| ::
         !s.records[ids[k]].cleaned && s.records[ids[k]].owner.None? && s.records[ids[k]].state.Closing?
  }

  function Closed(s: P.Registry, id: nat): P.Registry
    requires id < |s.records|
  {
    P.Remove(P.BeginCleanup(s, id).0, id)
  }

  lemma ClosedKeeps(s: P.Registry, id: nat, i: nat)
    requires id < |s.records| && i < |s.records|
    ensures |Closed(s, id).records| == |s.records|
    ensures i != id ==> Closed(s, id).records[i] == s.records[i]
    ensures i == id ==> Closed(s, id).records[i].state.Closed? && Closed(s, id).records[i].ids == s.records[i].ids
  {}

  lemma OrphansRest(s: P.Registry, ids: seq<nat>)
    requires ids != [] && Orphans(s, ids)
    ensures Orphans(Closed(s, ids[0]), ids[1..])
    ensures PageSessions(Closed(s, ids[0]), ids[1..]) == PageSessions(s, ids[1..])
  {
    var s', rest := Closed(s, ids[0]), ids[1..];
    ClosedKeeps(s, ids[0], ids[0]);
    forall k | 0 <= k < |rest|
        ensures rest[k] == ids[k + 1] && rest[k] != ids[0] && s'.records[rest[k]] == s.records[rest[k]] {
      ClosedKeeps(s, ids[0], ids[k + 1]);
    }
    hide Closed;
    SamePageSessions(s, Closed(s, ids[0]), ids[1..]);
  }

  lemma {:induction false} SamePageSessions(s: P.Registry, s': P.Registry, ids: seq<nat>)
    requires |s'.records| == |s.records| && Below(ids, |s.records|)
    requires forall k | 0 <= k < |ids| :: s'.records[ids[k]].ids == s.records[ids[k]].ids
    ensures PageSessions(s', ids) == PageSessions(s, ids)
  {
    if ids != [] { SamePageSessions(s, s', ids[1..]); }
  }

  ghost predicate AllGone<Pair>(b: State<Pair>, s: P.Registry, ids: seq<nat>, pairOf: map<nat, Pair>)
    requires Below(ids, |s.records|)
  {
    forall k | 0 <= k < |ids| :: Gone(b, ids[k], s.records[ids[k]].ids, At(pairOf, ids[k]))
  }

  lemma {:induction false} CloseEachStillGone<Pair>(b: State<Pair>, ids: seq<nat>, pairOf: map<nat, Pair>,
      oks: seq<bool>,
                                                    i: nat, mine: P.Ids, pair: Option<Pair>, w: P.World)
    requires P.Inv(w) && b.reg == w.reg && Orphans(b.reg, ids) && |oks| == |ids|
    requires Paired(b.tables) && X.Coherent(b.index) && Gone(b, i, mine, pair)
    ensures Gone(CloseEach(b, ids, pairOf, oks), i, mine, pair)
    decreases |ids|
  {
    hide P.Inv, Gone, CloseRecord, Closed, Paired, X.Coherent, KeysHeld, IndexForgets;
    if ids != [] {
      var id := ids[0];
      CloseRecordIndex(w, b, id, At(pairOf, id), true, oks[0]);
      CloseRecordReg(b, id, At(pairOf, id), true, oks[0]);
      StillGone(b, id, At(pairOf, id), true, oks[0], i, mine, pair);
      OrphansRest(b.reg, ids);
      var w' := ClosedWorld(w, id);
      CloseEachStillGone(CloseRecord(b, id, At(pairOf, id), true, oks[0]), ids[1..], pairOf, oks[1..], i, mine, pair,
          w');
    }
  }

  lemma ClosedWorld(w: P.World, id: nat) returns (w': P.World)
    requires P.Inv(w) && id < |w.reg.records|
    ensures P.Inv(w') && w'.reg == Closed(w.reg, id)
  {
    var w1 := P.Next(w, P.DidBeginCleanup(id));
    assert P.RecordOk(w, id);
    P.InvNext(w, P.DidBeginCleanup(id));
    P.InvNext(w1, P.DidRemove(id));
    w' := P.Next(w1, P.DidRemove(id));
  }

  lemma CloseRecordReg<Pair>(b: State<Pair>, id: nat, pair: Option<Pair>, closeBackend: bool, ok: bool)
    requires id < |b.reg.records| && !b.reg.records[id].cleaned && !b.reg.records[id].state.Closed?
    ensures CloseRecord(b, id, pair, closeBackend, ok).reg == Closed(b.reg, id)
  {
    hide P.Remove;
  }

  lemma {:induction false} CloseEachTells<Pair>(b: State<Pair>, ids: seq<nat>, pairOf: map<nat, Pair>, oks: seq<bool>)
    requires Orphans(b.reg, ids) && |oks| == |ids|
    requires forall k | 0 <= k < |ids| :: b.reg.records[ids[k]].ids.pageSession != ""
    ensures var b' := CloseEach(b, ids, pairOf, oks);
      b'.notices == b.notices && b'.pageCloses == b.pageCloses + PageSessions(b.reg, ids)
    decreases |ids|
  {
    hide CloseRecord, Closed, PageSessions;
    if ids != [] {
      CloseRecordTells(b, ids[0], At(pairOf, ids[0]), true, oks[0]);
      CloseRecordReg(b, ids[0], At(pairOf, ids[0]), true, oks[0]);
      var b1 := CloseRecord(b, ids[0], At(pairOf, ids[0]), true, oks[0]);
      OrphansRest(b.reg, ids);
      PageSessionsFirst(b.reg, ids);
      var page, rest := b.reg.records[ids[0]].ids.pageSession, PageSessions(b.reg, ids[1..]);
      forall k | 0 <= k < |ids[1..]| ensures b1.reg.records[ids[1..][k]].ids.pageSession != "" {
        ClosedKeeps(b.reg, ids[0], ids[k + 1]);
      }
      hide Orphans;
      CloseEachTells(b1, ids[1..], pairOf, oks[1..]);
      assert (b.pageCloses + [page]) + rest == b.pageCloses + ([page] + rest);
    } else {
      PageSessionsFirst(b.reg, ids);
      assert b.pageCloses + [] == b.pageCloses;
    }
  }

  lemma {:induction false} CloseEachRecords<Pair>(b: State<Pair>, ids: seq<nat>, pairOf: map<nat, Pair>,
      oks: seq<bool>, i: nat)
    requires Orphans(b.reg, ids) && |oks| == |ids| && i < |b.reg.records|
    ensures var b' := CloseEach(b, ids, pairOf, oks);
      && |b'.reg.records| == |b.reg.records|
      && (if i in ids then b'.reg.records[i].state.Closed? else b'.reg.records[i] == b.reg.records[i])
    decreases |ids|
  {
    hide CloseRecord, Closed;
    if ids != [] {
      var b1 := CloseRecord(b, ids[0], At(pairOf, ids[0]), true, oks[0]);
      CloseRecordReg(b, ids[0], At(pairOf, ids[0]), true, oks[0]);
      OrphansRest(b.reg, ids);
      ClosedKeeps(b.reg, ids[0], i);
      assert ids == [ids[0]] + ids[1..];
      CloseEachRecords(b1, ids[1..], pairOf, oks[1..], i);
    }
  }

  /** The index holds the keys of every record listed for its own sessions. */
  predicate AllHeld<Pair>(b: State<Pair>, ids: seq<nat>)
    requires Below(ids, |b.reg.records|)
  {
    forall k | 0 <= k < |ids| :: KeysHeld(b.index, b.reg.records[ids[k]].ids)
  }

  lemma AllHeldRest<Pair>(b: State<Pair>, ids: seq<nat>, pair: Option<Pair>, ok: bool)
    requires ids != [] && Orphans(b.reg, ids) && X.Coherent(b.index) && AllHeld(b, ids)
    ensures var b' := CloseRecord(b, ids[0], pair, true, ok);
      |b'.reg.records| == |b.reg.records| && AllHeld(b', ids[1..])
  {
    var b', r := CloseRecord(b, ids[0], pair, true, ok), b.reg.records[ids[0]];
    CloseRecordParts(b, ids[0], pair, true, ok);
    CloseRecordReg(b, ids[0], pair, true, ok);
    hide CloseRecord, Closed, X.Coherent, KeysHeld, X.Remove, P.Remove;
    forall k | 0 <= k < |ids[1..]| ensures KeysHeld(b'.index, b'.reg.records[ids[1..][k]].ids) {
      ClosedKeeps(b.reg, ids[0], ids[k + 1]);
      RemovalKeepsHeld(b.index, r.ids.pageSession, r.ids.tabSession, b.reg.records[ids[k + 1]].ids);
    }
  }

  /** Closing a list of orphans makes every table, index and queue forget each of them. */
  lemma {:induction false} CloseEachForgets<Pair>(w: P.World, b: State<Pair>, ids: seq<nat>, pairOf: map<nat, Pair>,
      oks: seq<bool>, k: nat)
    requires P.Inv(w) && b.reg == w.reg && Orphans(b.reg, ids) && |oks| == |ids| && k < |ids|
    requires Paired(b.tables) && X.Coherent(b.index) && AllHeld(b, ids)
    ensures Gone(CloseEach(b, ids, pairOf, oks), ids[k], b.reg.records[ids[k]].ids, At(pairOf, ids[k]))
    decreases |ids|
  {
    hide P.Inv, Gone, CloseRecord, Closed, Paired, X.Coherent, KeysHeld, IndexForgets;
    var id := ids[0];
    var b1 := CloseRecord(b, id, At(pairOf, id), true, oks[0]);
    CloseRecordIndex(w, b, id, At(pairOf, id), true, oks[0]);
    CloseRecordForgets(w, b, id, At(pairOf, id), true, oks[0]);
    AllHeldRest(b, ids, At(pairOf, id), oks[0]);
    CloseRecordReg(b, id, At(pairOf, id), true, oks[0]);
    OrphansRest(b.reg, ids);
    ClosedKeeps(b.reg, id, ids[k]);
    var w' := ClosedWorld(w, id);
    if k == 0 {
      CloseEachStillGone(b1, ids[1..], pairOf, oks[1..], id, b.reg.records[id].ids, At(pairOf, id), w');
    } else {
      CloseEachForgets(w', b1, ids[1..], pairOf, oks[1..], k - 1);
    }
  }

  lemma DisableKeepsGone<Pair>(b: State<Pair>, ok: bool, i: nat, ids: P.Ids, pair: Option<Pair>)
    requires Gone(b, i, ids, pair)
    ensures Gone(DisableFetchIfUnused(b, ok), i, ids, pair)
  {}

  /** The list a disconnect hands back is exactly its open records, now orphans. */
  lemma ClosedListIsOrphans(w: P.World, c: Conn, ids: seq<nat>)
    requires P.Inv(w) && !R.Disconnected(w.reg, c)
    requires Distinct(ids) && (forall id: nat :: id in ids <==> id in P.CloseConnection(w.reg, c).1)
    ensures var w1 := P.AfterClose(w, c);
      && P.Inv(w1) && w1.reg == P.CloseConnection(w.reg, c).0 && |w1.reg.records| == |w.reg.records|
      && Orphans(w1.reg, ids) && PageSessions(w1.reg, ids) == PageSessions(w.reg, ids)
      && (forall i | 0 <= i < |w.reg.records| ::
            && w1.reg.records[i].ids == w.reg.records[i].ids
            && (if i in ids then w.reg.records[i].owner == Some(c) && w.reg.records[i].state.Open?
                else
                  w1.reg.records[i] == w.reg.records[i]
                  && !(w.reg.records[i].owner == Some(c) && w.reg.records[i].state.Open?)))
  {
    R.CloseIsExact(w, c);
    P.InvNext(w, P.DidClose(c));
    var w1 := P.AfterClose(w, c);
    forall k | 0 <= k < |ids|
      ensures ids[k] < |w.reg.records| && !w.reg.records[ids[k]].cleaned
      ensures w1.reg.records[ids[k]] == w.reg.records[ids[k]].(owner := None, state := P.Closing)
    {
      assert ids[k] in ids;
      assert P.RecordOk(w, ids[k]);
    }
    SamePageSessions(w.reg, w1.reg, ids);
  }

  /** `ids` lists what the disconnect of `c` hands back. */
  ghost predicate Disconnecting<Pair>(w: P.World, b: State<Pair>, c: Conn, ids: seq<nat>, oks: seq<bool>) {
    && P.Inv(w) && b.reg == w.reg && !R.Disconnected(w.reg, c) && Paired(b.tables) && X.Coherent(b.index)
    && Distinct(ids) && (forall id: nat :: id in ids <==> id in P.CloseConnection(w.reg, c).1) && |oks| == |ids|
  }

  lemma DisconnectTells<Pair>(w: P.World, b: State<Pair>, c: Conn, ids: seq<nat>, pairOf: map<nat, Pair>,
      oks: seq<bool>, ok: bool)
    requires Disconnecting(w, b, c, ids, oks)
    ensures Below(ids, |w.reg.records|)
    ensures var b' := Disconnect(b, c, ids, pairOf, oks, ok);
      b'.notices == b.notices && b'.pageCloses == b.pageCloses + PageSessions(w.reg, ids)
  {
    ClosedListIsOrphans(w, c, ids);
    var w1 := P.AfterClose(w, c);
    forall k | 0 <= k < |ids| ensures w1.reg.records[ids[k]].ids.pageSession != "" { assert P.RecordOk(w1, ids[k]); }
    hide P.Inv, P.CloseConnection, CloseEach, PageSessions;
    CloseEachTells(b.(reg := w1.reg), ids, pairOf, oks);
  }

  lemma DisconnectRecords<Pair>(w: P.World, b: State<Pair>, c: Conn, ids: seq<nat>, pairOf: map<nat, Pair>,
      oks: seq<bool>, ok: bool, i: nat)
    requires Disconnecting(w, b, c, ids, oks) && Below(ids, |w.reg.records|) && i < |w.reg.records|
    ensures var b' := Disconnect(b, c, ids, pairOf, oks, ok);
      && |b'.reg.records| == |w.reg.records|
      && (if w.reg.records[i].owner == Some(c) && w.reg.records[i].state.Open? then b'.reg.records[i].state.Closed?
          else b'.reg.records[i] == w.reg.records[i])
  {
    ClosedListIsOrphans(w, c, ids);
    hide P.Inv, P.CloseConnection, CloseEach, PageSessions;
    CloseEachRecords(b.(reg := P.AfterClose(w, c).reg), ids, pairOf, oks, i);
  }

  /** The index holds the keys of every record that the disconnect hands back for its own sessions. */
  ghost predicate LostHeld<Pair>(w: P.World, b: State<Pair>, ids: seq<nat>) {
    forall k | 0 <= k < |ids| && ids[k] < |w.reg.records| :: KeysHeld(b.index, w.reg.records[ids[k]].ids)
  }

  lemma LostAllHeld<Pair>(w: P.World, b: State<Pair>, c: Conn, ids: seq<nat>)
    requires P.Inv(w) && !R.Disconnected(w.reg, c) && LostHeld(w, b, ids)
    requires Distinct(ids) && (forall id: nat :: id in ids <==> id in P.CloseConnection(w.reg, c).1)
    ensures var b1 := b.(reg := P.AfterClose(w, c).reg); Below(ids, |b1.reg.records|) && AllHeld(b1, ids)
  {
    ClosedListIsOrphans(w, c, ids);
    var b1 := b.(reg := P.AfterClose(w, c).reg);
    hide P.Inv, P.AfterClose, P.CloseConnection, KeysHeld, PageSessions, Orphans;
    forall k | 0 <= k < |ids| ensures KeysHeld(b1.index, b1.reg.records[ids[k]].ids) {
      assert b1.reg.records[ids[k]].ids == w.reg.records[ids[k]].ids;
    }
  }

  lemma DisconnectGone<Pair>(w: P.World, b: State<Pair>, c: Conn, ids: seq<nat>, pairOf: map<nat, Pair>,
      oks: seq<bool>, ok: bool, k: nat)
    requires Disconnecting(w, b, c, ids, oks) && LostHeld(w, b, ids) && Below(ids, |w.reg.records|) && k < |ids|
    ensures Gone(Disconnect(b, c, ids, pairOf, oks, ok), ids[k], w.reg.records[ids[k]].ids, At(pairOf, ids[k]))
  {
    ClosedListIsOrphans(w, c, ids);
    LostAllHeld(w, b, c, ids);
    hide P.Inv, P.CloseConnection, CloseEach, PageSessions, Gone, LostHeld, AllHeld, X.Coherent, Orphans;
    var b1 := b.(reg := P.AfterClose(w, c).reg);
    CloseEachForgets(P.AfterClose(w, c), b1, ids, pairOf, oks, k);
    DisableKeepsGone(CloseEach(b1, ids, pairOf, oks), ok, ids[k], w.reg.records[ids[k]].ids, At(pairOf, ids[k]));
  }

  /**
   A disconnect closes every open record of the connection and no other record: each is forgotten
   by every table, index and queue, the backend is asked to close its page once, and no further
   notice goes to anybody.
   */
  lemma DisconnectForgets<Pair>(w: P.World, b: State<Pair>, c: Conn, ids: seq<nat>, pairOf: map<nat, Pair>,
      oks: seq<bool>, ok: bool)
    requires Disconnecting(w, b, c, ids, oks) && LostHeld(w, b, ids)
    ensures Below(ids, |w.reg.records|)
    ensures var b' := Disconnect(b, c, ids, pairOf, oks, ok);
      && AllGone(b', w.reg, ids, pairOf)
      && b'.notices == b.notices && b'.pageCloses == b.pageCloses + PageSessions(w.reg, ids)
      && |b'.reg.records| == |w.reg.records|
      && (forall i | 0 <= i < |w.reg.records| ::
            if w.reg.records[i].owner == Some(c) && w.reg.records[i].state.Open? then b'.reg.records[i].state.Closed?
            else b'.reg.records[i] == w.reg.records[i])
  {
    DisconnectTells(w, b, c, ids, pairOf, oks, ok);
    var b' := Disconnect(b, c, ids, pairOf, oks, ok);
    hide Disconnecting, Disconnect, Gone, PageSessions, LostHeld;
    forall k | 0 <= k < |ids| ensures Gone(b', ids[k], w.reg.records[ids[k]].ids, At(pairOf, ids[k])) {
      DisconnectGone(w, b, c, ids, pairOf, oks, ok, k);
    }
    forall i | 0 <= i < |w.reg.records|
      ensures |b'.reg.records| == |w.reg.records|
      ensures if w.reg.records[i].owner == Some(c) && w.reg.records[i].state.Open? then b'.reg.records[i].state.Closed?
              else b'.reg.records[i] == w.reg.records[i]
    { DisconnectRecords(w, b, c, ids, pairOf, oks, ok, i); }
  }
}
