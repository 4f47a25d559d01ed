/**
 The bridge's state seen through the smaller models: closing a target and disconnecting a client
 are, on the patterns and the interception flag, the steps of FetchState, and on the three maps of
 the $eval interception the step of EvalMachine.
 */
module Views {
  import opened Common
  import opened OwnedTables
  import opened SessionTables
  import opened CleanupProtocol
  import F = FetchState
  import E = EvalMachine
  import P = OwnershipProtocol
  import R = OwnershipRuns

  function FetchOf<Pair>(b: State<Pair>): F.Fetch { F.Fetch(b.tables.fetchPatterns, b.intercepting) }

  function QueriesOf(t: Tables): E.Maps { E.Maps(t.lastQuery, t.lastQueryAll, t.lastQuerySkips) }

  /** Clearing a target forgets what its page session was about to evaluate. */
  lemma ClearedForgetsQuery(t: Tables, page: string, juggler: string)
    ensures QueriesOf(Cleared(t, page, juggler)) == E.Forget(QueriesOf(t), page)
  {}

  lemma ClearedFetch(t: Tables, page: string, juggler: string)
    ensures Cleared(t, page, juggler).fetchPatterns == t.fetchPatterns - {page}
  {}

  /** A close that goes ahead is the Fetch domain's close of its page session. */
  lemma CloseIsFetchClose<Pair>(b: State<Pair>, id: nat, pair: Option<Pair>, closeBackend: bool, ok: bool)
    requires id < |b.reg.records| && !b.reg.records[id].cleaned && !b.reg.records[id].state.Closed?
    ensures FetchOf(CloseRecord(b, id, pair, closeBackend, ok))
         == F.CloseTarget(FetchOf(b), b.reg.records[id].ids.pageSession, ok)
  {
    var ids := b.reg.records[id].ids;
    ClearedFetch(b.tables, ids.pageSession, ids.juggler);
    hide Cleared, P.Remove, Without, Farewell;
  }

  lemma {:induction false} CloseEachIsFetchCloses<Pair>(b: State<Pair>, ids: seq<nat>, pairOf: map<nat, Pair>,
      oks: seq<bool>)
    requires Orphans(b.reg, ids) && |oks| == |ids|
    ensures |PageSessions(b.reg, ids)| == |ids|
    ensures FetchOf(CloseEach(b, ids, pairOf, oks)) == F.CloseTargets(FetchOf(b), PageSessions(b.reg, ids), oks)
    decreases |ids|
  {
    hide CloseRecord, Closed, PageSessions, FetchOf, F.CloseTarget;
    PageSessionsFirst(b.reg, ids);
    if ids != [] {
      var pair := At(pairOf, ids[0]);
      CloseIsFetchClose(b, ids[0], pair, true, oks[0]);
      CloseRecordReg(b, ids[0], pair, true, oks[0]);
      OrphansRest(b.reg, ids);
      CloseEachIsFetchCloses(CloseRecord(b, ids[0], pair, true, oks[0]), ids[1..], pairOf, oks[1..]);
      assert PageSessions(b.reg, ids)[0] == b.reg.records[ids[0]].ids.pageSession;
      assert PageSessions(b.reg, ids)[1..] == PageSessions(b.reg, ids[1..]);
    }
  }

  lemma DisableIsFetchDisable<Pair>(b: State<Pair>, ok: bool)
    ensures FetchOf(DisableFetchIfUnused(b, ok)) == F.DisableIfUnused(FetchOf(b), ok)
  {}

  /** A disconnect is the Fetch domain's disconnect of the pages it closes. */
  lemma DisconnectIsFetchDisconnect<Pair>(w: P.World, b: State<Pair>, c: Conn, ids: seq<nat>, pairOf: map<nat, Pair>,
      oks: seq<bool>, ok: bool)
    requires Disconnecting(w, b, c, ids, oks)
    ensures Below(ids, |b.reg.records|) && |PageSessions(b.reg, ids)| == |oks|
    ensures FetchOf(Disconnect(b, c, ids, pairOf, oks, ok))
        == F.Disconnect(FetchOf(b), PageSessions(b.reg, ids), oks, ok)
  {
    ClosedListIsOrphans(w, c, ids);
    hide P.Inv, P.CloseConnection, CloseEach, PageSessions;
    var b1 := b.(reg := P.AfterClose(w, c).reg);
    CloseEachIsFetchCloses(b1, ids, pairOf, oks);
    DisableIsFetchDisable(CloseEach(b1, ids, pairOf, oks), ok);
  }

  /**
   So after a disconnect whose last call succeeds the backend intercepts exactly while some session has
   Fetch enabled.
   */
  lemma DisconnectKeepsFlagRight<Pair>(w: P.World, b: State<Pair>, c: Conn, ids: seq<nat>, pairOf: map<nat, Pair>,
      oks: seq<bool>)
    requires Disconnecting(w, b, c, ids, oks) && F.InSync(FetchOf(b))
    ensures Below(ids, |b.reg.records|)
    ensures F.InSync(FetchOf(Disconnect(b, c, ids, pairOf, oks, true)))
  {
    DisconnectIsFetchDisconnect(w, b, c, ids, pairOf, oks, true);
    var e := F.DidDisconnect(PageSessions(b.reg, ids), oks, true);
    F.SucceedingStepsSync(FetchOf(b), e);
  }
}
