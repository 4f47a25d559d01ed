/**
 pkg/bridge/bridge.go as it stands: the bridge object with its tables, the loops that clear one
 target out of them, and closeRecord and ConnectionClosed, each proved to be the step that
 CleanupProtocol says it is.
 */
module Bridge {
  import opened Common
  import P = OwnershipProtocol
  import X = SessionIndex
  import opened Ownership
  import opened Sessions
  import opened OwnedTables
  import opened SessionTables
  import opened CleanupProtocol
  import opened Publishing

  /** The loop over the contexts, which looks at the Juggler session as well as at the owner. */
  method DropContexts<K(==)>(ctxMap: map<K, string>, ctxOwners: map<K, string>, page: string, juggler: string)
    returns (ctxMap': map<K, string>, ctxOwners': map<K, string>)
    ensures var gone := ContextsOf(ctxMap, ctxOwners, page, juggler);
      ctxMap' == Cut(ctxMap, gone) && ctxOwners' == Cut(ctxOwners, gone)
  {
    ghost var gone := ContextsOf(ctxMap, ctxOwners, page, juggler);
    ctxMap', ctxOwners' := ctxMap, ctxOwners;
    var todo := ctxMap.Keys;
    while todo != {}
      invariant todo <= ctxMap.Keys
      invariant ctxMap' == ctxMap - (gone - todo) && ctxOwners' == ctxOwners - (gone - todo)
      decreases todo
    {
      var id :| id in todo;
      assert OwnerOf(ctxOwners', id) == OwnerOf(ctxOwners, id);
      if ctxMap'[id] == juggler || OwnerOf(ctxOwners', id) == page {
        ctxMap', ctxOwners' := ctxMap' - {id}, ctxOwners' - {id};
        assert gone - (todo - {id}) == (gone - todo) + {id};
      } else {
        assert gone - (todo - {id}) == gone - todo;
      }
      todo := todo - {id};
    }
    assert gone - {} == gone;
  }

  /** The in-place filter of the queue of pairs. */
  method Filter(queue: seq<TargetPair>, pair: TargetPair?) returns (kept: seq<TargetPair>)
    ensures kept == Without(queue, PairOption(pair))
  {
    kept := [];
    var i := 0;
    while i < |queue|
      invariant 0 <= i <= |queue|
      invariant kept == Without(queue[..i], PairOption(pair))
    {
      WithoutSnoc(queue[..i], PairOption(pair), queue[i]);
      assert queue[..i + 1] == queue[..i] + [queue[i]];
      if queue[i] != pair { kept := kept + [queue[i]]; }
      i := i + 1;
    }
    assert queue[..i] == queue;
  }

  /** The pairs of a list of records, by number. */
  ghost function PairsOf(records: seq<TargetRecord>): map<nat, TargetPair> {
    map i: nat | i < |records| && records[i].pair != null :: records[i].pair
  }

  /** The numbers of a list of records, in its order. */
  ghost function Numbers(lost: seq<TargetRecord>): (ids: seq<nat>)
    ensures |ids| == |lost| && forall k | 0 <= k < |lost| :: ids[k] == lost[k].index
  {
    if lost == [] then [] else [lost[0].index] + Numbers(lost[1..])
  }

  lemma NumbersOfList(lost: seq<TargetRecord>, ids: set<nat>, records: seq<TargetRecord>)
    requires IsListOf(lost, ids, records) && forall i | 0 <= i < |records| :: records[i].index == i
    ensures Distinct(Numbers(lost)) && Below(Numbers(lost), |records|)
    ensures forall id: nat :: id in Numbers(lost) <==> id in ids
  {
    forall i, j | 0 <= i < j < |lost| ensures Numbers(lost)[i] != Numbers(lost)[j] {
      assert lost[i] in lost && lost[j] in lost && Places(lost[i], records, lost[i].index)
          && Places(lost[j], records, lost[j].index);
    }
    forall k | 0 <= k < |lost| ensures Numbers(lost)[k] < |records| { assert lost[k] in lost; }
    forall id: nat ensures id in Numbers(lost) <==> id in ids {
      if id in ids { var k :| 0 <= k < |lost| && lost[k] == records[id]; assert Numbers(lost)[k] == id; }
      if id in Numbers(lost) {
        var k :| 0 <= k < |lost| && Numbers(lost)[k] == id;
        assert lost[k] in lost && Places(lost[k], records, id);
      }
    }
  }

  /** The backend's answers to the calls numbered from `first`. */
  ghost function Answers(answer: nat -> bool, first: nat, n: nat): (oks: seq<bool>)
    ensures |oks| == n && forall k | 0 <= k < n :: oks[k] == answer(first + k)
  {
    seq(n, k requires 0 <= k < n => answer(first + k))
  }

  function PairOption(pair: TargetPair?): Option<TargetPair> { if pair == null then None else Some(pair) }

  lemma NoneToClose(b: State<TargetPair>, pairOf: map<nat, TargetPair>, answer: nat -> bool, i: nat)
    ensures Below(Numbers([]), |b.reg.records|) && CloseEach(b, Numbers([]), pairOf, Answers(answer, i, 0)) == b
  {}

  lemma OneMoreClosed(b: State<TargetPair>, lost: seq<TargetRecord>, records: seq<TargetRecord>, answer: nat -> bool,
      i: nat)
    requires lost != [] && Below(Numbers(lost), |b.reg.records|)
    requires Places(lost[0], records, lost[0].index)
    ensures var b' := CloseRecord(b, lost[0].index, PairOption(lost[0].pair), true, answer(i));
      && Below(Numbers(lost[1..]), |b'.reg.records|)
      && CloseEach(b', Numbers(lost[1..]), PairsOf(records), Answers(answer, i + 1, |lost[1..]|))
         == CloseEach(b, Numbers(lost), PairsOf(records), Answers(answer, i, |lost|))
  {
    assert At(PairsOf(records), lost[0].index) == PairOption(lost[0].pair);
    assert Numbers(lost)[1..] == Numbers(lost[1..]);
    assert Answers(answer, i, |lost|)[1..] == Answers(answer, i + 1, |lost[1..]|);
  }

  /** closeRecord does nothing unless BeginCleanup says to go ahead. */
  lemma CloseRecordBranches(b: State<TargetPair>, id: nat, pair: Option<TargetPair>, closeBackend: bool, ok: bool)
    ensures id < |b.reg.records| ==>
      var (s, won) := P.BeginCleanup(b.reg, id); var r := b.reg.records[id];
      && |s.records| == |b.reg.records| && s.records[id].ids == r.ids && s.records[id].owner == r.owner
      && (!won ==> s == b.reg && CloseRecord(b, id, pair, closeBackend, ok) == b)
      && (won ==> CloseRecord(b, id, pair, closeBackend, ok)
                  == Erased(b.(reg := s), r.owner, r.ids, pair, closeBackend, ok).(reg := P.Remove(s, id)))
  {
    hide Erased, P.Remove;
  }

  class Bridge {
    const ownership: OwnershipRegistry
    const sessions: SessionManager
    /** The maps by session; the owners of requests are in the registry. */
    var tables: Tables
    // auto-attach
    var pairs: map<string, TargetPair>
    var pending: seq<TargetPair>
    /** Whether the backend was last made to intercept requests. */
    var intercepting: bool
    /** What has been sent to connections and, as Page.close calls, to the backend. */
    var notices: seq<Notice>
    var pageCloses: seq<string>

    constructor (ownership: OwnershipRegistry, sessions: SessionManager)
      requires ownership.Valid() && sessions.Valid()
      ensures Valid() && this.ownership == ownership && this.sessions == sessions && Paired(TablesNow())
    {
      this.ownership, this.sessions := ownership, sessions;
      tables := Tables(map[], map[], map[], map[], map[], map[], map[], map[], map[], map[], map[], map[],
                       map[], map[], map[], map[], map[], map[], map[], map[], map[]);
      pairs, pending, intercepting, notices, pageCloses := map[], [], false, [], [];
    }

    ghost predicate Valid()
      reads this, ownership, ownership.pool, sessions, sessions.pool
    {
      ownership.Valid() && sessions.Valid()
    }

    function TablesNow(): Tables
      reads this, ownership
    {
      tables.(requestOwners := ownership.requestOwners)
    }

    ghost function Now(): State<TargetPair>
      reads this, ownership, sessions
    {
      State(ownership.Model, TablesNow(), sessions.Model, pairs, pending, intercepting, notices, pageCloses)
    }

    /** Deletes what is keyed by the page's session or by the Juggler session. */
    method ClearKeys(page: string, juggler: string)
      modifies this`tables, this`pairs
      ensures tables == ClearedKeys(old(tables), page, juggler) && pairs == Del(old(pairs), juggler)
    {
      hide Del;
      tables := tables.(loaders := Del(tables.loaders, page));
      tables := tables.(isolatedWorlds := Del(tables.isolatedWorlds, page));
      tables := tables.(lastQuery := Del(tables.lastQuery, page));
      tables := tables.(lastQueryAll := Del(tables.lastQueryAll, page));
      tables := tables.(lastQuerySkips := Del(tables.lastQuerySkips, page));
      tables := tables.(lastDialog := Del(tables.lastDialog, page));
      tables := tables.(fetchPatterns := Del(tables.fetchPatterns, page));
      tables := tables.(pendingContextClear := Del(tables.pendingContextClear, page));
      tables := tables.(deterministicApplied := Del(tables.deterministicApplied, page));
      tables := tables.(latestCtx := Del(tables.latestCtx, juggler));
      tables := tables.(subFrames := Del(tables.subFrames, juggler));
      tables := tables.(pendingFrameIDs := Del(tables.pendingFrameIDs, juggler));
      pairs := Del(pairs, juggler);
    }

    /** Runs the loops that delete the contexts and what the page's session owns. */
    method ClearOwned(page: string, juggler: string)
      modifies this`tables
      ensures tables == ClearedOwned(old(tables), page, juggler)
    {
      hide Cut, KeysOf, ContextsOf;
      var ctxMap, ctxOwners := DropContexts(tables.ctxMap, tables.ctxOwners, page, juggler);
      var unique, _ := DropOwned(tables.ctxUniqueOwners, tables.ctxUniqueOwners, page);
      tables := tables.(ctxMap := ctxMap, ctxOwners := ctxOwners, ctxUniqueOwners := unique);
      var nodeOwners, nodeObjects := DropOwned(tables.nodeOwners, tables.nodeObjects, page);
      var objects, _ := DropOwned(tables.objectOwners, tables.objectOwners, page);
      tables := tables.(nodeOwners := nodeOwners, nodeObjects := nodeObjects, objectOwners := objects);
      var pdfOwners, pdfStreams := DropOwned(tables.pdfOwners, tables.pdfStreams, page);
      tables := tables.(pdfOwners := pdfOwners, pdfStreams := pdfStreams);
    }

    /** The body of the loop in clearConnectionState. */
    method ClearRecord(page: string, juggler: string)
      requires ownership.Valid()
      modifies this`tables, this`pairs, ownership`requestOwners
      ensures ownership.Valid()
      ensures TablesNow() == Cleared(old(TablesNow()), page, juggler) && pairs == Del(old(pairs), juggler)
    {
      hide Cut, KeysOf, ContextsOf, Del, OwnershipRegistry.Valid;
      ClearKeys(page, juggler);
      ClearOwned(page, juggler);
      ownership.ClearRequests(page);
    }

    method DisableFetchIfUnusedNow(ok: bool)
      modifies this`intercepting
      ensures intercepting == if tables.fetchPatterns == map[] && ok then false else old(intercepting)
    {
      if |tables.fetchPatterns| > 0 { return; }
      if ok { intercepting := false; }
    }

    /** sendOwnedEvent, for the two events of a closing target. */
    method SayFarewell(owner: Option<Conn>, ids: P.Ids)
      modifies this`notices
      ensures notices == old(notices) + Farewell(owner, ids)
    {
      if owner.None? { return; }
      notices := notices + [Detached(owner.value, ids.pageSession, ids.pageTarget)];
      notices := notices + [Destroyed(owner.value, ids.pageTarget)];
    }

    method LeaveQueue(juggler: string, pair: TargetPair?)
      modifies this`pairs, this`pending
      ensures pairs == (if juggler != "" then Del(old(pairs), juggler) else old(pairs))
          && pending == Without(old(pending), PairOption(pair))
    {
      if juggler != "" { pairs := Del(pairs, juggler); }
      pending := Filter(pending, pair);
    }

    /** What closeRecord does before it takes the sessions out of the index. */
    method EraseTables(owner: Option<Conn>, ids: P.Ids, closeBackend: bool, ok: bool)
      requires ownership.Valid()
      modifies this, ownership`requestOwners
      ensures ownership.Valid() && pending == old(pending)
      ensures TablesNow() == Cleared(old(TablesNow()), ids.pageSession, ids.juggler)
          && pairs == Del(old(pairs), ids.juggler)
      ensures intercepting == if TablesNow().fetchPatterns == map[] && ok then false else old(intercepting)
      ensures notices == old(notices) + Farewell(owner, ids)
      ensures pageCloses == old(pageCloses) + if closeBackend && ids.pageSession != "" then [ids.pageSession] else []
    {
      hide Cleared, Del, Farewell, OwnershipRegistry.Valid;
      if closeBackend && ids.pageSession != "" { pageCloses := pageCloses + [ids.pageSession]; }
      ClearRecord(ids.pageSession, ids.juggler);
      DisableFetchIfUnusedNow(ok);
      SayFarewell(owner, ids);
    }

    /** Everything between BeginCleanup and the registry's Remove. */
    method EraseTarget(owner: Option<Conn>, ids: P.Ids, pair: TargetPair?, closeBackend: bool, ok: bool)
      requires Valid()
      modifies this, ownership`requestOwners, sessions`sessions, sessions`targets, sessions`jugglerSessions,
          sessions`Model
      ensures Valid()
      ensures Now() == Erased(old(Now()), owner, ids, PairOption(pair), closeBackend, ok)
    {
      hide Cleared, Del, Without, Farewell, OwnershipRegistry.Valid, SessionManager.Valid, X.Remove;
      EraseTables(owner, ids, closeBackend, ok);
      sessions.Remove(ids.pageSession);
      sessions.Remove(ids.tabSession);
      LeaveQueue(ids.juggler, pair);
    }

    method CloseRecordNow(record: TargetRecord, closeBackend: bool, ok: bool)
      requires Valid() && ownership.Holds(record)
      modifies this, ownership`targets, ownership`sessions, ownership`Model, ownership`requestOwners, record,
        sessions`sessions, sessions`targets, sessions`jugglerSessions, sessions`Model
      ensures Valid()
      ensures record.index < |old(Now()).reg.records|
      ensures Now() == CloseRecord(old(Now()), record.index, PairOption(record.pair), closeBackend, ok)
    {
      ghost var b := Now();
      CloseRecordBranches(b, record.index, PairOption(record.pair), closeBackend, ok);
      hide CloseRecord, Body, Erased, OwnershipRegistry.Valid, SessionManager.Valid, P.BeginCleanup, P.Remove,
          PairOption;
      var owner := record.owner;
      var won := ownership.BeginCleanupLocked(record);
      if !won { return; }
      EraseTarget(owner, record.ids, record.pair, closeBackend, ok);
      ownership.RemoveLocked(record);
    }

    /** One turn of the loop of ConnectionClosed, with `rest` still to close. */
    method CloseNext(rest: seq<TargetRecord>, answer: nat -> bool, i: nat)
      requires Valid() && rest != [] && ownership.Holds(rest[0]) && Below(Numbers(rest), |Now().reg.records|)
      modifies this, ownership`targets, ownership`sessions, ownership`Model, ownership`requestOwners, ownership.pool,
        sessions`sessions, sessions`targets, sessions`jugglerSessions, sessions`Model
      ensures Valid() && Below(Numbers(rest[1..]), |Now().reg.records|)
      ensures var pairOf := PairsOf(ownership.records);
        CloseEach(Now(), Numbers(rest[1..]), pairOf, Answers(answer, i + 1, |rest[1..]|))
        == CloseEach(old(Now()), Numbers(rest), pairOf, Answers(answer, i, |rest|))
    {
      OneMoreClosed(Now(), rest, ownership.records, answer, i);
      hide CloseRecord, CloseEach, OwnershipRegistry.Valid, SessionManager.Valid, Numbers, PairsOf, Answers, Below;
      CloseRecordNow(rest[0], true, answer(i));
    }

    /**
     The loop of ConnectionClosed; `answer` tells what the backend says to each call that switches
     interception off.
     */
    method CloseAll(lost: seq<TargetRecord>, answer: nat -> bool)
      requires Valid() && forall r | r in lost :: ownership.Holds(r)
      modifies this, ownership`targets, ownership`sessions, ownership`Model, ownership`requestOwners, ownership.pool,
        sessions`sessions, sessions`targets, sessions`jugglerSessions, sessions`Model
      ensures Valid() && Below(Numbers(lost), |old(Now()).reg.records|)
      ensures Now() == CloseEach(old(Now()), Numbers(lost), PairsOf(ownership.records), Answers(answer, 0, |lost|))
    {
      hide Now, Bridge.Valid, CloseEach, Numbers, PairsOf, Answers, Below;
      ghost var b, pairOf := Now(), PairsOf(ownership.records);
      HeldAreBelow(lost);
      var i := 0;
      assert lost[0..] == lost;
      while i < |lost|
        invariant 0 <= i <= |lost| && Valid() && Below(Numbers(lost[i..]), |Now().reg.records|)
        invariant CloseEach(Now(), Numbers(lost[i..]), pairOf, Answers(answer, i, |lost[i..]|))
                  == CloseEach(b, Numbers(lost), pairOf, Answers(answer, 0, |lost|))
      {
        assert lost[i] in lost && lost[i..][1..] == lost[i + 1..] && lost[i..][0] == lost[i];
        CloseNext(lost[i..], answer, i);
        i := i + 1;
      }
      assert lost[i..] == [];
      NoneToClose(Now(), pairOf, answer, i);
    }

    lemma HeldAreBelow(lost: seq<TargetRecord>)
      requires Valid() && forall r | r in lost :: ownership.Holds(r)
      ensures Below(Numbers(lost), |Now().reg.records|)
    {
      forall k | 0 <= k < |lost| ensures Numbers(lost)[k] < |Now().reg.records| { assert lost[k] in lost; }
    }

    lemma ListedAreHeld(lost: seq<TargetRecord>, ids: set<nat>)
      requires Valid() && IsListOf(lost, ids, ownership.records)
      ensures forall r | r in lost :: ownership.Holds(r)
      ensures forall i | 0 <= i < |ownership.records| :: ownership.records[i].index == i
    {
      forall r | r in lost ensures ownership.Holds(r) { assert Places(r, ownership.records, r.index); }
    }

    /** The registry's part of a disconnect; `lost` lists the records that it hands back. */
    method ListLost(c: Conn) returns (lost: seq<TargetRecord>)
      requires Valid()
      modifies ownership, ownership.pool
      ensures Valid() && ownership.records == old(ownership.records) && ownership.pool == old(ownership.pool)
      ensures forall r | r in lost :: ownership.Holds(r)
      ensures var ids := Numbers(lost);
        && Distinct(ids) && Below(ids, |old(Now()).reg.records|)
        && (forall id: nat :: id in ids <==> id in P.CloseConnection(old(Now()).reg, c).1)
      ensures Now() == old(Now()).(reg := P.CloseConnection(old(Now()).reg, c).0)
    {
      hide P.CloseConnection, OwnershipRegistry.Valid, SessionManager.Valid, Below, Numbers;
      lost := ownership.CloseConnectionLocked(c);
      ListedAreHeld(lost, P.CloseConnection(old(Now()).reg, c).1);
      NumbersOfList(lost, P.CloseConnection(old(Now()).reg, c).1, ownership.records);
      HeldAreBelow(lost);
    }

    /**
     ConnectionClosed. `ids` numbers the records closed, in the order the registry listed them; the
     backend may answer each call that switches interception off as it likes, the last one included.
     */
    method ConnectionClosedNow(c: Conn, answer: nat -> bool) returns (ghost ids: seq<nat>)
      requires Valid()
      modifies this, ownership, ownership.pool, sessions`sessions, sessions`targets, sessions`jugglerSessions,
          sessions`Model
      ensures Valid() && ownership.records == old(ownership.records)
      ensures Distinct(ids) && Below(ids, |old(Now()).reg.records|)
      ensures forall id: nat :: id in ids <==> id in P.CloseConnection(old(Now()).reg, c).1
      ensures Now() == Disconnect(old(Now()), c, ids, PairsOf(ownership.records), Answers(answer, 0, |ids|),
          answer(|ids|))
    {
      hide P.CloseConnection, OwnershipRegistry.Valid, SessionManager.Valid, CloseEach, PairsOf, Below, Numbers,
          Answers;
      var lost := ListLost(c);
      ids := Numbers(lost);
      CloseAll(lost, answer);
      DisableFetchIfUnusedNow(answer(|lost|));
    }

    /** The owner publishOwnedPair reads off the record, if the pair is to be published at all. */
    function OwnerToTell(target: string): (owner: Option<Conn>)
      requires ownership.Valid()
      reads this, ownership, ownership.pool
      ensures owner == PublishTo(ownership.Model, target)
    {
      var record := ownership.RecordForTarget(target);
      if record == null then None else
      assert record.Value() == ownership.Model.records[record.index];
      if record.cancelled then None else record.owner
    }

    /** emitAutoAttachPair: the flag goes up first, the event goes to the owner of an open record only. */
    method AnnouncePair(pair: TargetPair)
      requires ownership.Valid()
      modifies this`notices, pair
      ensures pair.Attached() == old(pair.Attached()).(root := true)
      ensures var to := P.OwnerForTarget(ownership.Model, pair.ids.pageTarget);
        notices == old(notices)
          + if !old(pair.Attached()).root && to.Some?
            then [Attached(to.value, pair.ids.pageSession, pair.ids.pageTarget)] else []
    {
      var to := ownership.OwnerForTargetLocked(pair.ids.pageTarget);
      var emitted := pair.EmitPageAttach("");
      if emitted && to.Some? { notices := notices + [Attached(to.value, pair.ids.pageSession, pair.ids.pageTarget)]; }
    }

    /** The two messages to the owner, each if it asked for such messages. */
    method TellOwner(pair: TargetPair, owner: Conn)
      requires ownership.Valid()
      modifies this`notices, pair
      ensures P.TargetsInRange(ownership.Model)
      ensures var announce := WantsAttaches(ownership.Model, owner);
        && notices == old(notices) + Told(ownership.Model, owner, pair.ids, old(pair.Attached()).root)
        && pair.Attached() == old(pair.Attached()).(root := old(pair.Attached()).root || announce)
    {
      ownership.KeysInRange();
      FlagsAgree(owner);
      hide OwnershipRegistry.Valid, OwnershipRegistry.DiscoverEnabled, OwnershipRegistry.AutoAttachEnabled,
          P.OwnerForTarget, WantsTargets, WantsAttaches;
      if ownership.DiscoverEnabled(owner) { notices := notices + [Created(owner, pair.ids.pageTarget)]; }
      if ownership.AutoAttachEnabled(owner) { AnnouncePair(pair); }
    }

    /**
     publishOwnedPair: takes the pair off the queue and tells its owner, once, that the page is
     there. A page that is no longer open is marked as announced although nobody is told.
     */
    method PublishOwnedPair(pair: TargetPair)
      requires ownership.Valid()
      modifies this`pending, this`notices, pair
      ensures P.TargetsInRange(ownership.Model)
      ensures var c := PublishTo(ownership.Model, pair.ids.pageTarget);
        && pending == (if c.None? then old(pending) else Without(old(pending), Some(pair)))
        && notices == old(notices) + Messages(ownership.Model, pair.ids, old(pair.Attached()).root)
        && pair.Attached() == old(pair.Attached()).(
             root := old(pair.Attached()).root || (c.Some? && WantsAttaches(ownership.Model, c.value)))
    {
      var owner := OwnerToTell(pair.ids.pageTarget);
      ownership.KeysInRange();
      if owner.None? { return; }
      hide OwnershipRegistry.Valid, Told, Without, PublishTo, WantsAttaches;
      pending := Filter(pending, pair);
      TellOwner(pair, owner.value);
    }

    lemma FlagsAgree(c: Conn)
      requires ownership.Valid()
      ensures ownership.DiscoverEnabled(c) == WantsTargets(ownership.Model, c)
      ensures ownership.AutoAttachEnabled(c) == WantsAttaches(ownership.Model, c)
    {}
  }
}
