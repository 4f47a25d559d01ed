/**
 The body of closeRecord split into its lock regions (pkg/bridge/bridge.go), and any number of
 closers of the same and of different records interleaved with everything else the bridge does:
 the registry's other regions, and handlers and goroutines that store and delete for any session,
 the sessions being closed included.
 */
module CleanupRuns {
  import opened Common
  import P = OwnershipProtocol
  import R = OwnershipRuns
  import X = SessionIndex
  import opened OwnedTables
  import opened SessionTables
  import opened CleanupProtocol

  // ---------------------------------------------------------------- the lock regions

  function DelIf<V>(now: bool, m: map<string, V>, k: string): map<string, V> { if now then Del(m, k) else m }

  function CutIf<K, V>(now: bool, m: map<K, V>, ks: set<K>): map<K, V> { if now then Cut(m, ks) else m }

  /** The regions of clearConnectionState, numbered in their order from 0 to 13. */
  function TableRegion(t: Tables, ids: P.Ids, n: nat): Tables {
    var page, juggler := ids.pageSession, ids.juggler;
    var contexts := ContextsOf(t.ctxMap, t.ctxOwners, page, juggler);
    t.(loaders := DelIf(n == 0, t.loaders, page),
       isolatedWorlds := DelIf(n == 1, t.isolatedWorlds, page),
       lastQuery := DelIf(n == 2, t.lastQuery, page),
       lastQueryAll := DelIf(n == 2, t.lastQueryAll, page),
       lastQuerySkips := DelIf(n == 2, t.lastQuerySkips, page),
       lastDialog := DelIf(n == 3, t.lastDialog, page),
       fetchPatterns := DelIf(n == 4, t.fetchPatterns, page),
       pendingContextClear := DelIf(n == 5, t.pendingContextClear, page),
       deterministicApplied := DelIf(n == 6, t.deterministicApplied, page),
       latestCtx := DelIf(n == 7, t.latestCtx, juggler),
       subFrames := DelIf(n == 8, t.subFrames, juggler),
       ctxMap := CutIf(n == 9, t.ctxMap, contexts),
       ctxOwners := CutIf(n == 9, t.ctxOwners, contexts),
       ctxUniqueOwners := CutIf(n == 9, t.ctxUniqueOwners, KeysOf(t.ctxUniqueOwners, page)),
       nodeObjects := CutIf(n == 10, t.nodeObjects, KeysOf(t.nodeOwners, page)),
       nodeOwners := CutIf(n == 10, t.nodeOwners, KeysOf(t.nodeOwners, page)),
       objectOwners := CutIf(n == 10, t.objectOwners, KeysOf(t.objectOwners, page)),
       pdfStreams := CutIf(n == 11, t.pdfStreams, KeysOf(t.pdfOwners, page)),
       pdfOwners := CutIf(n == 11, t.pdfOwners, KeysOf(t.pdfOwners, page)),
       requestOwners := CutIf(n == 12, t.requestOwners, KeysOf(t.requestOwners, page)),
       pendingFrameIDs := DelIf(n == 13, t.pendingFrameIDs, juggler))
  }

  function IndexRegion(x: X.Index, ids: P.Ids, n: nat): X.Index {
    if n == 17 then X.Remove(x, ids.pageSession) else if n == 18 then X.Remove(x, ids.tabSession) else x
  }

  /** The pairs are deleted from twice, the second time only under a proper Juggler session. */
  function PairsRegion<Pair>(pairs: map<string, Pair>, ids: P.Ids, n: nat): map<string, Pair> {
    if n == 13 || (n == 19 && ids.juggler != "") then Del(pairs, ids.juggler) else pairs
  }

  /** What is sent to the owner, one message at a time. */
  function PartingAt(n: nat, owner: Option<Conn>, ids: P.Ids): seq<Notice> {
    if owner.None? then []
    else if n == 15 then [Detached(owner.value, ids.pageSession, ids.pageTarget)]
    else if n == 16 then [Destroyed(owner.value, ids.pageTarget)]
    else []
  }

  /**
   One region of the body between BeginCleanup and the registry's Remove. Number 14 is
   disableFetchIfUnused, 15 and 16 are the two messages to the owner that the closer has read.
   */
  function Region<Pair(==)>(b: State<Pair>, ids: P.Ids, owner: Option<Conn>, pair: Option<Pair>, n: nat,
      ok: bool): State<Pair> {
    b.(tables := TableRegion(b.tables, ids, n), index := IndexRegion(b.index, ids, n),
       pairs := PairsRegion(b.pairs, ids, n),
       queue := if n == 19 then Without(b.queue, pair) else b.queue,
       notices := b.notices + PartingAt(n, owner, ids),
       intercepting := if n == 14 then DisableFetchIfUnused(b, ok).intercepting else b.intercepting)
  }

  /** The registry's Remove comes last. */
  const LAST: nat := 20

  function Regions<Pair(==)>(b: State<Pair>, ids: P.Ids, owner: Option<Conn>, pair: Option<Pair>, ok: bool,
      n: nat): State<Pair> {
    if n == 0 then b else Region(Regions(b, ids, owner, pair, ok, n - 1), ids, owner, pair, n - 1, ok)
  }

  function TableRegions(t: Tables, ids: P.Ids, n: nat): Tables {
    if n == 0 then t else TableRegion(TableRegions(t, ids, n - 1), ids, n - 1)
  }

  lemma {:induction false} RegionsOfTables<Pair>(b: State<Pair>, ids: P.Ids, owner: Option<Conn>, pair: Option<Pair>,
      ok: bool, n: nat)
    requires n <= 13
    ensures Regions(b, ids, owner, pair, ok, n) == b.(tables := TableRegions(b.tables, ids, n))
  {
    hide TableRegion;
    if n > 0 {
      RegionsOfTables(b, ids, owner, pair, ok, n - 1);
      assert b.notices + [] == b.notices;
    }
  }

  lemma OneMoreRegion(t: Tables, ids: P.Ids, n: nat)
    ensures TableRegions(t, ids, n + 1) == TableRegion(TableRegions(t, ids, n), ids, n)
  {
    hide TableRegion;
  }

  function WithoutKeys(t: Tables, page: string): Tables {
    t.(loaders := Del(t.loaders, page), isolatedWorlds := Del(t.isolatedWorlds, page),
       lastQuery := Del(t.lastQuery, page), lastQueryAll := Del(t.lastQueryAll, page),
       lastQuerySkips := Del(t.lastQuerySkips, page),
       lastDialog := Del(t.lastDialog, page), fetchPatterns := Del(t.fetchPatterns, page),
       pendingContextClear := Del(t.pendingContextClear, page),
       deterministicApplied := Del(t.deterministicApplied, page))
  }

  lemma FirstRegions(t: Tables, ids: P.Ids)
    ensures TableRegions(t, ids, 3) ==
      t.(loaders := Del(t.loaders, ids.pageSession), isolatedWorlds := Del(t.isolatedWorlds, ids.pageSession),
         lastQuery := Del(t.lastQuery, ids.pageSession), lastQueryAll := Del(t.lastQueryAll, ids.pageSession),
         lastQuerySkips := Del(t.lastQuerySkips, ids.pageSession))
  {
    assert TableRegions(t, ids, 0) == t;
    hide TableRegions, Del, Cut, KeysOf, ContextsOf;
    OneMoreRegion(t, ids, 0);
    OneMoreRegion(t, ids, 1);
    OneMoreRegion(t, ids, 2);
  }

  lemma PageRegions(t: Tables, ids: P.Ids)
    ensures TableRegions(t, ids, 7) == WithoutKeys(t, ids.pageSession)
  {
    FirstRegions(t, ids);
    hide TableRegions, Del, Cut, KeysOf, ContextsOf;
    OneMoreRegion(t, ids, 3);
    OneMoreRegion(t, ids, 4);
    OneMoreRegion(t, ids, 5);
    OneMoreRegion(t, ids, 6);
  }

  lemma MiddleRegions(t: Tables, ids: P.Ids)
    ensures var contexts := ContextsOf(t.ctxMap, t.ctxOwners, ids.pageSession, ids.juggler);
      TableRegions(t, ids, 10) == WithoutKeys(t, ids.pageSession).(
        latestCtx := Del(t.latestCtx, ids.juggler), subFrames := Del(t.subFrames, ids.juggler),
        ctxMap := Cut(t.ctxMap, contexts), ctxOwners := Cut(t.ctxOwners, contexts),
        ctxUniqueOwners := Cut(t.ctxUniqueOwners, KeysOf(t.ctxUniqueOwners, ids.pageSession)))
  {
    PageRegions(t, ids);
    hide TableRegions, Del, Cut, KeysOf, ContextsOf;
    OneMoreRegion(t, ids, 7);
    OneMoreRegion(t, ids, 8);
    OneMoreRegion(t, ids, 9);
  }

  lemma OwnedRegions(t: Tables, ids: P.Ids)
    ensures var keyed := ClearedKeys(t, ids.pageSession, ids.juggler).(pendingFrameIDs := t.pendingFrameIDs);
      TableRegions(t, ids, 12) == ClearedOwned(keyed, ids.pageSession, ids.juggler)
  {
    MiddleRegions(t, ids);
    hide TableRegions, Del, Cut, KeysOf, ContextsOf;
    OneMoreRegion(t, ids, 10);
    OneMoreRegion(t, ids, 11);
  }

  lemma AllRegions(t: Tables, ids: P.Ids)
    ensures TableRegions(t, ids, 14) == Cleared(t, ids.pageSession, ids.juggler)
  {
    OwnedRegions(t, ids);
    hide TableRegions, Del, Cut, KeysOf, ContextsOf;
    OneMoreRegion(t, ids, 12);
    OneMoreRegion(t, ids, 13);
  }

  lemma NoTableRegion(t: Tables, ids: P.Ids, n: nat)
    requires n >= 14
    ensures TableRegion(t, ids, n) == t
  {}

  /** The regions that come after the tables. */
  lemma LateRegions<Pair>(b: State<Pair>, ids: P.Ids, owner: Option<Conn>, pair: Option<Pair>, ok: bool)
    ensures Region(b, ids, owner, pair, 14, ok) == DisableFetchIfUnused(b, ok)
    ensures Region(b, ids, owner, pair, 15, ok) == b.(notices := b.notices + PartingAt(15, owner, ids))
    ensures Region(b, ids, owner, pair, 16, ok) == b.(notices := b.notices + PartingAt(16, owner, ids))
    ensures Region(b, ids, owner, pair, 17, ok) == b.(index := X.Remove(b.index, ids.pageSession))
    ensures Region(b, ids, owner, pair, 18, ok) == b.(index := X.Remove(b.index, ids.tabSession))
    ensures Region(b, ids, owner, pair, 19, ok) == DropPair(b, ids, pair)
  {
    NoTableRegion(b.tables, ids, 14);
    NoTableRegion(b.tables, ids, 15);
    NoTableRegion(b.tables, ids, 16);
    NoTableRegion(b.tables, ids, 17);
    NoTableRegion(b.tables, ids, 18);
    NoTableRegion(b.tables, ids, 19);
    assert b.notices + [] == b.notices;
    hide TableRegion, X.Remove, Without, Del;
  }

  /** The regions, one after the other, are the body after the Page.close call. */
  lemma RegionsMakeTheBody<Pair>(b: State<Pair>, ids: P.Ids, owner: Option<Conn>, pair: Option<Pair>, ok: bool)
    ensures Regions(b, ids, owner, pair, ok, LAST) == Erased(b, owner, ids, pair, false, ok)
  {
    TablesAreCleared(b, ids, owner, pair, ok);
    MessagesThenIndex(b, ids, owner, pair, ok);
    NextRegion(b, ids, owner, pair, ok, 18);
    NextRegion(b, ids, owner, pair, ok, 19);
    LateRegions(Regions(b, ids, owner, pair, ok, 18), ids, owner, pair, ok);
    LateRegions(Regions(b, ids, owner, pair, ok, 19), ids, owner, pair, ok);
    hide Region, Regions, Cleared, Del, X.Remove, Without, Farewell;
    assert b.pageCloses + [] == b.pageCloses;
  }

  lemma MessagesThenIndex<Pair>(b: State<Pair>, ids: P.Ids, owner: Option<Conn>, pair: Option<Pair>, ok: bool)
    ensures var b14 := Regions(b, ids, owner, pair, ok, 14);
      Regions(b, ids, owner, pair, ok, 18) ==
        DisableFetchIfUnused(b14, ok).(notices := b14.notices
            + Farewell(owner, ids), index := X.Remove(b14.index, ids.pageSession))
  {
    NextRegion(b, ids, owner, pair, ok, 14);
    NextRegion(b, ids, owner, pair, ok, 15);
    NextRegion(b, ids, owner, pair, ok, 16);
    NextRegion(b, ids, owner, pair, ok, 17);
    LateRegions(Regions(b, ids, owner, pair, ok, 14), ids, owner, pair, ok);
    LateRegions(Regions(b, ids, owner, pair, ok, 15), ids, owner, pair, ok);
    LateRegions(Regions(b, ids, owner, pair, ok, 16), ids, owner, pair, ok);
    LateRegions(Regions(b, ids, owner, pair, ok, 17), ids, owner, pair, ok);
    var b14 := Regions(b, ids, owner, pair, ok, 14);
    hide Region, Regions, X.Remove, DisableFetchIfUnused, PartingAt, Farewell;
    FarewellInParts(owner, ids, b14.notices);
    DisableSaysNothing(b14, ok);
  }

  lemma FarewellInParts(owner: Option<Conn>, ids: P.Ids, said: seq<Notice>)
    ensures (said + PartingAt(15, owner, ids)) + PartingAt(16, owner, ids) == said + Farewell(owner, ids)
  {}

  lemma DisableSaysNothing<Pair>(b: State<Pair>, ok: bool)
    ensures DisableFetchIfUnused(b, ok).notices == b.notices && DisableFetchIfUnused(b, ok).index == b.index
  {}

  lemma TablesAreCleared<Pair>(b: State<Pair>, ids: P.Ids, owner: Option<Conn>, pair: Option<Pair>, ok: bool)
    ensures Regions(b, ids, owner, pair, ok, 14) == ClearTables(b, ids)
  {
    RegionsOfTables(b, ids, owner, pair, ok, 13);
    AllRegions(b.tables, ids);
    OneMoreRegion(b.tables, ids, 13);
    NextRegion(b, ids, owner, pair, ok, 13);
    assert b.notices + [] == b.notices;
    hide TableRegion, TableRegions, Cleared, Del, Regions;
  }

  lemma NextRegion<Pair>(b: State<Pair>, ids: P.Ids, owner: Option<Conn>, pair: Option<Pair>, ok: bool, n: nat)
    ensures Regions(b, ids, owner, pair, ok, n + 1)
        == Region(Regions(b, ids, owner, pair, ok, n), ids, owner, pair, n, ok)
  {
    hide Region;
  }

  // ---------------------------------------------------------------- what can mention a target

  /** The places that can hold something of a target; numbers and IDs are keys of entries its page session owns. */
  datatype Slot =
    | Loader | Worlds | Query | QueryAll | Skips | Dialog | Patterns | ContextClear | Applied
    | Latest | SubFrames | PendingFrame
    | Context(n: int) | Unique(u: string) | Node(n: int) | ObjectHandle(o: string) | Pdf(h: string) | Request(r: string)
    | PageSession | PageTarget | PageJuggler | TabSession | TabTarget | TabJuggler
    | InPairs | InQueue | InRegistry
  {
    /** The last region that clears the slot. */
    function ClearedBy(ids: P.Ids): (n: nat)
      ensures n <= LAST
    {
      match this
      case Loader => 0
      case Worlds => 1
      case Query | QueryAll | Skips => 2
      case Dialog => 3
      case Patterns => 4
      case ContextClear => 5
      case Applied => 6
      case Latest => 7
      case SubFrames => 8
      case Context(_) => 9
      case Unique(_) => 9
      case Node(_) => 10
      case ObjectHandle(_) => 10
      case Pdf(_) => 11
      case Request(_) => 12
      case PendingFrame => 13
      case PageSession | PageTarget | PageJuggler => 17
      case TabSession | TabTarget | TabJuggler => 18
      case InPairs => if ids.juggler != "" then 19 else 13
      case InQueue => 19
      case InRegistry => 20
    }
  }

  predicate Owns<K>(owners: map<K, string>, k: K, sid: string) { k in owners && owners[k] == sid }

  predicate InTables(t: Tables, ids: P.Ids, e: Slot) {
    match e
    case Loader => ids.pageSession in t.loaders
    case Worlds => ids.pageSession in t.isolatedWorlds
    case Query => ids.pageSession in t.lastQuery
    case QueryAll => ids.pageSession in t.lastQueryAll
    case Skips => ids.pageSession in t.lastQuerySkips
    case Dialog => ids.pageSession in t.lastDialog
    case Patterns => ids.pageSession in t.fetchPatterns
    case ContextClear => ids.pageSession in t.pendingContextClear
    case Applied => ids.pageSession in t.deterministicApplied
    case Latest => ids.juggler in t.latestCtx
    case SubFrames => ids.juggler in t.subFrames
    case PendingFrame => ids.juggler in t.pendingFrameIDs
    case Context(n) => Owns(t.ctxOwners, n, ids.pageSession)
    case Unique(u) => Owns(t.ctxUniqueOwners, u, ids.pageSession)
    case Node(n) => Owns(t.nodeOwners, n, ids.pageSession)
    case ObjectHandle(o) => Owns(t.objectOwners, o, ids.pageSession)
    case Pdf(h) => Owns(t.pdfOwners, h, ids.pageSession)
    case Request(r) => Owns(t.requestOwners, r, ids.pageSession)
    case _ => false
  }

  predicate InIndex(x: X.Index, ids: P.Ids, e: Slot) {
    match e
    case PageSession => ids.pageSession in x.sessions
    case PageTarget => ids.pageTarget in x.targets
    case PageJuggler => ids.juggler in x.jugglers
    case TabSession => ids.tabSession != "" && ids.tabSession in x.sessions
    case TabTarget => ids.tabSession != "" && ids.tabTarget in x.targets
    case TabJuggler => ids.tabSession != "" && "tab:" + ids.juggler in x.jugglers
    case _ => false
  }

  ghost predicate Holds<Pair>(b: State<Pair>, id: nat, ids: P.Ids, pair: Option<Pair>, e: Slot) {
    match e
    case InPairs => ids.juggler in b.pairs
    case InQueue => pair.Some? && pair.value in b.queue
    case InRegistry => !R.Forgotten(b.reg, id)
    case _ => InTables(b.tables, ids, e) || InIndex(b.index, ids, e)
  }

  lemma TablesForgetIff(t: Tables, ids: P.Ids)
    ensures SliceOf(t, ids.pageSession, ids.juggler) == NOTHING <==> forall e :: !InTables(t, ids, e)
  {
    var s := SliceOf(t, ids.pageSession, ids.juggler);
    if forall e :: !InTables(t, ids, e) {
      forall e ensures !InTables(t, ids, e) {}
      KeyedAbsent(t, ids);
      OwnedAbsent(t, ids);
    } else {
      var e :| InTables(t, ids, e);
      SliceHolds(t, ids, e);
    }
  }

  lemma KeyedAbsent(t: Tables, ids: P.Ids)
    requires forall e :: !InTables(t, ids, e)
    ensures var s := SliceOf(t, ids.pageSession, ids.juggler);
      && s.loader == None && s.worlds == None && s.query == None && s.all == None && s.skips == None && s.dialog == None
      && s.patterns == None && s.contextClear == None && s.applied == None
      && s.latest == None && s.frames == None && s.pendingFrame == None
  {
    assert !InTables(t, ids, Loader) && !InTables(t, ids, Worlds) && !InTables(t, ids, Query)
        && !InTables(t, ids, QueryAll);
    assert !InTables(t, ids, Skips) && !InTables(t, ids, Dialog) && !InTables(t, ids, Patterns);
    assert !InTables(t, ids, ContextClear) && !InTables(t, ids, Applied);
    assert !InTables(t, ids, Latest) && !InTables(t, ids, SubFrames) && !InTables(t, ids, PendingFrame);
  }

  lemma OwnedAbsent(t: Tables, ids: P.Ids)
    requires forall e :: !InTables(t, ids, e)
    ensures var s := SliceOf(t, ids.pageSession, ids.juggler);
      && s.contextIDs == {} && s.contexts == map[] && s.unique == {} && s.nodeIDs == {} && s.nodes == map[]
      && s.objects == {} && s.handles == {} && s.pdfs == map[] && s.requests == {}
  {
    var page := ids.pageSession;
    NothingOwned(t, ids);
    NoValues(t.ctxOwners, t.ctxMap, page);
    NoValues(t.nodeOwners, t.nodeObjects, page);
    NoValues(t.pdfOwners, t.pdfStreams, page);
    hide InTables, KeysOf, Owned, At;
  }

  lemma NothingOwned(t: Tables, ids: P.Ids)
    requires forall e :: !InTables(t, ids, e)
    ensures var page := ids.pageSession;
      && KeysOf(t.ctxOwners, page) == {} && KeysOf(t.ctxUniqueOwners, page) == {} && KeysOf(t.nodeOwners, page) == {}
      && KeysOf(t.objectOwners, page) == {} && KeysOf(t.pdfOwners, page) == {} && KeysOf(t.requestOwners, page) == {}
  {
    forall n | n in KeysOf(t.ctxOwners, ids.pageSession) ensures false { assert InTables(t, ids, Context(n)); }
    forall n | n in KeysOf(t.nodeOwners, ids.pageSession) ensures false { assert InTables(t, ids, Node(n)); }
    forall k | k in KeysOf(t.ctxUniqueOwners, ids.pageSession) ensures false { assert InTables(t, ids, Unique(k)); }
    forall k | k in KeysOf(t.objectOwners, ids.pageSession) ensures false { assert InTables(t, ids, ObjectHandle(k)); }
    forall k | k in KeysOf(t.pdfOwners, ids.pageSession) ensures false { assert InTables(t, ids, Pdf(k)); }
    forall k | k in KeysOf(t.requestOwners, ids.pageSession) ensures false { assert InTables(t, ids, Request(k)); }
  }

  lemma NoValues<K, V>(owners: map<K, string>, values: map<K, V>, sid: string)
    requires KeysOf(owners, sid) == {}
    ensures Owned(owners, values, sid) == map[]
  {
    forall k | k in owners ensures owners[k] != sid { assert k !in KeysOf(owners, sid); }
  }

  lemma SliceHolds(t: Tables, ids: P.Ids, e: Slot)
    requires InTables(t, ids, e)
    ensures SliceOf(t, ids.pageSession, ids.juggler) != NOTHING
  {
    if e.ClearedBy(ids) <= 8 || e.PendingFrame? { KeyedHolds(t, ids, e); } else { OwnedHolds(t, ids, e); }
  }

  lemma KeyedHolds(t: Tables, ids: P.Ids, e: Slot)
    requires InTables(t, ids, e) && (e.ClearedBy(ids) <= 8 || e.PendingFrame?)
    ensures SliceOf(t, ids.pageSession, ids.juggler) != NOTHING
  {
    hide KeysOf, Owned, Owns;
  }

  lemma OwnedHolds(t: Tables, ids: P.Ids, e: Slot)
    requires InTables(t, ids, e) && e.ClearedBy(ids) > 8 && !e.PendingFrame?
    ensures SliceOf(t, ids.pageSession, ids.juggler) != NOTHING
  {
    hide KeysOf, Owned, At;
    match e
    case Context(n) => KeyOwned(t.ctxOwners, n, ids.pageSession);
    case Unique(u) => KeyOwned(t.ctxUniqueOwners, u, ids.pageSession);
    case Node(n) => KeyOwned(t.nodeOwners, n, ids.pageSession);
    case ObjectHandle(o) => KeyOwned(t.objectOwners, o, ids.pageSession);
    case Pdf(h) => KeyOwned(t.pdfOwners, h, ids.pageSession);
    case Request(r) => KeyOwned(t.requestOwners, r, ids.pageSession);
    case _ =>
  }

  lemma KeyOwned<K>(owners: map<K, string>, k: K, sid: string)
    requires Owns(owners, k, sid)
    ensures KeysOf(owners, sid) != {}
  {
    assert k in KeysOf(owners, sid);
  }

  lemma IndexForgetsIffNothing(x: X.Index, ids: P.Ids)
    ensures IndexForgets(x, ids) <==> forall e :: !InIndex(x, ids, e)
  {
    if forall e :: !InIndex(x, ids, e) {
      assert !InIndex(x, ids, PageSession) && !InIndex(x, ids, PageTarget) && !InIndex(x, ids, PageJuggler);
      assert !InIndex(x, ids, TabSession) && !InIndex(x, ids, TabTarget) && !InIndex(x, ids, TabJuggler);
    }
  }

  lemma HeldSomewhere<Pair>(b: State<Pair>, id: nat, ids: P.Ids, pair: Option<Pair>, e: Slot)
    ensures InTables(b.tables, ids, e) || InIndex(b.index, ids, e) ==> Holds(b, id, ids, pair, e)
    ensures Holds(b, id, ids, pair, e)
        ==> InTables(b.tables, ids, e) || InIndex(b.index, ids, e) || e.InPairs? || e.InQueue? || e.InRegistry?
  {
    hide R.Forgotten;
  }

  /** A target is gone exactly when no slot holds anything of it. */
  lemma GoneIffNothingHeld<Pair>(b: State<Pair>, id: nat, ids: P.Ids, pair: Option<Pair>)
    ensures Gone(b, id, ids, pair) <==> forall e :: !Holds(b, id, ids, pair, e)
  {
    TablesForgetIff(b.tables, ids);
    IndexForgetsIffNothing(b.index, ids);
    hide SliceOf, R.Forgotten, InTables, InIndex, IndexForgets;
    if Gone(b, id, ids, pair) {
      forall e ensures !Holds(b, id, ids, pair, e) {
        assert !InTables(b.tables, ids, e) && !InIndex(b.index, ids, e);
        HeldSomewhere(b, id, ids, pair, e);
      }
    }
    if forall e :: !Holds(b, id, ids, pair, e) {
      assert !Holds(b, id, ids, pair, InPairs) && !Holds(b, id, ids, pair, InQueue)
          && !Holds(b, id, ids, pair, InRegistry);
      hide Holds;
      forall e ensures !InTables(b.tables, ids, e) && !InIndex(b.index, ids, e) {
        assert !Holds(b, id, ids, pair, e);
        HeldSomewhere(b, id, ids, pair, e);
      }
    }
  }

  // ---------------------------------------------------------------- the system

  /**
   `looks` holds what closers have read of the owners of records, `stages` how far the cleanups have
   got, and `owners` the owner that the closer told to go ahead had read before.
   */
  datatype System<Pair> = System(w: P.World, b: State<Pair>, pairOf: map<nat, Pair>, stages: map<nat, nat>,
    looks: set<(nat, Option<Conn>)>, owners: map<nat, Option<Conn>>)

  datatype Step<Pair> =
    // some closer reads the owner of a record
    | Look(id: nat)
    // the same closer calls BeginCleanup and, told to go ahead, asks the backend to close the page if it is to
    | Attempt(id: nat, owner: Option<Conn>, closeBackend: bool)
    // the one that was told to go ahead enters its next region
    | Proceed(id: nat, ok: bool)
    // a region of the registry that is not part of a cleanup
    | Registry(e: P.Event)
    // any handler, any goroutine; what it tells clients comes last
    | Handle(tables: Tables, pairs: map<string, Pair>, queue: seq<Pair>, intercepting: bool, told: seq<Notice>)
    // a call of the session manager that is not part of a cleanup
    | Reindex(op: X.Op)

  function StageOf<Pair>(y: System<Pair>, id: nat): nat { if id in y.stages then y.stages[id] else 0 }

  /** The whole body, with the registry's Remove. */
  const FINISHED: nat := LAST + 1

  function PairFor<Pair>(y: System<Pair>, id: nat): Option<Pair> { At(y.pairOf, id) }

  /** Something of record `id` is in the slot. */
  ghost predicate Has<Pair>(y: System<Pair>, id: nat, e: Slot) {
    id < |y.w.reg.records| && Holds(y.b, id, y.w.reg.records[id].ids, PairFor(y, id), e)
  }

  /** The cleanup of record `id` has been through the last region that clears the slot. */
  predicate Passed<Pair>(y: System<Pair>, id: nat, e: Slot) {
    id < |y.w.reg.records| && e.ClearedBy(y.w.reg.records[id].ids) < StageOf(y, id)
  }

  /**
   Adding an entry takes a key of a registered page or tab only for that page or tab itself, until
   the cleanup has taken it out of the index: session IDs and tab targets are minted, the backend's
   session IDs name one live session, and a client's attach adds only for targets the index lacks.
   */
  ghost predicate OwnKeys<Pair>(y: System<Pair>, info: X.Info) {
    forall i | 0 <= i < |y.w.reg.records| ::
      var ids := y.w.reg.records[i].ids;
      && (StageOf(y, i) <= 17
          && (info.target == ids.pageTarget || (info.juggler != "" && info.juggler == ids.juggler)) ==>
            info.sessionID == ids.pageSession)
      && (StageOf(y, i) <= 18 && ids.tabSession != ""
          && (info.target == ids.tabTarget || info.juggler == "tab:" + ids.juggler) ==>
            info.sessionID == ids.tabSession)
  }

  /** The two messages that only a cleanup sends. */
  predicate Parting(n: Notice) { n.Detached? || n.Destroyed? }

  ghost predicate Enabled<Pair>(y: System<Pair>, s: Step<Pair>) {
    match s
    case Look(id) => id < |y.w.reg.records|
    case Attempt(id, owner, _) => id < |y.w.reg.records| && (id, owner) in y.looks
    case Proceed(id, ok) => id in y.stages && id in y.owners && id < |y.w.reg.records| && y.stages[id] < FINISHED
    case Registry(e) =>
      && P.TargetsInRange(y.w.reg) && P.Enabled(y.w, e) && !e.DidBeginCleanup? && !e.DidRemove?
      && (e.DidRegister? ==> Tied(y.b.index, e.ids))
    case Handle(tables, _, _, _, told) => Paired(tables) && forall n | n in told :: !Parting(n)
    case Reindex(op) =>
      if op.DidAdd? then X.KeysFree(y.b.index, op.info) && OwnKeys(y, op.info) else X.SessionEntryOk(y.b.index, op.sid)
  }

  function Proceeded<Pair(==)>(y: System<Pair>, id: nat, ok: bool): System<Pair>
    requires id in y.stages && id in y.owners && id < |y.w.reg.records|
  {
    var n := y.stages[id];
    if n < LAST then
      y.(b := Region(y.b, y.w.reg.records[id].ids, y.owners[id], PairFor(y, id), n, ok),
          stages := y.stages[id := n + 1])
    else
      var s := P.Remove(y.w.reg, id);
      y.(w := y.w.(reg := s), b := y.b.(reg := s), stages := y.stages[id := n + 1])
  }

  /** The Page.close call. */
  function Asked<Pair>(b: State<Pair>, ids: P.Ids, closeBackend: bool): State<Pair> {
    if closeBackend && ids.pageSession != "" then b.(pageCloses := b.pageCloses + [ids.pageSession]) else b
  }

  ghost function Next<Pair>(y: System<Pair>, s: Step<Pair>): System<Pair>
    requires Enabled(y, s)
  {
    match s
    case Look(id) => y.(looks := y.looks + {(id, y.w.reg.records[id].owner)})
    case Attempt(id, owner, closeBackend) =>
      var (reg, won) := P.BeginCleanup(y.w.reg, id);
      if won then
        y.(w := y.w.(reg := reg), b := Asked(y.b.(reg := reg), y.w.reg.records[id].ids, closeBackend),
           stages := y.stages[id := 0], owners := y.owners[id := owner])
      else y
    case Proceed(id, ok) => Proceeded(y, id, ok)
    case Registry(e) =>
      var w := P.Next(y.w, e);
      y.(w := w, b := y.b.(reg := w.reg))
    case Handle(tables, pairs, queue, intercepting, told) =>
      y.(b := y.b.(tables := tables, pairs := pairs, queue := queue, intercepting := intercepting,
                   notices := y.b.notices + told))
    case Reindex(op) => y.(b := y.b.(index := X.Do(y.b.index, op)))
  }

  lemma ProceedParts<Pair>(y: System<Pair>, id: nat, ok: bool)
    requires Enabled(y, Proceed(id, ok))
    ensures var y' := Next(y, Proceed(id, ok)); var n := y.stages[id];
      && y'.pairOf == y.pairOf && y'.looks == y.looks && y'.owners == y.owners && y'.stages == y.stages[id := n + 1]
      && (n < LAST ==> y'.w == y.w && y'.b == Region(y.b, y.w.reg.records[id].ids, y.owners[id], PairFor(y, id), n, ok))
      && (n >= LAST ==>
            y'.w == y.w.(reg := P.Remove(y.w.reg, id)) && y'.b == y.b.(reg := P.Remove(y.w.reg, id)))
  {
    hide Region, P.Remove;
  }

  lemma AttemptParts<Pair>(y: System<Pair>, id: nat, owner: Option<Conn>, closeBackend: bool)
    requires Enabled(y, Attempt(id, owner, closeBackend))
    ensures var y' := Next(y, Attempt(id, owner, closeBackend)); var (reg, won) := P.BeginCleanup(y.w.reg, id);
      if won then
        && y'.w == y.w.(reg := reg) && y'.stages == y.stages[id := 0] && y'.owners == y.owners[id := owner]
        && y'.b == Asked(y.b.(reg := reg), y.w.reg.records[id].ids, closeBackend)
        && y'.pairOf == y.pairOf && y'.looks == y.looks
      else y' == y && reg == y.w.reg
  {
    hide Asked;
  }

  // ---------------------------------------------------------------- the invariant

  /** A cleanup that has begun is the only one of its record, and a record is closed exactly when it has finished. */
  predicate StageOk<Pair>(y: System<Pair>, id: nat) {
    && (id in y.stages ==> id < |y.w.reg.records| && y.w.reg.records[id].cleaned && y.stages[id] <= FINISHED)
    && (id in y.stages <==> id in y.owners)
    && (id < |y.w.reg.records| ==> (y.w.reg.records[id].state.Closed? <==> StageOf(y, id) == FINISHED))
  }

  /** Until the cleanup has taken them out of the index, a target's keys lead to its own entries. */
  predicate TieOk<Pair>(y: System<Pair>, i: nat) {
    i < |y.w.reg.records| ==>
      && (StageOf(y, i) <= 17 ==> PageTied(y.b.index, y.w.reg.records[i].ids))
      && (StageOf(y, i) <= 18 ==> TabTied(y.b.index, y.w.reg.records[i].ids))
  }

  ghost predicate SysInv<Pair>(y: System<Pair>) {
    && P.Inv(y.w) && y.b.reg == y.w.reg && Paired(y.b.tables) && X.Coherent(y.b.index)
    && (forall id: nat {:trigger StageOk(y, id)} :: StageOk(y, id))
    && (forall i: nat {:trigger TieOk(y, i)} :: TieOk(y, i))
  }

  /** A step of the system leaves the records there are where they are, with their IDs. */
  lemma RecordsStay<Pair>(y: System<Pair>, s: Step<Pair>, i: nat)
    requires P.Inv(y.w) && Enabled(y, s) && i < |y.w.reg.records|
    ensures var w := Next(y, s).w;
      && i < |w.reg.records| && w.reg.records[i].ids == y.w.reg.records[i].ids
      && (y.w.reg.records[i].cleaned ==> w.reg.records[i].cleaned)
  {
    hide P.Inv, OwnKeys, Region, X.Do;
    match s
    case Attempt(id, owner, closeBackend) => AttemptParts(y, id, owner, closeBackend); R.LaterCleanup(y.w.reg, id, i);
    case Proceed(id, ok) => R.LaterRemove(y.w.reg, id, i);
    case Registry(e) => R.LaterNext(y.w, e, i);
    case _ =>
  }

  /** No region but Remove closes a record, and none adds a closed one. */
  lemma ClosedNext(w: P.World, e: P.Event, i: nat)
    requires P.Inv(w) && P.Enabled(w, e) && !e.DidRemove? && i < |P.Next(w, e).reg.records|
    ensures P.Next(w, e).reg.records[i].state.Closed? <==> i < |w.reg.records| && w.reg.records[i].state.Closed?
  {
    hide P.Inv, P.Next;
    RecordsGrow(w, e);
    if i < |w.reg.records| { OldStaysOpen(w, e, i); }
    else { NewIsOpen(w, e, i); }
  }

  lemma RecordsGrow(w: P.World, e: P.Event)
    requires P.Inv(w) && P.Enabled(w, e)
    ensures |w.reg.records| <= |P.Next(w, e).reg.records|
  {
    hide P.Inv;
  }

  lemma NewIsOpen(w: P.World, e: P.Event, i: nat)
    requires P.Inv(w) && P.Enabled(w, e) && |w.reg.records| <= i < |P.Next(w, e).reg.records|
    ensures !P.Next(w, e).reg.records[i].state.Closed?
  {
    hide P.Inv;
  }

  lemma OldStaysOpen(w: P.World, e: P.Event, i: nat)
    requires P.Inv(w) && P.Enabled(w, e) && !e.DidRemove? && i < |w.reg.records| <= |P.Next(w, e).reg.records|
    ensures P.Next(w, e).reg.records[i].state.Closed? <==> w.reg.records[i].state.Closed?
  {
    match e
    case DidClaim(c, t, g) => assert P.TargetKeyOk(w.reg, t); P.ClaimEffect(w.reg, c, t, g, i);
    case DidCancel(t) => assert P.TargetKeyOk(w.reg, t);
    case DidClose(c) => P.RecordsClose(w, c, i);
    case DidRegister(owner, ids, paired) => assert P.Next(w, e).reg.records[i] == w.reg.records[i];
    case DidBeginCleanup(id) =>
    case DidRemove(id) =>
    case _ => assert P.Next(w, e).reg.records == w.reg.records;
  }

  lemma StagesRegistry<Pair>(y: System<Pair>, e: P.Event, i: nat)
    requires SysInv(y) && Enabled(y, Registry(e))
    ensures StageOk(Next(y, Registry(e)), i)
  {
    assert StageOk(y, i);
    if i < |y.w.reg.records| { RecordsStay(y, Registry(e), i); }
    if i < |P.Next(y.w, e).reg.records| { ClosedNext(y.w, e, i); }
    hide P.Inv, P.Next, P.Enabled, TieOk, X.Coherent, Tied;
  }

  lemma StagesProceed<Pair>(y: System<Pair>, id: nat, ok: bool, i: nat)
    requires SysInv(y) && Enabled(y, Proceed(id, ok))
    ensures StageOk(Next(y, Proceed(id, ok)), i)
  {
    assert StageOk(y, i) && StageOk(y, id);
    ProceedParts(y, id, ok);
    if i < |y.w.reg.records| { R.LaterRemove(y.w.reg, id, i); RemoveCloses(y.w.reg, id, i); }
    hide SysInv, Next, P.Remove, Region;
  }

  lemma RemoveCloses(s: P.Registry, id: nat, i: nat)
    requires id < |s.records| && i < |s.records|
    ensures |P.Remove(s, id).records| == |s.records|
    ensures P.Remove(s, id).records[i].state.Closed? <==> i == id || s.records[i].state.Closed?
  {
    hide P.Leave;
  }

  lemma StagesAttempt<Pair>(y: System<Pair>, id: nat, owner: Option<Conn>, closeBackend: bool, i: nat)
    requires SysInv(y) && Enabled(y, Attempt(id, owner, closeBackend))
    ensures StageOk(Next(y, Attempt(id, owner, closeBackend)), i)
  {
    assert StageOk(y, i) && StageOk(y, id);
    AttemptParts(y, id, owner, closeBackend);
    hide SysInv, Next, Asked;
  }

  lemma StagesNext<Pair>(y: System<Pair>, s: Step<Pair>, i: nat)
    requires SysInv(y) && Enabled(y, s)
    ensures StageOk(Next(y, s), i)
  {
    assert StageOk(y, i);
    match s
    case Registry(e) => StagesRegistry(y, e, i);
    case Proceed(id, ok) => StagesProceed(y, id, ok, i);
    case Attempt(id, owner, closeBackend) => StagesAttempt(y, id, owner, closeBackend, i);
    case _ => hide P.Inv, TieOk, X.Coherent, OwnKeys, X.KeysFree, X.Do, Paired;
  }

  lemma TiesRemove(x: X.Index, sid: string, ids: P.Ids)
    requires X.Coherent(x)
    ensures PageTied(x, ids) ==> PageTied(X.Remove(x, sid), ids)
    ensures TabTied(x, ids) ==> TabTied(X.Remove(x, sid), ids)
  {
    RemovedKeys(x, sid, ids.pageTarget);
    RemovedKeys(x, sid, ids.tabTarget);
    RemovedKeys(x, sid, ids.juggler);
    RemovedKeys(x, sid, "tab:" + ids.juggler);
    hide X.Coherent, X.Remove;
  }

  lemma TiesUpdate(x: X.Index, op: X.Op, ids: P.Ids)
    requires !op.DidAdd? && !op.DidRemove? && X.SessionEntryOk(x, op.sid)
    ensures PageTied(x, ids) ==> PageTied(X.Do(x, op), ids)
    ensures TabTied(x, ids) ==> TabTied(X.Do(x, op), ids)
  {}

  lemma TiesAdd(x: X.Index, info: X.Info, ids: P.Ids)
    requires X.Coherent(x)
    ensures PageTied(x, ids)
        && (info.target == ids.pageTarget || (info.juggler != "" && info.juggler == ids.juggler) ==>
              info.sessionID == ids.pageSession)
      ==> PageTied(X.Add(x, info), ids)
    ensures TabTied(x, ids)
            && (ids.tabSession != "" && (info.target == ids.tabTarget || info.juggler == "tab:" + ids.juggler) ==>
                  info.sessionID == ids.tabSession)
      ==> TabTied(X.Add(x, info), ids)
  {
    assert X.TargetEntryOk(x, ids.pageTarget) && X.TargetEntryOk(x, ids.tabTarget);
    assert X.JugglerEntryOk(x, ids.juggler) && X.JugglerEntryOk(x, "tab:" + ids.juggler);
    hide X.Coherent;
  }

  lemma TiesReindex<Pair>(y: System<Pair>, op: X.Op, i: nat)
    requires SysInv(y) && Enabled(y, Reindex(op))
    ensures TieOk(Next(y, Reindex(op)), i)
  {
    assert TieOk(y, i);
    hide P.Inv, PageTied, TabTied, X.Coherent, Paired, X.KeysFree;
    if i < |y.w.reg.records| {
      var ids := y.w.reg.records[i].ids;
      match op
      case DidAdd(info) => TiesAdd(y.b.index, info, ids);
      case DidRemove(sid) => TiesRemove(y.b.index, sid, ids);
      case _ => TiesUpdate(y.b.index, op, ids);
    }
  }

  lemma TiesRegion(x: X.Index, gone: P.Ids, n: nat, ids: P.Ids)
    requires X.Coherent(x)
    ensures PageTied(x, ids) ==> PageTied(IndexRegion(x, gone, n), ids)
    ensures TabTied(x, ids) ==> TabTied(IndexRegion(x, gone, n), ids)
  {
    TiesRemove(x, gone.pageSession, ids);
    TiesRemove(x, gone.tabSession, ids);
    hide X.Coherent, X.Remove, PageTied, TabTied;
  }

  lemma TiesProceed<Pair>(y: System<Pair>, id: nat, ok: bool, i: nat)
    requires SysInv(y) && Enabled(y, Proceed(id, ok))
    ensures TieOk(Next(y, Proceed(id, ok)), i)
  {
    assert TieOk(y, i);
    ProceedParts(y, id, ok);
    if i < |y.w.reg.records| {
      TiesRegion(y.b.index, y.w.reg.records[id].ids, y.stages[id], y.w.reg.records[i].ids);
      R.LaterRemove(y.w.reg, id, i);
    }
    hide SysInv, Next, Enabled, PageTied, TabTied, IndexRegion, TableRegion, PairsRegion, P.Remove, Without;
  }

  lemma TiesNext<Pair>(y: System<Pair>, s: Step<Pair>, i: nat)
    requires SysInv(y) && Enabled(y, s)
    ensures TieOk(Next(y, s), i)
  {
    assert TieOk(y, i) && StageOk(y, i);
    match s
    case Reindex(op) => TiesReindex(y, op, i);
    case Proceed(id, ok) => TiesProceed(y, id, ok, i);
    case Handle(_, _, _, _, _) =>
    case Look(id) =>
    case Attempt(id, owner, closeBackend) =>
      AttemptParts(y, id, owner, closeBackend);
      hide Next, PageTied, TabTied, X.Coherent, Paired;
      if i < |y.w.reg.records| { RecordsStay(y, s, i); }
    case Registry(e) =>
      TiesRegistry(y, e, i);
  }

  lemma TiesRegistry<Pair>(y: System<Pair>, e: P.Event, i: nat)
    requires SysInv(y) && Enabled(y, Registry(e))
    ensures TieOk(Next(y, Registry(e)), i)
  {
    assert TieOk(y, i) && StageOk(y, i);
    if i < |y.w.reg.records| { RecordsStay(y, Registry(e), i); }
    else if i < |P.Next(y.w, e).reg.records| { NewRecord(y.w, e, i); }
    hide SysInv, PageTied, TabTied, P.Next, P.Enabled;
  }

  /** Only a registration adds a record, and it has the IDs registered. */
  lemma NewRecord(w: P.World, e: P.Event, i: nat)
    requires P.Inv(w) && P.Enabled(w, e) && |w.reg.records| <= i < |P.Next(w, e).reg.records|
    ensures e.DidRegister? && P.Next(w, e).reg.records[i].ids == e.ids
  {
    hide P.Inv;
  }

  lemma CutPaired<V, W>(m: map<int, V>, q: map<int, W>, ks: set<int>)
    requires m.Keys == q.Keys
    ensures Cut(m, ks).Keys == Cut(q, ks).Keys
  {
    assert Cut(m, ks).Keys == m.Keys - ks == Cut(q, ks).Keys;
  }

  lemma RegionPaired(t: Tables, ids: P.Ids, n: nat)
    requires Paired(t)
    ensures Paired(TableRegion(t, ids, n))
  {
    hide Cut, Del, KeysOf, ContextsOf;
    CutPaired(t.ctxMap, t.ctxOwners, ContextsOf(t.ctxMap, t.ctxOwners, ids.pageSession, ids.juggler));
    CutPaired(t.nodeObjects, t.nodeOwners, KeysOf(t.nodeOwners, ids.pageSession));
    PdfsPaired(t.pdfStreams, t.pdfOwners, KeysOf(t.pdfOwners, ids.pageSession));
  }

  lemma PdfsPaired(m: map<string, string>, q: map<string, string>, ks: set<string>)
    requires m.Keys == q.Keys
    ensures Cut(m, ks).Keys == Cut(q, ks).Keys
  {
    assert Cut(m, ks).Keys == m.Keys - ks == Cut(q, ks).Keys;
  }

  lemma RestProceed<Pair>(y: System<Pair>, id: nat, ok: bool)
    requires SysInv(y) && Enabled(y, Proceed(id, ok))
    ensures var y' := Next(y, Proceed(id, ok));
      P.Inv(y'.w) && y'.b.reg == y'.w.reg && Paired(y'.b.tables) && X.Coherent(y'.b.index)
  {
    assert StageOk(y, id);
    var ids := y.w.reg.records[id].ids;
    ProceedParts(y, id, ok);
    RegionPaired(y.b.tables, ids, y.stages[id]);
    X.RemoveCoherent(y.b.index, ids.pageSession);
    X.RemoveCoherent(y.b.index, ids.tabSession);
    P.InvRemove(y.w, id);
    hide Next, Enabled, P.Inv, X.Coherent, X.Remove, P.Remove, TableRegion, PairsRegion, Paired, Without, StageOk,
        TieOk;
  }

  lemma RestNext<Pair>(y: System<Pair>, s: Step<Pair>)
    requires SysInv(y) && Enabled(y, s)
    ensures var y' := Next(y, s);
      P.Inv(y'.w) && y'.b.reg == y'.w.reg && Paired(y'.b.tables) && X.Coherent(y'.b.index)
  {
    match s
    case Look(id) =>
    case Attempt(id, owner, closeBackend) =>
      P.InvCleanup(y.w, id);
      AttemptIsCleanup(y.w, id);
      AttemptParts(y, id, owner, closeBackend);
      hide Next, P.Inv, X.Coherent, Paired;
    case Proceed(id, ok) => RestProceed(y, id, ok);
    case Registry(e) => P.InvNext(y.w, e);
    case Handle(_, _, _, _, _) =>
    case Reindex(op) => ReindexCoherent(y.b.index, op);
  }

  lemma ReindexCoherent(x: X.Index, op: X.Op)
    requires X.Coherent(x) && if op.DidAdd? then X.KeysFree(x, op.info) else X.SessionEntryOk(x, op.sid)
    ensures X.Coherent(X.Do(x, op))
  {
    hide X.Coherent, X.KeysFree;
    match op
    case DidAdd(info) => X.AddCoherentIff(x, info);
    case DidRemove(sid) => X.RemoveCoherent(x, sid);
    case _ => X.UpdateCoherent(x, op.sid, X.UpdateOf(op));
  }

  lemma AttemptIsCleanup(w: P.World, id: nat)
    requires P.TargetsInRange(w.reg) && id < |w.reg.records|
    ensures P.Next(w, P.DidBeginCleanup(id)) == w.(reg := P.BeginCleanup(w.reg, id).0)
  {}

  /** Whatever step is taken, by whom and for which session, the invariant is kept. */
  lemma SysInvNext<Pair>(y: System<Pair>, s: Step<Pair>)
    requires SysInv(y) && Enabled(y, s)
    ensures SysInv(Next(y, s))
  {
    RestNext(y, s);
    forall i: nat ensures StageOk(Next(y, s), i) { StagesNext(y, s, i); }
    forall i: nat ensures TieOk(Next(y, s), i) { TiesNext(y, s, i); }
    hide StageOk, TieOk, P.Inv, Next, Enabled, Paired, X.Coherent;
  }

  // ---------------------------------------------------------------- what one region clears

  lemma ContextCleared(t: Tables, page: string, juggler: string, n: int)
    requires Paired(t)
    ensures !Owns(Cut(t.ctxOwners, ContextsOf(t.ctxMap, t.ctxOwners, page, juggler)), n, page)
  {
    assert n in t.ctxOwners.Keys <==> n in t.ctxMap.Keys;
  }

  lemma OwnedCleared<K>(owners: map<K, string>, k: K, sid: string)
    ensures !Owns(Cut(owners, KeysOf(owners, sid)), k, sid)
  {}

  lemma KeyedCleared(t: Tables, ids: P.Ids, e: Slot)
    requires e.ClearedBy(ids) <= 8 || e.PendingFrame?
    ensures !InTables(TableRegion(t, ids, e.ClearedBy(ids)), ids, e)
  {
    hide CutIf, Owns;
  }

  lemma TablesCleared(t: Tables, ids: P.Ids, e: Slot)
    requires Paired(t) && e.ClearedBy(ids) <= 13
    ensures !InTables(TableRegion(t, ids, e.ClearedBy(ids)), ids, e)
  {
    hide DelIf, Cut, KeysOf, ContextsOf, Owns, Paired;
    var page := ids.pageSession;
    match e
    case Context(n) => ContextCleared(t, page, ids.juggler, n);
    case Unique(u) => OwnedCleared(t.ctxUniqueOwners, u, page);
    case Node(n) => OwnedCleared(t.nodeOwners, n, page);
    case ObjectHandle(o) => OwnedCleared(t.objectOwners, o, page);
    case Pdf(h) => OwnedCleared(t.pdfOwners, h, page);
    case Request(r) => OwnedCleared(t.requestOwners, r, page);
    case InPairs =>
    case _ => KeyedCleared(t, ids, e);
  }

  lemma IndexCleared(x: X.Index, ids: P.Ids, e: Slot)
    requires X.Coherent(x)
    ensures e.ClearedBy(ids) == 17 && PageTied(x, ids) ==> !InIndex(X.Remove(x, ids.pageSession), ids, e)
    ensures e.ClearedBy(ids) == 18 && TabTied(x, ids) ==> !InIndex(X.Remove(x, ids.tabSession), ids, e)
  {
    RemovedKeys(x, ids.pageSession, ids.pageSession);
    RemovedKeys(x, ids.pageSession, ids.pageTarget);
    RemovedKeys(x, ids.pageSession, ids.juggler);
    RemovedKeys(x, ids.tabSession, ids.tabSession);
    RemovedKeys(x, ids.tabSession, ids.tabTarget);
    RemovedKeys(x, ids.tabSession, "tab:" + ids.juggler);
    hide X.Coherent, X.Remove, Under;
  }

  lemma RegistryCleared(w: P.World, id: nat)
    requires P.Inv(w) && id < |w.reg.records| && w.reg.records[id].cleaned
    ensures R.Forgotten(P.Remove(w.reg, id), id)
  {
    hide P.Inv, P.Remove, R.Forgotten;
    R.RemovedIsForgotten(w, id, []);
  }

  lemma RegionClears<Pair>(b: State<Pair>, id: nat, ids: P.Ids, owner: Option<Conn>, pair: Option<Pair>, n: nat,
      ok: bool, e: Slot)
    requires Paired(b.tables) && X.Coherent(b.index) && e.ClearedBy(ids) == n < LAST
    requires (n == 17 ==> PageTied(b.index, ids)) && (n == 18 ==> TabTied(b.index, ids))
    ensures !Holds(Region(b, ids, owner, pair, n, ok), id, ids, pair, e)
  {
    if n <= 13 { TablesCleared(b.tables, ids, e); }
    IndexCleared(b.index, ids, e);
    if pair.Some? { WithoutKeeps(b.queue, pair, pair.value); }
    hide R.Forgotten, X.Remove, PageTied, TabTied, TableRegion, X.Coherent, Without;
  }

  lemma EarlyRegionClears<Pair>(y: System<Pair>, id: nat, ok: bool, e: Slot)
    requires SysInv(y) && Enabled(y, Proceed(id, ok)) && e.ClearedBy(y.w.reg.records[id].ids) == y.stages[id] < LAST
    ensures !Has(Next(y, Proceed(id, ok)), id, e)
  {
    assert TieOk(y, id);
    ProceedParts(y, id, ok);
    RegionClears(y.b, id, y.w.reg.records[id].ids, y.owners[id], PairFor(y, id), y.stages[id], ok, e);
    hide SysInv, Next, Enabled, Region, Holds;
  }

  lemma LastRegionClears<Pair>(y: System<Pair>, id: nat, ok: bool)
    requires SysInv(y) && Enabled(y, Proceed(id, ok)) && y.stages[id] == LAST
    ensures !Has(Next(y, Proceed(id, ok)), id, InRegistry)
  {
    assert StageOk(y, id);
    ProceedParts(y, id, ok);
    RegistryCleared(y.w, id);
    R.LaterRemove(y.w.reg, id, id);
    hide SysInv, Next, Enabled, Region, P.Remove, R.Forgotten, StageOk;
  }

  lemma LastIsRegistry(ids: P.Ids, e: Slot)
    requires e.ClearedBy(ids) == LAST
    ensures e == InRegistry
  {}

  /** A region clears the slots it is the last to clear, of its own record. */
  lemma ProceedClears<Pair>(y: System<Pair>, id: nat, ok: bool, e: Slot)
    requires SysInv(y) && Enabled(y, Proceed(id, ok)) && e.ClearedBy(y.w.reg.records[id].ids) == y.stages[id]
    ensures !Has(Next(y, Proceed(id, ok)), id, e)
  {
    hide SysInv, Next, Has;
    if y.stages[id] < LAST {
      EarlyRegionClears(y, id, ok, e);
    } else {
      LastIsRegistry(y.w.reg.records[id].ids, e);
      LastRegionClears(y, id, ok);
    }
  }

  // ---------------------------------------------------------------- whole runs

  ghost predicate Possible<Pair>(y: System<Pair>, ss: seq<Step<Pair>>)
    decreases |ss|
  {
    ss == [] || (Enabled(y, ss[0]) && Possible(Next(y, ss[0]), ss[1..]))
  }

  ghost function End<Pair>(y: System<Pair>, ss: seq<Step<Pair>>): System<Pair>
    requires Possible(y, ss)
    decreases |ss|
  {
    if ss == [] then y else End(Next(y, ss[0]), ss[1..])
  }

  lemma {:induction false} SysInvRun<Pair>(y: System<Pair>, ss: seq<Step<Pair>>)
    requires SysInv(y) && Possible(y, ss)
    ensures SysInv(End(y, ss))
    decreases |ss|
  {
    hide SysInv, Enabled, Next;
    if ss != [] {
      SysInvNext(y, ss[0]);
      SysInvRun(Next(y, ss[0]), ss[1..]);
    }
  }

  /** Each region of a record's cleanup is entered at most once, in order, and only by the closer told to go ahead. */
  lemma StageAdvances<Pair>(y: System<Pair>, s: Step<Pair>, id: nat)
    requires SysInv(y) && Enabled(y, s) && id in y.stages
    ensures id in Next(y, s).stages
    ensures Next(y, s).stages[id] == y.stages[id] + if s.Proceed? && s.id == id then 1 else 0
  {
    assert StageOk(y, id);
    hide SysInv, OwnKeys, Region, X.Do, P.Next, P.Remove, Tied;
  }

  /** A step that takes the cleanup past a slot leaves the slot empty. */
  lemma PassingClears<Pair>(y: System<Pair>, s: Step<Pair>, id: nat, e: Slot)
    requires SysInv(y) && Enabled(y, s) && !Passed(y, id, e) && Passed(Next(y, s), id, e)
    ensures !Has(Next(y, s), id, e)
  {
    assert StageOk(y, id);
    if id in y.stages {
      StageAdvances(y, s, id);
      RecordsStay(y, s, id);
      hide SysInv, Enabled, Next, Has;
      assert s.Proceed? && s.id == id;
      ProceedClears(y, id, s.ok, e);
    } else {
      hide SysInv, OwnKeys, Region, X.Do, P.Next, P.Remove, Tied, Has;
      assert false;
    }
  }

  /** The slot holds something of the record now and at every later point of the run. */
  ghost predicate Stays<Pair>(y: System<Pair>, ss: seq<Step<Pair>>, id: nat, e: Slot)
    requires Possible(y, ss)
    decreases |ss|
  {
    Has(y, id, e) && (ss == [] || Stays(Next(y, ss[0]), ss[1..], id, e))
  }

  /** Some step of the run stores into the slot after the cleanup has passed it, and what it stores stays. */
  ghost predicate StoredLate<Pair>(y: System<Pair>, ss: seq<Step<Pair>>, id: nat, e: Slot)
    requires Possible(y, ss)
    decreases |ss|
  {
    ss != [] && var y', rest := Next(y, ss[0]), ss[1..];
      (!Has(y, id, e) && Passed(y', id, e) && Stays(y', rest, id, e)) || StoredLate(y', rest, id, e)
  }

  lemma {:induction false} StaysToEnd<Pair>(y: System<Pair>, ss: seq<Step<Pair>>, id: nat, e: Slot)
    requires Possible(y, ss)
    ensures Stays(y, ss, id, e) || StoredLate(y, ss, id, e) ==> Has(End(y, ss), id, e)
    decreases |ss|
  {
    hide Has, Enabled, Next, Passed;
    if ss != [] { StaysToEnd(Next(y, ss[0]), ss[1..], id, e); }
  }

  /**
   A passed slot holds something at the end exactly if it has since it was passed, or if something was
   stored late.
   */
  lemma {:induction false} HeldIff<Pair>(y: System<Pair>, ss: seq<Step<Pair>>, id: nat, e: Slot)
    requires SysInv(y) && Possible(y, ss) && Passed(End(y, ss), id, e)
    ensures Has(End(y, ss), id, e) <==> (Passed(y, id, e) && Stays(y, ss, id, e)) || StoredLate(y, ss, id, e)
    decreases |ss|
  {
    hide SysInv, Has, Enabled, Next, Passed;
    StaysToEnd(y, ss, id, e);
    if ss != [] {
      SysInvNext(y, ss[0]);
      HeldIff(Next(y, ss[0]), ss[1..], id, e);
      if Passed(Next(y, ss[0]), id, e) && !Passed(y, id, e) { PassingClears(y, ss[0], id, e); }
    }
  }

  lemma FinishedHolds<Pair>(y: System<Pair>, ss: seq<Step<Pair>>, id: nat, e: Slot)
    requires SysInv(y) && id !in y.stages && Possible(y, ss) && StageOf(End(y, ss), id) == FINISHED
    requires id < |End(y, ss).w.reg.records|
    ensures Has(End(y, ss), id, e) <==> StoredLate(y, ss, id, e)
  {
    assert Passed(End(y, ss), id, e) && !Passed(y, id, e);
    hide SysInv, Has, Stays, StoredLate, Passed, Possible, End;
    HeldIff(y, ss, id, e);
  }

  /** Nothing mentions the target of a record any more. */
  ghost predicate Forgotten<Pair>(y: System<Pair>, id: nat) {
    id < |y.w.reg.records| && Gone(y.b, id, y.w.reg.records[id].ids, PairFor(y, id))
  }

  lemma ForgottenIffEmpty<Pair>(y: System<Pair>, id: nat)
    requires id < |y.w.reg.records|
    ensures Forgotten(y, id) <==> forall e :: !Has(y, id, e)
  {
    GoneIffNothingHeld(y.b, id, y.w.reg.records[id].ids, PairFor(y, id));
    hide Gone, Holds;
    forall e ensures Has(y, id, e) <==> Holds(y.b, id, y.w.reg.records[id].ids, PairFor(y, id), e) {}
  }

  /**
   However the closers of a record are interleaved with each other, with the cleanups of other
   records, with the registry and with whatever handlers and goroutines store and delete: once the
   cleanup that went ahead has finished, nothing mentions the target, exactly unless something was
   stored for it after the region that clears the place, and stayed.
   */
  lemma ForgottenIff<Pair>(y: System<Pair>, ss: seq<Step<Pair>>, id: nat)
    requires SysInv(y) && id !in y.stages && Possible(y, ss) && StageOf(End(y, ss), id) == FINISHED
    ensures Forgotten(End(y, ss), id) <==> forall e :: !StoredLate(y, ss, id, e)
  {
    hide *;
    SysInvRun(y, ss);
    var y' := End(y, ss);
    FinishedRecord(y', id);
    ForgottenIffEmpty(y', id);
    if Forgotten(y', id) {
      forall e ensures !StoredLate(y, ss, id, e) {
        assert !Has(y', id, e);
        FinishedHolds(y, ss, id, e);
      }
    } else {
      var e :| Has(y', id, e);
      FinishedHolds(y, ss, id, e);
      assert StoredLate(y, ss, id, e);
    }
  }

  lemma FinishedRecord<Pair>(y: System<Pair>, id: nat)
    requires SysInv(y) && StageOf(y, id) == FINISHED
    ensures id < |y.w.reg.records| && y.w.reg.records[id].cleaned
  {
    assert StageOk(y, id);
  }

  /** What the registry forgets never comes back, so there the cleanup is never undone. */
  lemma RegistryNeverStoredLate<Pair>(y: System<Pair>, id: nat)
    requires SysInv(y) && StageOf(y, id) == FINISHED
    ensures !Has(y, id, InRegistry)
  {
    assert StageOk(y, id);
    var s := y.w.reg;
    hide StageOk, TieOk, X.Coherent, Paired;
    forall k | k in s.targets ensures s.targets[k] != id { assert P.TargetKeyOk(s, k); }
    forall k | k in s.sessions ensures s.sessions[k] != id { assert P.SessionKeyOk(s, k); }
  }

  // ---------------------------------------------------------------- a late event

  lemma {:induction false} RunAppend<Pair>(y: System<Pair>, ss: seq<Step<Pair>>, more: seq<Step<Pair>>)
    requires Possible(y, ss) && Possible(End(y, ss), more)
    ensures Possible(y, ss + more) && End(y, ss + more) == End(End(y, ss), more)
    decreases |ss|
  {
    hide Enabled, Next;
    if ss == [] {
      assert ss + more == more;
    } else {
      assert (ss + more)[0] == ss[0] && (ss + more)[1..] == ss[1..] + more;
      RunAppend(Next(y, ss[0]), ss[1..], more);
    }
  }

  function Proceeds<Pair>(id: nat, n: nat): seq<Step<Pair>> {
    if n == 0 then [] else [Proceed(id, true)] + Proceeds(id, n - 1)
  }

  lemma ProceedKeepsOwner<Pair>(y: System<Pair>, id: nat)
    requires SysInv(y) && Enabled(y, Proceed(id, true))
    ensures var y' := Next(y, Proceed(id, true));
      && y'.stages == y.stages[id := y.stages[id] + 1] && y'.owners == y.owners
      && |y'.w.reg.records| == |y.w.reg.records| && y'.w.reg.records[id].owner == y.w.reg.records[id].owner
  {
    ProceedParts(y, id, true);
    RemoveKeepsOwner(y.w.reg, id);
    hide SysInv, Enabled, Next, Region, P.Remove;
  }

  lemma RemoveKeepsOwner(s: P.Registry, id: nat)
    requires id < |s.records|
    ensures |P.Remove(s, id).records| == |s.records| && P.Remove(s, id).records[id].owner == s.records[id].owner
  {
    hide P.Leave;
  }

  /** A cleanup that has begun can go on to its end. */
  lemma {:induction false} ProceedsRun<Pair>(y: System<Pair>, id: nat, n: nat)
    requires SysInv(y) && id in y.stages && y.stages[id] + n == FINISHED
    ensures Possible(y, Proceeds(id, n))
    ensures var y' := End(y, Proceeds(id, n));
      && SysInv(y') && StageOf(y', id) == FINISHED && y'.owners == y.owners
      && id < |y.w.reg.records| == |y'.w.reg.records| && y'.w.reg.records[id].owner == y.w.reg.records[id].owner
    decreases n
  {
    BegunRecord(y, id);
    if n > 0 {
      var s: Step<Pair> := Proceed(id, true);
      assert Enabled(y, s) && Proceeds<Pair>(id, n) == [s] + Proceeds(id, n - 1);
      hide *;
      SysInvNext(y, s);
      ProceedKeepsOwner(y, id);
      var y' := Next(y, s);
      ProceedsRun(y', id, n - 1);
      OneStep(y, s);
      RunAppend(y, [s], Proceeds(id, n - 1));
    }
  }

  lemma BegunRecord<Pair>(y: System<Pair>, id: nat)
    requires SysInv(y) && id in y.stages
    ensures id < |y.w.reg.records| && id in y.owners && y.stages[id] <= FINISHED
  {
    assert StageOk(y, id);
  }

  /** A context-created event for the Juggler session, whenever it comes, says which context is its latest. */
  function ContextCreated<Pair>(b: State<Pair>, juggler: string, context: string): Step<Pair> {
    Handle(b.tables.(latestCtx := b.tables.latestCtx[juggler := context]), b.pairs, b.queue, b.intercepting, [])
  }

  lemma LateContext<Pair>(y: System<Pair>, id: nat, context: string)
    requires SysInv(y) && StageOf(y, id) == FINISHED && id < |y.w.reg.records|
    ensures var s := ContextCreated(y.b, y.w.reg.records[id].ids.juggler, context);
      && Enabled(y, s) && SysInv(Next(y, s)) && Has(Next(y, s), id, Latest) && StageOf(Next(y, s), id) == FINISHED
      && id < |Next(y, s).w.reg.records|
  {
    var s := ContextCreated(y.b, y.w.reg.records[id].ids.juggler, context);
    assert Enabled(y, s);
    SysInvNext(y, s);
    hide SysInv;
  }

  /**
   So the promise fails, in whatever state a cleanup begins: a context-created event that comes
   after the cleanup stores under the closed Juggler session, and that stays.
   */
  lemma LateEventIsKept<Pair>(y: System<Pair>, id: nat, context: string) returns (ss: seq<Step<Pair>>)
    requires SysInv(y) && id < |y.w.reg.records| && !y.w.reg.records[id].cleaned
    ensures Possible(y, ss) && StageOf(End(y, ss), id) == FINISHED && Has(End(y, ss), id, Latest)
    ensures !Forgotten(End(y, ss), id) && StoredLate(y, ss, id, Latest)
  {
    ss := FinishRun(y, id);
    var y1 := End(y, ss);
    FinishedRecord(y1, id);
    LateContext(y1, id, context);
    NotBegun(y, id);
    var late := ContextCreated(y1.b, y1.w.reg.records[id].ids.juggler, context);
    hide *;
    OneStep(y1, late);
    RunAppend(y, ss, [late]);
    ss := ss + [late];
    FinishedHolds(y, ss, id, Latest);
    ForgottenIffEmpty(End(y, ss), id);
  }

  lemma OneStep<Pair>(y: System<Pair>, s: Step<Pair>)
    requires Enabled(y, s)
    ensures Possible(y, [s]) && End(y, [s]) == Next(y, s)
  {
    hide Enabled, Next;
    assert [s][1..] == [];
  }

  /** A closer can always read the owner, begin a cleanup that has not begun, and run it to its end. */
  lemma FinishRun<Pair>(y: System<Pair>, id: nat) returns (ss: seq<Step<Pair>>)
    requires SysInv(y) && id < |y.w.reg.records| && !y.w.reg.records[id].cleaned
    ensures Possible(y, ss) && SysInv(End(y, ss)) && StageOf(End(y, ss), id) == FINISHED
  {
    var look: Step<Pair> := Look(id);
    var owner := y.w.reg.records[id].owner;
    SysInvNext(y, look);
    OneStep(y, look);
    var y1 := Next(y, look);
    ss := CloseRun(y1, id, owner);
    hide SysInv, Enabled, Next;
    RunAppend(y, [look], ss);
    ss := [look] + ss;
  }

  lemma CloseRun<Pair>(y: System<Pair>, id: nat, owner: Option<Conn>) returns (ss: seq<Step<Pair>>)
    requires SysInv(y) && id < |y.w.reg.records| && !y.w.reg.records[id].cleaned && (id, owner) in y.looks
    ensures Possible(y, ss) && SysInv(End(y, ss)) && StageOf(End(y, ss), id) == FINISHED
    ensures var y' := End(y, ss);
      && id < |y'.w.reg.records| && y'.w.reg.records[id].owner == y.w.reg.records[id].owner
      && id in y'.owners && y'.owners[id] == owner
  {
    var begin: Step<Pair> := Attempt(id, owner, true);
    Begins(y, id, owner);
    SysInvNext(y, begin);
    var y1 := Next(y, begin);
    ProceedsRun(y1, id, FINISHED);
    hide SysInv, Enabled, Next;
    OneStep(y, begin);
    ss := [begin] + Proceeds(id, FINISHED);
    RunAppend(y, [begin], Proceeds(id, FINISHED));
  }

  lemma NotBegun<Pair>(y: System<Pair>, id: nat)
    requires SysInv(y) && id < |y.w.reg.records| && !y.w.reg.records[id].cleaned
    ensures id !in y.stages
  {
    assert StageOk(y, id);
  }

  lemma Begins<Pair>(y: System<Pair>, id: nat, owner: Option<Conn>)
    requires SysInv(y) && id < |y.w.reg.records| && !y.w.reg.records[id].cleaned && (id, owner) in y.looks
    ensures Enabled(y, Attempt(id, owner, true))
    ensures var y' := Next(y, Attempt(id, owner, true));
      && y'.stages == y.stages[id := 0] && y'.owners == y.owners[id := owner]
      && |y'.w.reg.records| == |y.w.reg.records| && y'.w.reg.records[id].owner == y.w.reg.records[id].owner
  {
    assert P.RecordOk(y.w, id);
    AttemptParts(y, id, owner, true);
  }

  /** The bridge before the first client and the first event. */
  function Start<Pair>(pairOf: map<nat, Pair>): System<Pair> {
    var none := Tables(map[], map[], map[], map[], map[], map[], map[], map[], map[], map[], map[], map[],
                       map[], map[], map[], map[], map[], map[], map[], map[], map[]);
    System(P.START, State(P.EMPTY, none, X.EMPTY, map[], [], false, [], []), pairOf, map[], {}, map[])
  }

  lemma SysInvStart<Pair>(pairOf: map<nat, Pair>)
    ensures SysInv(Start(pairOf))
  {
    P.InvStart();
  }

  /** The attach handler's three steps: the page and its tab enter the index, then the pair the registry. */
  function AttachRun<Pair>(ids: P.Ids): seq<Step<Pair>> {
    [Reindex(X.DidAdd(X.Info(ids.pageSession, ids.juggler, ids.pageTarget, "", "", "", "page", ""))),
     Reindex(X.DidAdd(X.Info(ids.tabSession, "tab:" + ids.juggler, ids.tabTarget, "", "", "", "tab", ""))),
     Registry(P.DidRegister(None, ids, true))]
  }

  lemma FirstAttach<Pair>(pairOf: map<nat, Pair>, ids: P.Ids)
    requires P.GoodIds(P.START, ids, true)
    ensures Possible(Start(pairOf), AttachRun(ids))
    ensures var y := End(Start(pairOf), AttachRun(ids));
      SysInv(y) && |y.w.reg.records| == 1 && y.w.reg.records[0].ids == ids && !y.w.reg.records[0].cleaned
  {
    var ss := AttachRun<Pair>(ids);
    assert |ss| == 3 && ss == [ss[0]] + [ss[1]] + [ss[2]];
    hide *;
    var y0 := Start(pairOf);
    SysInvStart(pairOf);
    FirstAdd(pairOf, ids);
    SysInvNext(y0, ss[0]);
    OneStep(y0, ss[0]);
    var y1 := Next(y0, ss[0]);
    SecondAdd(pairOf, ids);
    SysInvNext(y1, ss[1]);
    OneStep(y1, ss[1]);
    RunAppend(y0, [ss[0]], [ss[1]]);
    var y2 := Next(y1, ss[1]);
    ThenRegister(pairOf, ids);
    SysInvNext(y2, ss[2]);
    OneStep(y2, ss[2]);
    RunAppend(y0, [ss[0]] + [ss[1]], [ss[2]]);
  }

  lemma FirstAdd<Pair>(pairOf: map<nat, Pair>, ids: P.Ids)
    ensures Enabled(Start(pairOf), AttachRun<Pair>(ids)[0])
  {}

  lemma SecondAdd<Pair>(pairOf: map<nat, Pair>, ids: P.Ids)
    requires P.GoodIds(P.START, ids, true) && Enabled(Start(pairOf), AttachRun<Pair>(ids)[0])
    ensures Enabled(Next(Start(pairOf), AttachRun<Pair>(ids)[0]), AttachRun<Pair>(ids)[1])
  {
    assert |"tab:" + ids.juggler| > |ids.juggler|;
  }

  lemma ThenRegister<Pair>(pairOf: map<nat, Pair>, ids: P.Ids)
    requires P.GoodIds(P.START, ids, true)
    requires Enabled(Start(pairOf), AttachRun<Pair>(ids)[0])
    requires Enabled(Next(Start(pairOf), AttachRun<Pair>(ids)[0]), AttachRun<Pair>(ids)[1])
    ensures var y := Next(Next(Start(pairOf), AttachRun<Pair>(ids)[0]), AttachRun<Pair>(ids)[1]);
      && Enabled(y, AttachRun<Pair>(ids)[2]) && |Next(y, AttachRun<Pair>(ids)[2]).w.reg.records| == 1
      && var r := Next(y, AttachRun<Pair>(ids)[2]).w.reg.records[0]; r.ids == ids && !r.cleaned
  {
    AttachTies(X.EMPTY, ids, AttachRun<Pair>(ids)[0].op.info, AttachRun<Pair>(ids)[1].op.info);
    hide X.Coherent, Tied;
  }

  /** From the very start: a page is attached, closed and cleaned up, and a late context event leaves a trace of it. */
  lemma LateEventFromStart<Pair>(pairOf: map<nat, Pair>, ids: P.Ids, context: string) returns (ss: seq<Step<Pair>>)
    requires P.GoodIds(P.START, ids, true)
    ensures Possible(Start(pairOf), ss) && StageOf(End(Start(pairOf), ss), 0) == FINISHED
    ensures !Forgotten(End(Start(pairOf), ss), 0)
  {
    FirstAttach(pairOf, ids);
    hide *;
    var closing := LateEventIsKept(End(Start(pairOf), AttachRun(ids)), 0, context);
    RunAppend(Start(pairOf), AttachRun(ids), closing);
    ss := AttachRun(ids) + closing;
  }

  // ---------------------------------------------------------------- other targets

  /** The tables, the index and the pairs say the same of a target. */
  predicate SameView<Pair(==)>(a: State<Pair>, b: State<Pair>, ids: P.Ids) {
    && SliceOf(b.tables, ids.pageSession, ids.juggler) == SliceOf(a.tables, ids.pageSession, ids.juggler)
    && SameKeys(a.index, b.index, ids) && At(b.pairs, ids.juggler) == At(a.pairs, ids.juggler)
  }

  lemma DelOther<V>(now: bool, m: map<string, V>, k: string, other: string)
    requires other != k
    ensures At(DelIf(now, m, k), other) == At(m, other)
  {}

  lemma KeyedKept(t: Tables, gone: P.Ids, n: nat, mine: P.Ids)
    requires mine.pageSession != gone.pageSession && mine.juggler != gone.juggler
    ensures var s := SliceOf(t, mine.pageSession, mine.juggler);
      var s' := SliceOf(TableRegion(t, gone, n), mine.pageSession, mine.juggler);
      && s'.loader == s.loader && s'.worlds == s.worlds && s'.query == s.query && s'.all == s.all && s'.skips == s.skips
      && s'.dialog == s.dialog && s'.patterns == s.patterns && s'.contextClear == s.contextClear
          && s'.applied == s.applied
      && s'.latest == s.latest && s'.frames == s.frames && s'.pendingFrame == s.pendingFrame
  {
    DelOther(n == 0, t.loaders, gone.pageSession, mine.pageSession);
    DelOther(n == 1, t.isolatedWorlds, gone.pageSession, mine.pageSession);
    DelOther(n == 2, t.lastQuery, gone.pageSession, mine.pageSession);
    DelOther(n == 2, t.lastQueryAll, gone.pageSession, mine.pageSession);
    DelOther(n == 2, t.lastQuerySkips, gone.pageSession, mine.pageSession);
    DelOther(n == 3, t.lastDialog, gone.pageSession, mine.pageSession);
    DelOther(n == 4, t.fetchPatterns, gone.pageSession, mine.pageSession);
    DelOther(n == 5, t.pendingContextClear, gone.pageSession, mine.pageSession);
    DelOther(n == 6, t.deterministicApplied, gone.pageSession, mine.pageSession);
    DelOther(n == 7, t.latestCtx, gone.juggler, mine.juggler);
    DelOther(n == 8, t.subFrames, gone.juggler, mine.juggler);
    DelOther(n == 13, t.pendingFrameIDs, gone.juggler, mine.juggler);
    hide DelIf, CutIf, KeysOf, ContextsOf, Owned, At;
  }

  lemma CutOther<K, V>(now: bool, owners: map<K, string>, values: map<K, V>, sid: string, other: string)
    requires other != sid
    ensures KeysOf(CutIf(now, owners, KeysOf(owners, sid)), other) == KeysOf(owners, other)
    ensures Owned(CutIf(now, owners, KeysOf(owners, sid)), CutIf(now, values, KeysOf(owners, sid)), other)
        == Owned(owners, values, other)
  {
    DropOther(owners, values, sid, other);
  }

  lemma OwnedKept(t: Tables, gone: P.Ids, n: nat, mine: P.Ids)
    requires mine.pageSession != gone.pageSession
    ensures var s := SliceOf(t, mine.pageSession, mine.juggler);
      var s' := SliceOf(TableRegion(t, gone, n), mine.pageSession, mine.juggler);
      && s'.unique == s.unique && s'.nodeIDs == s.nodeIDs && s'.nodes == s.nodes && s'.objects == s.objects
      && s'.handles == s.handles && s'.pdfs == s.pdfs && s'.requests == s.requests
  {
    CutOther(n == 9, t.ctxUniqueOwners, t.ctxUniqueOwners, gone.pageSession, mine.pageSession);
    CutOther(n == 10, t.nodeOwners, t.nodeObjects, gone.pageSession, mine.pageSession);
    CutOther(n == 10, t.objectOwners, t.objectOwners, gone.pageSession, mine.pageSession);
    CutOther(n == 11, t.pdfOwners, t.pdfStreams, gone.pageSession, mine.pageSession);
    CutOther(n == 12, t.requestOwners, t.requestOwners, gone.pageSession, mine.pageSession);
    hide DelIf, CutIf, KeysOf, ContextsOf, Owned, At;
  }

  lemma ContextsKept(t: Tables, gone: P.Ids, n: nat, mine: P.Ids)
    requires Paired(t) && mine.pageSession != gone.pageSession
    requires n == 9 ==> Apart(t, mine.pageSession, gone.juggler)
    ensures var s := SliceOf(t, mine.pageSession, mine.juggler);
      var s' := SliceOf(TableRegion(t, gone, n), mine.pageSession, mine.juggler);
      s'.contextIDs == s.contextIDs && s'.contexts == s.contexts
  {
    ContextsKeptIff(t, gone.pageSession, gone.juggler, mine.pageSession);
    hide DelIf, KeysOf, ContextsOf, Owned, At, Paired, Apart;
  }

  lemma SliceKept(t: Tables, gone: P.Ids, n: nat, mine: P.Ids)
    requires Paired(t) && mine.pageSession != gone.pageSession && mine.juggler != gone.juggler
    requires n == 9 ==> Apart(t, mine.pageSession, gone.juggler)
    ensures SliceOf(TableRegion(t, gone, n), mine.pageSession, mine.juggler)
        == SliceOf(t, mine.pageSession, mine.juggler)
  {
    KeyedKept(t, gone, n, mine);
    OwnedKept(t, gone, n, mine);
    ContextsKept(t, gone, n, mine);
    hide TableRegion, KeysOf, Owned, At, Paired, Apart;
  }

  /**
   A region of another target's cleanup leaves a target alone, unless it is the region that drops
   contexts and one of the target's contexts is taken for the closed Juggler session.
   */
  lemma RegionKeepsOther<Pair>(b: State<Pair>, gone: P.Ids, owner: Option<Conn>, pair: Option<Pair>, n: nat, ok: bool,
      mine: P.Ids)
    requires Paired(b.tables) && X.Coherent(b.index) && Tied(b.index, mine)
    requires mine.pageSession !in {gone.pageSession, gone.tabSession} && mine.juggler != gone.juggler
    requires mine.tabSession != "" ==> mine.tabSession !in {gone.pageSession, gone.tabSession}
    requires n == 9 ==> Apart(b.tables, mine.pageSession, gone.juggler)
    ensures SameView(b, Region(b, gone, owner, pair, n, ok), mine)
  {
    SliceKept(b.tables, gone, n, mine);
    OneKept(b.index, gone.pageSession, mine);
    OneKept(b.index, gone.tabSession, mine);
    PairsKeepOther(b.pairs, gone.juggler, mine.juggler);
    hide SliceOf, TableRegion, X.Coherent, X.Remove, At, Without, Tied, Apart, Paired;
  }

  lemma OneKept(x: X.Index, sid: string, ids: P.Ids)
    requires X.Coherent(x) && Tied(x, ids) && ids.pageSession != sid && (ids.tabSession != "" ==> ids.tabSession != sid)
    ensures SameKeys(x, X.Remove(x, sid), ids)
  {
    RemovedKeys(x, sid, ids.pageSession);
    RemovedKeys(x, sid, ids.tabSession);
    RemovedKeys(x, sid, ids.pageTarget);
    RemovedKeys(x, sid, ids.tabTarget);
    RemovedKeys(x, sid, ids.juggler);
    RemovedKeys(x, sid, "tab:" + ids.juggler);
    assert X.TargetEntryOk(x, ids.pageTarget) && X.TargetEntryOk(x, ids.tabTarget);
    assert X.JugglerEntryOk(x, ids.juggler) && X.JugglerEntryOk(x, "tab:" + ids.juggler);
    hide X.Coherent, X.Remove;
  }

  /**
   What a step must keep to for the target of record `i`, whose own cleanup does not begin: a handler
   works for other targets, and a region that drops contexts finds none of its contexts taken.
   */
  ghost predicate LeavesAlone<Pair>(y: System<Pair>, s: Step<Pair>, i: nat)
    requires Enabled(y, s) && i < |y.w.reg.records|
  {
    var mine := y.w.reg.records[i].ids;
    match s
    case Look(id) => true
    case Attempt(id, _, _) => id != i
    case Proceed(id, ok) =>
      var gone := y.w.reg.records[id].ids;
      gone.juggler != mine.juggler && (y.stages[id] == 9 ==> Apart(y.b.tables, mine.pageSession, gone.juggler))
    case Registry(e) => true
    case _ => SameView(y.b, Next(y, s).b, mine)
  }

  lemma ProceedKeepsOther<Pair>(y: System<Pair>, id: nat, ok: bool, i: nat)
    requires SysInv(y) && Enabled(y, Proceed(id, ok)) && i < |y.w.reg.records| && i !in y.stages
    requires LeavesAlone(y, Proceed(id, ok), i)
    ensures SameView(y.b, Next(y, Proceed(id, ok)).b, y.w.reg.records[i].ids)
  {
    assert StageOk(y, id) && StageOk(y, i) && TieOk(y, i);
    var gone, mine := y.w.reg.records[id].ids, y.w.reg.records[i].ids;
    IdsDiffer(y.w, id, i);
    if y.stages[id] < LAST { RegionKeepsOther(y.b, gone, y.owners[id], PairFor(y, id), y.stages[id], ok, mine); }
    ProceedParts(y, id, ok);
    hide P.Inv, Next, Enabled, Region, Apart, Paired, X.Coherent, P.Remove, SliceOf, PageTied, TabTied;
  }

  lemma AttemptKeepsOther<Pair>(y: System<Pair>, id: nat, owner: Option<Conn>, closeBackend: bool, i: nat)
    requires Enabled(y, Attempt(id, owner, closeBackend)) && i < |y.w.reg.records| && i !in y.stages && i != id
    ensures var y' := Next(y, Attempt(id, owner, closeBackend));
      SameView(y.b, y'.b, y.w.reg.records[i].ids) && i !in y'.stages
  {
    AttemptParts(y, id, owner, closeBackend);
    hide Next, Enabled, SliceOf, P.BeginCleanup, At;
  }

  lemma StepKeepsOther<Pair>(y: System<Pair>, s: Step<Pair>, i: nat)
    requires SysInv(y) && Enabled(y, s) && i < |y.w.reg.records| && i !in y.stages && LeavesAlone(y, s, i)
    ensures SameView(y.b, Next(y, s).b, y.w.reg.records[i].ids) && i !in Next(y, s).stages
  {
    match s
    case Proceed(id, ok) =>
      ProceedKeepsOther(y, id, ok, i);
      ProceedParts(y, id, ok);
      hide SysInv, Next, SameView, Region;
    case Attempt(id, owner, closeBackend) => AttemptKeepsOther(y, id, owner, closeBackend, i);
    case Look(id) => hide SysInv, SliceOf, At, SameKeys;
    case Registry(e) => hide SysInv, SliceOf, P.Next, P.Enabled, At, SameKeys;
    case Handle(_, _, _, _, _) => hide SysInv, SliceOf, At, SameKeys;
    case Reindex(op) => hide SysInv, SliceOf, X.Do, At, SameKeys;
  }

  ghost predicate Bystander<Pair>(y: System<Pair>, ss: seq<Step<Pair>>, i: nat)
    requires Possible(y, ss)
    decreases |ss|
  {
    i < |y.w.reg.records| && (ss == [] || (LeavesAlone(y, ss[0], i) && Bystander(Next(y, ss[0]), ss[1..], i)))
  }

  lemma SameViewTwice<Pair>(a: State<Pair>, b: State<Pair>, c: State<Pair>, ids: P.Ids)
    requires SameView(a, b, ids) && SameView(b, c, ids)
    ensures SameView(a, c, ids)
  {
    hide SliceOf, At;
  }

  /**
   Over every run, however many cleanups of other targets are under way and at whatever regions:
   what the tables, the index and the pairs hold for a target is at the end what it was.
   */
  lemma {:induction false} OthersKeptRun<Pair>(y: System<Pair>, ss: seq<Step<Pair>>, i: nat)
    requires SysInv(y) && Possible(y, ss) && i < |y.w.reg.records| && i !in y.stages && Bystander(y, ss, i)
    ensures SameView(y.b, End(y, ss).b, y.w.reg.records[i].ids)
    ensures var w := End(y, ss).w;
      && i < |w.reg.records| && w.reg.records[i].ids == y.w.reg.records[i].ids
      && !w.reg.records[i].state.Closed? && P.Named(w.reg, i)
    decreases |ss|
  {
    if ss == [] {
      assert StageOk(y, i) && P.RecordOk(y.w, i);
    } else {
      var y' := Next(y, ss[0]);
      var mine := y.w.reg.records[i].ids;
      SysInvNext(y, ss[0]);
      RecordsStay(y, ss[0], i);
      StepKeepsOther(y, ss[0], i);
      hide SysInv, LeavesAlone, SameView, Next, Enabled;
      OthersKeptRun(y', ss[1..], i);
      SameViewTwice(y.b, y'.b, End(y', ss[1..]).b, mine);
    }
  }
}
