/**
 The bridge's tables that are keyed or owned by sessions (pkg/bridge/bridge.go), as one value,
 and what clearing one target out of them erases and leaves alone.
 */
module SessionTables {
  import opened Common
  import opened OwnedTables
  import opened FetchState

  datatype IsolatedWorld = IsolatedWorld(worldName: string, frameID: string)

  datatype Tables = Tables(
    // by CDP session
    loaders: map<string, string>,
    isolatedWorlds: map<string, seq<IsolatedWorld>>,
    lastQuery: map<string, string>,
    lastQueryAll: map<string, bool>,
    lastQuerySkips: map<string, int>,
    lastDialog: map<string, string>,
    fetchPatterns: map<string, seq<Pattern>>,
    pendingContextClear: map<string, bool>,
    deterministicApplied: map<string, bool>,
    // by Juggler session
    latestCtx: map<string, string>,
    subFrames: map<string, set<string>>,
    pendingFrameIDs: map<string, string>,
    // entries with an owning CDP session
    ctxMap: map<int, string>,
    ctxOwners: map<int, string>,
    ctxUniqueOwners: map<string, string>,
    nodeObjects: map<int, string>,
    nodeOwners: map<int, string>,
    objectOwners: map<string, string>,
    pdfStreams: map<string, string>,
    pdfOwners: map<string, string>,
    requestOwners: map<string, string>)

  /** Contexts that go with a target: a context is compared with the Juggler session as well as by owner. */
  function ContextsOf<K>(ctxMap: map<K, string>, ctxOwners: map<K, string>, page: string, juggler: string): set<K> {
    set id | id in ctxMap && (ctxMap[id] == juggler || OwnerOf(ctxOwners, id) == page)
  }

  function ClearedKeys(t: Tables, page: string, juggler: string): Tables {
    t.(loaders := Del(t.loaders, page), isolatedWorlds := Del(t.isolatedWorlds, page),
       lastQuery := Del(t.lastQuery, page), lastQueryAll := Del(t.lastQueryAll, page),
       lastQuerySkips := Del(t.lastQuerySkips, page),
       lastDialog := Del(t.lastDialog, page), fetchPatterns := Del(t.fetchPatterns, page),
       pendingContextClear := Del(t.pendingContextClear, page),
       deterministicApplied := Del(t.deterministicApplied, page),
       latestCtx := Del(t.latestCtx, juggler), subFrames := Del(t.subFrames, juggler),
       pendingFrameIDs := Del(t.pendingFrameIDs, juggler))
  }

  function ClearedOwned(t: Tables, page: string, juggler: string): Tables {
    var contexts := ContextsOf(t.ctxMap, t.ctxOwners, page, juggler);
    var nodes := KeysOf(t.nodeOwners, page);
    var pdfs := KeysOf(t.pdfOwners, page);
    t.(ctxMap := Cut(t.ctxMap, contexts), ctxOwners := Cut(t.ctxOwners, contexts),
       ctxUniqueOwners := Cut(t.ctxUniqueOwners, KeysOf(t.ctxUniqueOwners, page)),
       nodeObjects := Cut(t.nodeObjects, nodes), nodeOwners := Cut(t.nodeOwners, nodes),
       objectOwners := Cut(t.objectOwners, KeysOf(t.objectOwners, page)),
       pdfStreams := Cut(t.pdfStreams, pdfs), pdfOwners := Cut(t.pdfOwners, pdfs))
  }

  /** The tables after clearing the target of a page session and a Juggler session. */
  function Cleared(t: Tables, page: string, juggler: string): Tables {
    var t' := ClearedOwned(ClearedKeys(t, page, juggler), page, juggler);
    t'.(requestOwners := Cut(t'.requestOwners, KeysOf(t'.requestOwners, page)))
  }

  // ---------------------------------------------------------------- what the tables hold for one session

  function At<K, V>(m: map<K, V>, k: K): Option<V> { if k in m then Some(m[k]) else None }

  /** The values stored under keys that a session owns. */
  function Owned<K, V>(owners: map<K, string>, values: map<K, V>, sid: string): map<K, V> {
    map k | k in owners && owners[k] == sid && k in values :: values[k]
  }

  datatype Slice = Slice(
    loader: Option<string>, worlds: Option<seq<IsolatedWorld>>,
    query: Option<string>, all: Option<bool>, skips: Option<int>,
    dialog: Option<string>, patterns: Option<seq<Pattern>>, contextClear: Option<bool>, applied: Option<bool>,
    latest: Option<string>, frames: Option<set<string>>, pendingFrame: Option<string>,
    contextIDs: set<int>, contexts: map<int, string>, unique: set<string>,
    nodeIDs: set<int>, nodes: map<int, string>, objects: set<string>,
    handles: set<string>, pdfs: map<string, string>, requests: set<string>)

  const NOTHING := Slice(None, None, None, None, None, None, None, None, None, None, None, None,
                         {}, map[], {}, {}, map[], {}, {}, map[], {})

  /** Everything the tables say about a CDP session and a Juggler session. */
  function SliceOf(t: Tables, sid: string, juggler: string): Slice {
    Slice(At(t.loaders, sid), At(t.isolatedWorlds, sid),
          At(t.lastQuery, sid), At(t.lastQueryAll, sid), At(t.lastQuerySkips, sid),
          At(t.lastDialog, sid), At(t.fetchPatterns, sid), At(t.pendingContextClear, sid),
              At(t.deterministicApplied, sid),
          At(t.latestCtx, juggler), At(t.subFrames, juggler), At(t.pendingFrameIDs, juggler),
          KeysOf(t.ctxOwners, sid), Owned(t.ctxOwners, t.ctxMap, sid), KeysOf(t.ctxUniqueOwners, sid),
          KeysOf(t.nodeOwners, sid), Owned(t.nodeOwners, t.nodeObjects, sid), KeysOf(t.objectOwners, sid),
          KeysOf(t.pdfOwners, sid), Owned(t.pdfOwners, t.pdfStreams, sid), KeysOf(t.requestOwners, sid))
  }

  /** Values and owners are stored and dropped together. */
  predicate Paired(t: Tables) {
    t.ctxMap.Keys == t.ctxOwners.Keys && t.nodeObjects.Keys == t.nodeOwners.Keys
        && t.pdfStreams.Keys == t.pdfOwners.Keys
  }

  lemma ClearedPaired(t: Tables, page: string, juggler: string)
    requires Paired(t)
    ensures Paired(Cleared(t, page, juggler))
  {
    var t' := Cleared(t, page, juggler);
    assert t'.ctxMap.Keys == t.ctxMap.Keys - ContextsOf(t.ctxMap, t.ctxOwners, page, juggler) == t'.ctxOwners.Keys;
    assert t'.nodeObjects.Keys == t.nodeObjects.Keys - KeysOf(t.nodeOwners, page) == t'.nodeOwners.Keys;
    assert t'.pdfStreams.Keys == t.pdfStreams.Keys - KeysOf(t.pdfOwners, page) == t'.pdfOwners.Keys;
  }

  lemma DropOwn<K, V>(owners: map<K, string>, values: map<K, V>, sid: string)
    ensures KeysOf(owners - KeysOf(owners, sid), sid) == {}
    ensures Owned(owners - KeysOf(owners, sid), values - KeysOf(owners, sid), sid) == map[]
  {
    assert forall k :: k in owners - KeysOf(owners, sid) ==> (owners - KeysOf(owners, sid))[k] != sid;
  }

  lemma DropOther<K, V>(owners: map<K, string>, values: map<K, V>, sid: string, q: string)
    requires q != sid
    ensures KeysOf(owners - KeysOf(owners, sid), q) == KeysOf(owners, q)
    ensures Owned(owners - KeysOf(owners, sid), values - KeysOf(owners, sid), q) == Owned(owners, values, q)
  {}

  /** After the cleanup nothing is keyed by or owned by the target's page session or Juggler session. */
  lemma ClearedHasNothing(t: Tables, page: string, juggler: string)
    requires Paired(t)
    ensures SliceOf(Cleared(t, page, juggler), page, juggler) == NOTHING
  {
    var t' := Cleared(t, page, juggler);
    DropOwn(t.ctxUniqueOwners, t.ctxUniqueOwners, page);
    DropOwn(t.nodeOwners, t.nodeObjects, page);
    DropOwn(t.objectOwners, t.objectOwners, page);
    DropOwn(t.pdfOwners, t.pdfStreams, page);
    DropOwn(t.requestOwners, t.requestOwners, page);
    ContextsGone(t, page, juggler);
  }

  lemma ContextsGone(t: Tables, page: string, juggler: string)
    requires Paired(t)
    ensures var t' := Cleared(t, page, juggler);
      KeysOf(t'.ctxOwners, page) == {} && Owned(t'.ctxOwners, t'.ctxMap, page) == map[]
  {
    var t' := Cleared(t, page, juggler);
    forall id | id in t'.ctxOwners ensures t'.ctxOwners[id] != page {
      assert id in t.ctxMap && id !in ContextsOf(t.ctxMap, t.ctxOwners, page, juggler);
    }
  }

  /** None of the session's contexts has the target's Juggler session for its Juggler context ID. */
  predicate Apart(t: Tables, sid: string, juggler: string) {
    forall id | id in t.ctxMap && OwnerOf(t.ctxOwners, id) == sid :: t.ctxMap[id] != juggler
  }

  lemma OwnKeysKept<V>(owners: map<int, string>, values: map<int, V>, gone: set<int>, sid: string)
    requires KeysOf(owners, sid) !! gone
    ensures KeysOf(owners - gone, sid) == KeysOf(owners, sid)
    ensures Owned(owners - gone, values - gone, sid) == Owned(owners, values, sid)
  {}

  lemma ContextsKeptIff(t: Tables, page: string, juggler: string, sid: string)
    requires Paired(t) && sid != page
    ensures var t' := Cleared(t, page, juggler);
      && (Apart(t, sid, juggler) ==> KeysOf(t'.ctxOwners, sid) == KeysOf(t.ctxOwners, sid)
                                     && Owned(t'.ctxOwners, t'.ctxMap, sid) == Owned(t.ctxOwners, t.ctxMap, sid))
      && (KeysOf(t'.ctxOwners, sid) == KeysOf(t.ctxOwners, sid) ==> Apart(t, sid, juggler))
  {
    var gone := ContextsOf(t.ctxMap, t.ctxOwners, page, juggler);
    if Apart(t, sid, juggler) {
      forall id | id in KeysOf(t.ctxOwners, sid) ensures id !in gone {
        assert id in t.ctxOwners.Keys && id in t.ctxMap.Keys;
      }
      OwnKeysKept(t.ctxOwners, t.ctxMap, gone, sid);
    } else {
      var id :| id in t.ctxMap.Keys && OwnerOf(t.ctxOwners, id) == sid && t.ctxMap[id] == juggler;
      assert id in gone && id in KeysOf(t.ctxOwners, sid) && id !in KeysOf(t.ctxOwners - gone, sid);
    }
  }

  /** Another session keeps everything exactly when none of its contexts is taken for the closed Juggler session. */
  lemma OthersKeptIff(t: Tables, page: string, juggler: string, sid: string, other: string)
    requires Paired(t) && sid != page && other != juggler
    ensures SliceOf(Cleared(t, page, juggler), sid, other) == SliceOf(t, sid, other) <==> Apart(t, sid, juggler)
  {
    ContextsKeptIff(t, page, juggler, sid);
    DropOther(t.ctxUniqueOwners, t.ctxUniqueOwners, page, sid);
    DropOther(t.nodeOwners, t.nodeObjects, page, sid);
    DropOther(t.objectOwners, t.objectOwners, page, sid);
    DropOther(t.pdfOwners, t.pdfStreams, page, sid);
    DropOther(t.requestOwners, t.requestOwners, page, sid);
  }

  /** An ID in use both as a Juggler session and as another session's context loses that context. */
  lemma SharedIDTakesContext()
    ensures exists t: Tables ::
      Paired(t) && SliceOf(Cleared(t, "page 1", "x"), "page 2", "y") != SliceOf(t, "page 2", "y")
  {
    var t := Tables(map[], map[], map[], map[], map[], map[], map[], map[], map[], map[], map[], map[],
                    map[101 := "x"], map[101 := "page 2"], map[], map[], map[], map[], map[], map[], map[]);
    assert "page 1" != "page 2" by { assert "page 1"[5] != "page 2"[5]; }
    assert Paired(t) && !Apart(t, "page 2", "x") by { assert 101 in t.ctxMap && OwnerOf(t.ctxOwners, 101) == "page 2"; }
    OthersKeptIff(t, "page 1", "x", "page 2", "y");
  }

  /** The tab session of a closed target keeps whatever a client stored under it. */
  lemma TabSessionKeepsItsEntries(t: Tables, page: string, tab: string, juggler: string)
    requires Paired(t) && tab != page && Apart(t, tab, juggler)
    ensures SliceOf(Cleared(t, page, juggler), tab, "tab:" + juggler) == SliceOf(t, tab, "tab:" + juggler)
  {
    assert |"tab:" + juggler| > |juggler|;
    OthersKeptIff(t, page, juggler, tab, "tab:" + juggler);
  }

  // ---------------------------------------------------------------- order does not matter

  lemma DropBoth<K>(owners: map<K, string>, a: string, b: string)
    ensures KeysOf(owners, a) + KeysOf(owners - KeysOf(owners, a), b) == KeysOf(owners, a) + KeysOf(owners, b)
  {}

  lemma MinusMinus<K, V>(m: map<K, V>, a: set<K>, b: set<K>, c: set<K>, d: set<K>)
    requires a + b == c + d
    ensures (m - a) - b == (m - c) - d
  {
    assert forall k :: k in (m - a) - b <==> k in m && k !in a + b;
    assert forall k :: k in (m - c) - d <==> k in m && k !in c + d;
  }

  lemma DropOwnersCommutes<K, V>(owners: map<K, string>, values: map<K, V>, a: string, b: string)
    ensures var oa := owners - KeysOf(owners, a); var ob := owners - KeysOf(owners, b);
      && oa - KeysOf(oa, b) == ob - KeysOf(ob, a)
      && (values - KeysOf(owners, a)) - KeysOf(oa, b) == (values - KeysOf(owners, b)) - KeysOf(ob, a)
  {
    var oa := owners - KeysOf(owners, a);
    var ob := owners - KeysOf(owners, b);
    DropBoth(owners, a, b);
    DropBoth(owners, b, a);
    MinusMinus(owners, KeysOf(owners, a), KeysOf(oa, b), KeysOf(owners, b), KeysOf(ob, a));
    MinusMinus(values, KeysOf(owners, a), KeysOf(oa, b), KeysOf(owners, b), KeysOf(ob, a));
  }

  lemma DropContextsCommutes(ctxMap: map<int, string>, ctxOwners: map<int, string>, p: string, j: string, q: string,
      k: string)
    ensures var a := ContextsOf(ctxMap, ctxOwners, p, j); var b := ContextsOf(ctxMap, ctxOwners, q, k);
      var a' := ContextsOf(ctxMap - b, ctxOwners - b, p, j); var b' := ContextsOf(ctxMap - a, ctxOwners - a, q, k);
      && (ctxMap - a) - b' == (ctxMap - b) - a'
      && (ctxOwners - a) - b' == (ctxOwners - b) - a'
  {
    var a, b := ContextsOf(ctxMap, ctxOwners, p, j), ContextsOf(ctxMap, ctxOwners, q, k);
    var a', b' := ContextsOf(ctxMap - b, ctxOwners - b, p, j), ContextsOf(ctxMap - a, ctxOwners - a, q, k);
    forall id ensures (id in a + b' <==> id in a + b) && (id in b + a' <==> id in a + b) {
      assert id !in a ==> OwnerOf(ctxOwners - a, id) == OwnerOf(ctxOwners, id);
      assert id !in b ==> OwnerOf(ctxOwners - b, id) == OwnerOf(ctxOwners, id);
    }
    MinusMinus(ctxMap, a, b', b, a');
    MinusMinus(ctxOwners, a, b', b, a');
  }

  lemma DropKeyCommutes<V>(m: map<string, V>, a: string, b: string)
    ensures (m - {a}) - {b} == (m - {b}) - {a}
  {
    MinusMinus(m, {a}, {b}, {b}, {a});
  }

  /** Clearing two targets gives the same tables in either order; a disconnect may take its targets as they come. */
  lemma {:induction false} ClearedCommutes(t: Tables, p: string, j: string, q: string, k: string)
    ensures Cleared(Cleared(t, p, j), q, k) == Cleared(Cleared(t, q, k), p, j)
  {
    ByPageCommutes(t, p, j, q, k);
    DropKeyCommutes(t.latestCtx, j, k);
    DropKeyCommutes(t.subFrames, j, k);
    DropKeyCommutes(t.pendingFrameIDs, j, k);
    DropContextsCommutes(t.ctxMap, t.ctxOwners, p, j, q, k);
    DropOwnersCommutes(t.ctxUniqueOwners, t.ctxUniqueOwners, p, q);
    DropOwnersCommutes(t.nodeOwners, t.nodeObjects, p, q);
    DropOwnersCommutes(t.objectOwners, t.objectOwners, p, q);
    DropOwnersCommutes(t.pdfOwners, t.pdfStreams, p, q);
    DropOwnersCommutes(t.requestOwners, t.requestOwners, p, q);
  }

  lemma ByPageCommutes(t: Tables, p: string, j: string, q: string, k: string)
    ensures var a := Cleared(Cleared(t, p, j), q, k); var b := Cleared(Cleared(t, q, k), p, j);
      && a.loaders == b.loaders && a.isolatedWorlds == b.isolatedWorlds && a.lastQuery == b.lastQuery
      && a.lastQueryAll == b.lastQueryAll && a.lastQuerySkips == b.lastQuerySkips && a.lastDialog == b.lastDialog
      && a.fetchPatterns == b.fetchPatterns && a.pendingContextClear == b.pendingContextClear
      && a.deterministicApplied == b.deterministicApplied
  {
    DropKeyCommutes(t.loaders, p, q);
    DropKeyCommutes(t.isolatedWorlds, p, q);
    DropKeyCommutes(t.lastQuery, p, q);
    DropKeyCommutes(t.lastQueryAll, p, q);
    DropKeyCommutes(t.lastQuerySkips, p, q);
    DropKeyCommutes(t.lastDialog, p, q);
    DropKeyCommutes(t.fetchPatterns, p, q);
    DropKeyCommutes(t.pendingContextClear, p, q);
    DropKeyCommutes(t.deterministicApplied, p, q);
  }
}
