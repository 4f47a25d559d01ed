/**
 pkg/cdp/session.go: one set of session entries under three indexes.

 SessionIndex is the value: an entry is named by its place among all entries ever added, so
 that two indexes with the same number share one entry object. Sessions is the class.
 */
module SessionIndex {
  import opened Common

  datatype Info = Info(sessionID: string, juggler: string, target: string, browserContext: string,
                       url: string, title: string, kind: string, frameID: string)

  datatype Index = Index(sessions: map<string, nat>, targets: map<string, nat>, jugglers: map<string, nat>,
      entries: seq<Info>)

  const EMPTY := Index(map[], map[], map[], [])

  function Add(x: Index, info: Info): Index {
    var id := |x.entries|;
    Index(x.sessions[info.sessionID := id],
          if info.target != "" then x.targets[info.target := id] else x.targets,
          if info.juggler != "" then x.jugglers[info.juggler := id] else x.jugglers,
          x.entries + [info])
  }

  function Remove(x: Index, sid: string): Index {
    if sid !in x.sessions || x.sessions[sid] >= |x.entries| then x else
    var info := x.entries[x.sessions[sid]];
    Index(x.sessions - {sid}, x.targets - {info.target}, x.jugglers - {info.juggler}, x.entries)
  }

  /** Writes the entry of a session, if there is one. */
  function Update(x: Index, sid: string, f: Info -> Info): Index
    requires sid in x.sessions ==> x.sessions[sid] < |x.entries|
  {
    if sid !in x.sessions then x else
    var id := x.sessions[sid];
    x.(entries := x.entries[id := f(x.entries[id])])
  }

  function Lookup(x: Index, m: map<string, nat>, k: string): Option<Info> {
    if k in m && m[k] < |x.entries| then Some(x.entries[m[k]]) else None
  }

  predicate SameKeys(a: Info, b: Info) {
    a.sessionID == b.sessionID && a.juggler == b.juggler && a.target == b.target
  }

  // ---------------------------------------------------------------- coherence

  predicate SessionEntryOk(x: Index, sid: string) {
    sid in x.sessions ==>
      && x.sessions[sid] < |x.entries|
      && var id := x.sessions[sid]; var e := x.entries[id];
         && e.sessionID == sid
         && (e.target != "" ==> e.target in x.targets && x.targets[e.target] == id)
         && (e.juggler != "" ==> e.juggler in x.jugglers && x.jugglers[e.juggler] == id)
  }

  predicate TargetEntryOk(x: Index, t: string) {
    t in x.targets ==>
      && t != "" && x.targets[t] < |x.entries|
      && var e := x.entries[x.targets[t]];
         e.target == t && e.sessionID in x.sessions && x.sessions[e.sessionID] == x.targets[t]
  }

  predicate JugglerEntryOk(x: Index, j: string) {
    j in x.jugglers ==>
      && j != "" && x.jugglers[j] < |x.entries|
      && var e := x.entries[x.jugglers[j]];
         e.juggler == j && e.sessionID in x.sessions && x.sessions[e.sessionID] == x.jugglers[j]
  }

  /** The three indexes lead to the same entries, and no key dangles. */
  ghost predicate Coherent(x: Index) {
    && (forall k {:trigger SessionEntryOk(x, k)} :: SessionEntryOk(x, k))
    && (forall k {:trigger TargetEntryOk(x, k)} :: TargetEntryOk(x, k))
    && (forall k {:trigger JugglerEntryOk(x, k)} :: JugglerEntryOk(x, k))
  }

  /** Adding over a session keeps its other keys, and takes no key away from another session. */
  predicate KeysFree(x: Index, info: Info) {
    && (info.sessionID in x.sessions && x.sessions[info.sessionID] < |x.entries| ==>
          var e := x.entries[x.sessions[info.sessionID]];
          (e.target == "" || e.target == info.target) && (e.juggler == "" || e.juggler == info.juggler))
    && (info.target in x.targets && x.targets[info.target] < |x.entries| ==>
          x.entries[x.targets[info.target]].sessionID == info.sessionID)
    && (info.juggler in x.jugglers && x.jugglers[info.juggler] < |x.entries| ==>
          x.entries[x.jugglers[info.juggler]].sessionID == info.sessionID)
  }

  /** Adding keeps the indexes coherent exactly when the keys are free. */
  lemma AddCoherentIff(x: Index, info: Info)
    requires Coherent(x)
    ensures Coherent(Add(x, info)) <==> KeysFree(x, info)
  {
    var y := Add(x, info);
    assert SessionEntryOk(x, info.sessionID) && TargetEntryOk(x, info.target) && JugglerEntryOk(x, info.juggler);
    if KeysFree(x, info) {
      forall k ensures SessionEntryOk(y, k) { assert SessionEntryOk(x, k); }
      forall k ensures TargetEntryOk(y, k) { assert TargetEntryOk(x, k); }
      forall k ensures JugglerEntryOk(y, k) { assert JugglerEntryOk(x, k); }
    } else {
      NotFree(x, info);
    }
  }

  lemma NotFree(x: Index, info: Info)
    requires Coherent(x) && !KeysFree(x, info)
    ensures !Coherent(Add(x, info))
  {
    var y := Add(x, info);
    assert SessionEntryOk(x, info.sessionID) && TargetEntryOk(x, info.target) && JugglerEntryOk(x, info.juggler);
    if info.sessionID in x.sessions {
      var e := x.entries[x.sessions[info.sessionID]];
      if e.target != "" && e.target != info.target { assert !TargetEntryOk(y, e.target); }
      if e.juggler != "" && e.juggler != info.juggler { assert !JugglerEntryOk(y, e.juggler); }
    }
    if info.target in x.targets {
      var e := x.entries[x.targets[info.target]];
      if e.sessionID != info.sessionID { assert !SessionEntryOk(y, e.sessionID); }
    }
    if info.juggler in x.jugglers {
      var e := x.entries[x.jugglers[info.juggler]];
      if e.sessionID != info.sessionID { assert !SessionEntryOk(y, e.sessionID); }
    }
  }

  /** Adding over a session with a new target: the old target key is left behind. */
  lemma OverwriteDangles()
    ensures var first := Info("cdp-1", "jug-1", "target-1", "", "https://old.com", "", "", "");
      var x := Add(Add(EMPTY, first), Info("cdp-1", "jug-2", "target-2", "", "https://new.com", "", "", ""));
      !Coherent(x) && Lookup(x, x.targets, "target-1") == Some(first)
  {
    var first := Info("cdp-1", "jug-1", "target-1", "", "https://old.com", "", "", "");
    var second := Info("cdp-1", "jug-2", "target-2", "", "https://new.com", "", "", "");
    assert "target-1" != "target-2" by { assert "target-1"[7] != "target-2"[7]; }
    assert !TargetEntryOk(Add(Add(EMPTY, first), second), "target-1");
  }

  lemma RemoveCoherent(x: Index, sid: string)
    requires Coherent(x)
    ensures SessionEntryOk(x, sid) && Coherent(Remove(x, sid))
  {
    assert SessionEntryOk(x, sid);
    var y := Remove(x, sid);
    forall k ensures SessionEntryOk(y, k) { RemoveKeepsSession(x, sid, k); }
    forall k ensures TargetEntryOk(y, k) { assert TargetEntryOk(x, k); }
    forall k ensures JugglerEntryOk(y, k) { assert JugglerEntryOk(x, k); }
  }

  lemma RemoveKeepsSession(x: Index, sid: string, k: string)
    requires SessionEntryOk(x, sid) && SessionEntryOk(x, k)
    ensures SessionEntryOk(Remove(x, sid), k)
  {}

  lemma UpdateCoherent(x: Index, sid: string, f: Info -> Info)
    requires Coherent(x) && forall i :: SameKeys(i, f(i))
    ensures SessionEntryOk(x, sid) && Coherent(Update(x, sid, f))
  {
    assert SessionEntryOk(x, sid);
    var y := Update(x, sid, f);
    forall k ensures SessionEntryOk(y, k) { assert SessionEntryOk(x, k); }
    forall k ensures TargetEntryOk(y, k) { assert TargetEntryOk(x, k); }
    forall k ensures JugglerEntryOk(y, k) { assert JugglerEntryOk(x, k); }
  }

  // ---------------------------------------------------------------- runs and what lookups see

  datatype Op = DidAdd(info: Info) | DidRemove(sid: string) | DidUpdateURL(sid: string, url: string)
              | DidSetFrameID(sid: string, frameID: string) | DidSetFrameIDIfEmpty(sid: string, frameID: string)

  function UpdateOf(op: Op): Info -> Info {
    match op
    case DidUpdateURL(_, url) => (i: Info) => i.(url := url)
    case DidSetFrameID(_, f) => (i: Info) => i.(frameID := f)
    case DidSetFrameIDIfEmpty(_, f) => (i: Info) => if i.frameID == "" then i.(frameID := f) else i
    case _ => (i: Info) => i
  }

  function Do(x: Index, op: Op): Index
    requires op.DidAdd? || (op.sid in x.sessions ==> x.sessions[op.sid] < |x.entries|)
  {
    match op
    case DidAdd(info) => Add(x, info)
    case DidRemove(sid) => Remove(x, sid)
    case _ => Update(x, op.sid, UpdateOf(op))
  }

  /** Any sequence of adds under free keys, removals and updates keeps the indexes coherent. */
  ghost predicate RunsTo(x: Index, ops: seq<Op>, y: Index)
    decreases |ops|
  {
    if ops == [] then x == y else
    var op := ops[0];
    && (if op.DidAdd? then KeysFree(x, op.info) else SessionEntryOk(x, op.sid))
    && RunsTo(Do(x, op), ops[1..], y)
  }

  lemma {:induction false} RunCoherent(x: Index, ops: seq<Op>, y: Index)
    requires Coherent(x) && RunsTo(x, ops, y)
    ensures Coherent(y)
    decreases |ops|
  {
    if ops != [] {
      match ops[0] {
        case DidAdd(info) => AddCoherentIff(x, info);
        case DidRemove(sid) => RemoveCoherent(x, sid);
        case _ => UpdateCoherent(x, ops[0].sid, UpdateOf(ops[0]));
      }
      RunCoherent(Do(x, ops[0]), ops[1..], y);
    }
  }

  /** An update through the session ID is seen through the target and Juggler indexes, and by nobody else. */
  lemma UpdateSeenEverywhere(x: Index, sid: string, f: Info -> Info, t: string, j: string)
    requires Coherent(x) && sid in x.sessions && forall i :: SameKeys(i, f(i))
    ensures SessionEntryOk(x, sid)
    ensures var y := Update(x, sid, f); var e := x.entries[x.sessions[sid]];
      && (t in x.targets ==> Lookup(y, y.targets, t) == (if t == e.target then Some(f(e)) else Lookup(x, x.targets, t)))
      && (j in x.jugglers
          ==> Lookup(y, y.jugglers, j) == (if j == e.juggler then Some(f(e)) else Lookup(x, x.jugglers, j)))
      && y.targets == x.targets && y.jugglers == x.jugglers && y.sessions == x.sessions
  {
    assert SessionEntryOk(x, sid) && TargetEntryOk(x, t) && JugglerEntryOk(x, j);
  }

  /** What is added is found under its session, and under its target and Juggler IDs if it has them; other keys stay. */
  lemma AddedIsFound(x: Index, info: Info, k: string)
    requires Coherent(x)
    ensures var y := Add(x, info);
      && Lookup(y, y.sessions, k) == (if k == info.sessionID then Some(info) else Lookup(x, x.sessions, k))
      && Lookup(y, y.targets, k)
           == (if k == info.target && k != "" then Some(info) else Lookup(x, x.targets, k))
      && Lookup(y, y.jugglers, k)
           == (if k == info.juggler && k != "" then Some(info) else Lookup(x, x.jugglers, k))
  {
    assert SessionEntryOk(x, k) && TargetEntryOk(x, k) && JugglerEntryOk(x, k);
  }

  /** What is removed is found no more under any of its keys; other keys stay. */
  lemma RemovedIsGone(x: Index, sid: string, k: string)
    requires Coherent(x)
    ensures var y := Remove(x, sid); var gone := Lookup(x, x.sessions, sid);
      && Lookup(y, y.sessions, k) == (if k == sid then None else Lookup(x, x.sessions, k))
      && Lookup(y, y.targets, k)
           == (if gone.Some? && k == gone.value.target then None else Lookup(x, x.targets, k))
      && Lookup(y, y.jugglers, k)
           == (if gone.Some? && k == gone.value.juggler then None else Lookup(x, x.jugglers, k))
  {
    assert SessionEntryOk(x, sid) && SessionEntryOk(x, k) && TargetEntryOk(x, k) && JugglerEntryOk(x, k);
  }

  /** What each update writes, as any of the three indexes shows it. */
  lemma UpdateMeaning(x: Index, sid: string, text: string)
    requires Coherent(x) && SessionEntryOk(x, sid) && sid in x.sessions
    ensures var e := x.entries[x.sessions[sid]];
      && ShownAs(Do(x, DidUpdateURL(sid, text)), sid, e, e.(url := text))
      && ShownAs(Do(x, DidSetFrameID(sid, text)), sid, e, e.(frameID := text))
      && ShownAs(Do(x, DidSetFrameIDIfEmpty(sid, text)), sid, e, if e.frameID == "" then e.(frameID := text) else e)
  {
    var e := x.entries[x.sessions[sid]];
    UpdateSeenEverywhere(x, sid, UpdateOf(DidUpdateURL(sid, text)), e.target, e.juggler);
    UpdateSeenEverywhere(x, sid, UpdateOf(DidSetFrameID(sid, text)), e.target, e.juggler);
    UpdateSeenEverywhere(x, sid, UpdateOf(DidSetFrameIDIfEmpty(sid, text)), e.target, e.juggler);
  }

  /** Wherever `was` was found, the index now shows `now`. */
  predicate ShownAs(y: Index, sid: string, was: Info, now: Info) {
    && Lookup(y, y.sessions, sid) == Some(now)
    && (was.target != "" ==> Lookup(y, y.targets, was.target) == Some(now))
    && (was.juggler != "" ==> Lookup(y, y.jugglers, was.juggler) == Some(now))
  }

  /** The tab entry hangs under "tab:" plus the Juggler ID, so the page keeps the Juggler lookup. */
  lemma TabKeepsPageLookup(x: Index, page: Info, tab: Info)
    requires page.juggler != "" && tab.juggler == "tab:" + page.juggler
    ensures var y := Add(Add(x, page), tab); Lookup(y, y.jugglers, page.juggler) == Some(page)
  {
    assert |tab.juggler| > |page.juggler|;
  }
}

module Sessions {
  import opened Common
  import opened SessionIndex

  class SessionInfo {
    const sessionID: string
    const juggler: string
    const target: string
    const browserContext: string
    const title: string
    const kind: string
    var url: string
    var frameID: string

    constructor (info: Info)
      ensures Value() == info
    {
      sessionID, juggler, target, browserContext := info.sessionID, info.juggler, info.target, info.browserContext;
      title, kind, url, frameID := info.title, info.kind, info.url, info.frameID;
    }

    function Value(): Info
      reads this
    {
      Info(sessionID, juggler, target, browserContext, url, title, kind, frameID)
    }
  }

  ghost predicate Agree(m: map<string, SessionInfo>, n: map<string, nat>, es: seq<SessionInfo>) {
    m.Keys == n.Keys && forall k | k in m :: n[k] < |es| && es[n[k]] == m[k]
  }

  lemma AgreeAdd(m: map<string, SessionInfo>, n: map<string, nat>, es: seq<SessionInfo>, now: bool, k: string,
      e: SessionInfo)
    requires Agree(m, n, es)
    ensures Agree(if now then m[k := e] else m, if now then n[k := |es|] else n, es + [e])
  {}

  class SessionManager {
    var sessions: map<string, SessionInfo>
    var targets: map<string, SessionInfo>
    var jugglerSessions: map<string, SessionInfo>
    ghost var entries: seq<SessionInfo>
    ghost var pool: set<SessionInfo>
    ghost var Model: Index

    ghost predicate Valid()
      reads this, pool
    {
      && |Model.entries| == |entries|
      && (forall i | 0 <= i < |entries| :: entries[i] in pool && entries[i].Value() == Model.entries[i])
      && (forall i, j | 0 <= i < j < |entries| :: entries[i] != entries[j])
      && Agree(sessions, Model.sessions, entries) && Agree(targets, Model.targets, entries)
      && Agree(jugglerSessions, Model.jugglers, entries)
    }

    constructor ()
      ensures Valid() && Model == EMPTY && pool == {}
    {
      sessions, targets, jugglerSessions := map[], map[], map[];
      entries, pool, Model := [], {}, EMPTY;
    }

    /** Keeps a copy: what the caller passed in stays the caller's. */
    method Add(given: SessionInfo)
      requires Valid()
      modifies this`sessions, this`targets, this`jugglerSessions, this`entries, this`pool, this`Model
      ensures Valid() && Model == SessionIndex.Add(old(Model), given.Value())
      ensures pool > old(pool) && fresh(pool - old(pool)) && given !in pool - old(pool)
    {
      var info := new SessionInfo(given.Value());
      AgreeAdd(sessions, Model.sessions, entries, true, info.sessionID, info);
      AgreeAdd(targets, Model.targets, entries, info.target != "", info.target, info);
      AgreeAdd(jugglerSessions, Model.jugglers, entries, info.juggler != "", info.juggler, info);
      entries, pool := entries + [info], pool + {info};
      sessions := sessions[info.sessionID := info];
      if info.target != "" { targets := targets[info.target := info]; }
      if info.juggler != "" { jugglerSessions := jugglerSessions[info.juggler := info]; }
      Model := SessionIndex.Add(Model, info.Value());
    }

    method Remove(sessionID: string)
      requires Valid()
      modifies this`sessions, this`targets, this`jugglerSessions, this`Model
      ensures Valid() && Model == SessionIndex.Remove(old(Model), sessionID)
      ensures sessionID !in Model.sessions
    {
      if sessionID in sessions {
        var info := sessions[sessionID];
        targets := targets - {info.target};
        jugglerSessions := jugglerSessions - {info.juggler};
        sessions := sessions - {sessionID};
        ghost var id := Model.sessions[sessionID];
        assert Model.entries[id] == info.Value();
        Model := Index(Model.sessions - {sessionID}, Model.targets - {info.target}, Model.jugglers - {info.juggler},
            Model.entries);
        assert Model == SessionIndex.Remove(old(Model), sessionID);
      }
    }

    /** Returns a copy that shares nothing with the store. */
    method GetByTarget(targetID: string) returns (info: SessionInfo?)
      requires Valid()
      ensures info != null ==> fresh(info) && Lookup(Model, Model.targets, targetID) == Some(info.Value())
      ensures info == null ==> Lookup(Model, Model.targets, targetID).None?
    {
      if targetID !in targets { return null; }
      info := new SessionInfo(targets[targetID].Value());
    }

    method GetByJugglerSession(jugglerSessionID: string) returns (info: SessionInfo?)
      requires Valid()
      ensures info != null ==> fresh(info) && Lookup(Model, Model.jugglers, jugglerSessionID) == Some(info.Value())
      ensures info == null ==> Lookup(Model, Model.jugglers, jugglerSessionID).None?
    {
      if jugglerSessionID !in jugglerSessions { return null; }
      info := new SessionInfo(jugglerSessions[jugglerSessionID].Value());
    }

    method Get(sessionID: string) returns (info: SessionInfo?)
      requires Valid()
      ensures info != null ==> fresh(info) && Lookup(Model, Model.sessions, sessionID) == Some(info.Value())
      ensures info == null ==> Lookup(Model, Model.sessions, sessionID).None?
    {
      if sessionID !in sessions { return null; }
      info := new SessionInfo(sessions[sessionID].Value());
    }

    method UpdateURL(sessionID: string, url: string)
      requires Valid()
      modifies this`Model, pool`url
      ensures old(sessionID in Model.sessions ==> Model.sessions[sessionID] < |Model.entries|)
      ensures Valid() && Model == Update(old(Model), sessionID, UpdateOf(DidUpdateURL(sessionID, url)))
    {
      if sessionID in sessions {
        sessions[sessionID].url := url;
        Model := Update(Model, sessionID, UpdateOf(DidUpdateURL(sessionID, url)));
      }
    }

    method SetFrameID(sessionID: string, frameID: string)
      requires Valid()
      modifies this`Model, pool`frameID
      ensures old(sessionID in Model.sessions ==> Model.sessions[sessionID] < |Model.entries|)
      ensures Valid() && Model == Update(old(Model), sessionID, UpdateOf(DidSetFrameID(sessionID, frameID)))
    {
      if sessionID in sessions {
        sessions[sessionID].frameID := frameID;
        Model := Update(Model, sessionID, UpdateOf(DidSetFrameID(sessionID, frameID)));
      }
    }

    method SetFrameIDIfEmpty(sessionID: string, frameID: string)
      requires Valid()
      modifies this`Model, pool`frameID
      ensures old(sessionID in Model.sessions ==> Model.sessions[sessionID] < |Model.entries|)
      ensures Valid() && Model == Update(old(Model), sessionID, UpdateOf(DidSetFrameIDIfEmpty(sessionID, frameID)))
    {
      if sessionID in sessions {
        if sessions[sessionID].frameID == "" { sessions[sessionID].frameID := frameID; }
        Model := Update(Model, sessionID, UpdateOf(DidSetFrameIDIfEmpty(sessionID, frameID)));
      }
    }
  }
}
