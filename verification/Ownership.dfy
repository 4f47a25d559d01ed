/**
 pkg/bridge/ownership.go as it stands: a registry of maps and of record objects that several
 keys share and that the methods edit in place. Each method is one lock region, and each is
 proved to do to the registry's value what OwnershipProtocol says that region does.
 */
module Ownership {
  import opened Common
  import opened OwnershipProtocol
  import opened OwnedTables

  /** Where the attachment of a page has been announced. */
  datatype Announced = Announced(root: bool, tab: bool)

  function Announce(a: Announced, parent: string): (Announced, bool) {
    if a.root then (a, false)
    else if parent == "" then (a.(root := true), true)
    else if a.tab then (a, false)
    else (a.(tab := true), true)
  }

  /** The parents under which a run of requests gets a page announced. */
  function Announcements(a: Announced, parents: seq<string>): seq<string>
    decreases |parents|
  {
    if parents == [] then [] else
    var (a', emitted) := Announce(a, parents[0]);
    (if emitted then [parents[0]] else []) + Announcements(a', parents[1..])
  }

  /**
   Whatever the order in which requests reach the guarded region, it lets through the first request for
   the root, and the first for a tab unless one for the root came before it; it lets through no other.
   */
  lemma {:induction false} AnnouncedInOrder(parents: seq<string>)
    ensures Announcements(Announced(false, false), parents) ==
      if parents == [] then []
      else if parents[0] == "" then [""]
      else if "" in parents then [parents[0], ""]
      else [parents[0]]
    decreases |parents|
  {
    if parents != [] {
      assert parents == [parents[0]] + parents[1..];
      if parents[0] == "" {
        NothingAfterRoot(false, parents[1..]);
      } else {
        OnlyRootAfterTab(parents[1..]);
      }
    }
  }

  lemma {:induction false} OnlyRootAfterTab(parents: seq<string>)
    ensures Announcements(Announced(false, true), parents) == if "" in parents then [""] else []
    decreases |parents|
  {
    if parents != [] {
      assert parents == [parents[0]] + parents[1..];
      if parents[0] == "" { NothingAfterRoot(true, parents[1..]); } else { OnlyRootAfterTab(parents[1..]); }
    }
  }

  lemma {:induction false} NothingAfterRoot(tab: bool, parents: seq<string>)
    ensures Announcements(Announced(true, tab), parents) == []
    decreases |parents|
  {
    if parents != [] { NothingAfterRoot(tab, parents[1..]); }
  }

  class TargetPair {
    const ids: Ids
    var url: string
    var pageAttachedRoot: bool
    var pageAttachedTab: bool

    constructor (ids: Ids, url: string)
      ensures this.ids == ids && this.url == url && Attached() == Announced(false, false)
    {
      this.ids, this.url := ids, url;
      pageAttachedRoot, pageAttachedTab := false, false;
    }

    function Attached(): Announced
      reads this
    {
      Announced(pageAttachedRoot, pageAttachedTab)
    }

    /** The guarded region of emitPageAttachOnSession; an empty parent is the root session. */
    method EmitPageAttach(parent: string) returns (emitted: bool)
      modifies this`pageAttachedRoot, this`pageAttachedTab
      ensures (Attached(), emitted) == Announce(old(Attached()), parent)
    {
      if parent == "" {
        if pageAttachedRoot { return false; }
        pageAttachedRoot := true;
      } else {
        if pageAttachedRoot { return false; }
        if pageAttachedTab { return false; }
        pageAttachedTab := true;
      }
      return true;
    }
  }

  class TargetRecord {
    const ids: Ids
    const pair: TargetPair?
    var owner: Option<Conn>
    var state: Lifecycle
    var cleaned: bool
    var cancelled: bool
    /** The place of this record among all records ever registered. */
    ghost const index: nat

    constructor (ids: Ids, pair: TargetPair?, owner: Option<Conn>, cancelled: bool, ghost index: nat)
      ensures this.ids == ids && this.pair == pair && this.index == index
      ensures Value() == Record(ids, owner, if cancelled then Closing else Open, pair != null, false, cancelled)
    {
      this.ids, this.pair, this.index := ids, pair, index;
      this.owner, this.cleaned, this.cancelled := owner, false, cancelled;
      this.state := if cancelled then Closing else Open;
    }

    function Value(): Record
      reads this
    {
      Record(ids, owner, state, pair != null, cleaned, cancelled)
    }
  }

  ghost predicate Places(r: TargetRecord, rs: seq<TargetRecord>, i: nat) {
    r.index == i && i < |rs| && rs[i] == r
  }

  /** Keys that name objects agree with keys that name places. */
  ghost predicate KeysAgree(m: map<string, TargetRecord>, n: map<string, nat>, rs: seq<TargetRecord>) {
    m.Keys == n.Keys && forall k | k in m :: Places(m[k], rs, n[k])
  }

  lemma KeysGrow(m: map<string, TargetRecord>, n: map<string, nat>, rs: seq<TargetRecord>, r: TargetRecord)
    requires KeysAgree(m, n, rs)
    ensures KeysAgree(m, n, rs + [r])
  {
    forall k | k in m ensures Places(m[k], rs + [r], n[k]) { assert Places(m[k], rs, n[k]); }
  }

  lemma KeysPut(m: map<string, TargetRecord>, n: map<string, nat>, rs: seq<TargetRecord>, k: string, r: TargetRecord)
    requires KeysAgree(m, n, rs) && Places(r, rs, r.index)
    ensures KeysAgree(m[k := r], n[k := r.index], rs)
  {}

  function Drop(m: map<string, TargetRecord>, k: string, r: TargetRecord): map<string, TargetRecord> {
    if k in m && m[k] == r then m - {k} else m
  }

  lemma KeysUnname(m: map<string, TargetRecord>, n: map<string, nat>, rs: seq<TargetRecord>, k: string, r: TargetRecord)
    requires KeysAgree(m, n, rs) && Places(r, rs, r.index)
    ensures KeysAgree(Drop(m, k, r), Unname(n, k, r.index), rs)
  {
    if k in m { assert Places(m[k], rs, n[k]); }
  }

  lemma KeysLeave(m: map<string, TargetRecord>, n: map<string, nat>, rs: seq<TargetRecord>, page: string,
      tab: string, r: TargetRecord)
    requires KeysAgree(m, n, rs) && Places(r, rs, r.index)
    ensures var m' := Drop(m, page, r);
      KeysAgree(if tab != "" then Drop(m', tab, r) else m', Leave(n, page, tab, r.index), rs)
  {
    KeysUnname(m, n, rs, page, r);
    KeysUnname(Drop(m, page, r), Unname(n, page, r.index), rs, tab, r);
  }

  /** `lost` lists each of the records numbered by `ids` once. */
  ghost predicate IsListOf(lost: seq<TargetRecord>, ids: set<nat>, rs: seq<TargetRecord>) {
    && Distinct(lost) && (forall r | r in lost :: Places(r, rs, r.index))
    && (forall id: nat :: id in ids <==> id < |rs| && rs[id] in lost)
  }

  /** Of the records numbered by `all`, those named by a key outside `todo` are done, and `lost` lists the done ones. */
  ghost predicate Collected(s: Registry, all: set<nat>, done: set<nat>, todo: set<string>, lost: seq<TargetRecord>,
      rs: seq<TargetRecord>) {
    && IsListOf(lost, done, rs) && done <= all
    && (forall k | k in s.targets && k !in todo && s.targets[k] in all :: s.targets[k] in done)
  }

  lemma CollectMore(s: Registry, all: set<nat>, done: set<nat>, todo: set<string>, lost: seq<TargetRecord>,
      rs: seq<TargetRecord>,
                    k: string, r: TargetRecord)
    requires Collected(s, all, done, todo, lost, rs) && k in todo && k in s.targets && Places(r, rs, s.targets[k])
    requires r !in lost && r.index in all && forall i | 0 <= i < |rs| :: rs[i].index == i
    ensures r.index !in done && Collected(s, all, done + {r.index}, todo - {k}, lost + [r], rs)
  {}

  lemma CollectSkip(s: Registry, all: set<nat>, done: set<nat>, todo: set<string>, lost: seq<TargetRecord>,
      rs: seq<TargetRecord>,
                    k: string, r: TargetRecord)
    requires Collected(s, all, done, todo, lost, rs) && k in todo && k in s.targets && Places(r, rs, s.targets[k])
    requires r.index in all ==> r in lost
    ensures Collected(s, all, done, todo - {k}, lost, rs)
  {}

  /** A record met for the second time has been orphaned, so the owner test leaves it out too. */
  lemma StillOpen(s: Registry, c: Conn, done: set<nat>, lost: seq<TargetRecord>, rs: seq<TargetRecord>, k: string,
      r: TargetRecord)
    requires IsListOf(lost, done, rs) && |rs| == |s.records| && k in s.targets && Places(r, rs, s.targets[k])
    ensures var q := Orphaned(s.records, done)[r.index];
      q.owner == Some(c) && r !in lost && q.state.Open? <==> r.index in OpenOf(s, c) && r !in lost
  {
    assert r.index in done <==> r in lost;
    assert r.index in OpenOf(s, c) <==> s.records[r.index].owner == Some(c) && s.records[r.index].state.Open?;
  }

  /** The records of `c` that are open and stand for a page. */
  function PairedOf(s: Registry, c: Conn): set<nat> {
    set id | id in OpenOf(s, c) && id < |s.records| && s.records[id].paired
  }

  /** In every reachable registry these are all of them. */
  lemma PairedIff(w: World, c: Conn, i: nat)
    requires Inv(w)
    ensures i in PairedOf(w.reg, c) <==>
      i < |w.reg.records| && w.reg.records[i].owner == Some(c) && w.reg.records[i].state.Open?
          && w.reg.records[i].paired
  {
    if i < |w.reg.records| { OpenOfNamed(w, c, i); }
  }

  function LostClaims(s: Registry, c: Conn): set<string> {
    set k | k in s.claims && s.claims[k].owner == c
  }

  function Lost(s: Registry, ts: set<string>): Registry {
    s.(claims := s.claims - ts, cancelledTargets := s.cancelledTargets + ts)
  }

  lemma LostMore(s: Registry, done: set<string>, t: string)
    ensures Lost(s, done).claims - {t} == Lost(s, done + {t}).claims
    ensures Lost(s, done).cancelledTargets + {t} == Lost(s, done + {t}).cancelledTargets
  {}

  lemma OrphanedNone(s: Registry)
    ensures s == s.(records := Orphaned(s.records, {}))
  {
    assert s.records == Orphaned(s.records, {});
  }

  lemma OrphanedMore(s: Registry, done: set<nat>, id: nat)
    requires id < |s.records| && id !in done
    ensures Orphaned(s.records, done + {id})
         == Orphaned(s.records, done)[id := Orphaned(s.records, done)[id].(owner := None, state := Closing)]
  {}

  class OwnershipRegistry {
    var nextGeneration: nat
    var connections: map<Conn, ConnState>
    var targets: map<string, TargetRecord>
    var sessions: map<string, TargetRecord>
    var browserSessions: map<string, Conn>
    var pending: map<nat, Claim>
    var claims: map<string, Claim>
    var cancelledTargets: set<string>
    var requestOwners: map<string, string>
    /** Every record ever registered, oldest first. */
    ghost var records: seq<TargetRecord>
    /** The same records as a set, for frames. */
    ghost var pool: set<TargetRecord>
    /** The registry's value. */
    ghost var Model: Registry

    ghost predicate Holds(r: TargetRecord)
      reads this
    {
      r in pool && r.index < |records| && records[r.index] == r
    }

    ghost predicate RecordsAgree()
      reads this, pool
    {
      && |Model.records| == |records|
      && forall i | 0 <= i < |records| :: records[i] in pool && records[i].index == i
          && records[i].Value() == Model.records[i]
    }

    ghost predicate Valid()
      reads this, pool
    {
      && RecordsAgree() && KeysAgree(targets, Model.targets, records) && KeysAgree(sessions, Model.sessions, records)
      && Model.nextGeneration == nextGeneration && Model.connections == connections
      && Model.browserSessions == browserSessions && Model.pending == pending
      && Model.claims == claims && Model.cancelledTargets == cancelledTargets
    }

    constructor ()
      ensures Valid() && Model == EMPTY && requestOwners == map[] && records == []
    {
      nextGeneration, connections, targets, sessions := 0, map[], map[], map[];
      browserSessions, pending, claims, cancelledTargets := map[], map[], map[], {};
      requestOwners, records, pool, Model := map[], [], {}, EMPTY;
    }

    lemma KeysInRange()
      requires Valid()
      ensures TargetsInRange(Model) && SessionsInRange(Model)
    {
      forall k | k in Model.targets ensures Model.targets[k] < |Model.records| {
        assert Places(targets[k], records, Model.targets[k]);
      }
      forall k | k in Model.sessions ensures Model.sessions[k] < |Model.records| {
        assert Places(sessions[k], records, Model.sessions[k]);
      }
    }

    /** stateLocked: connections are entered on first sight and never taken out. */
    method StateLocked(c: Conn)
      requires Valid()
      modifies this`connections, this`Model
      ensures Valid()
      ensures Model == Touch(old(Model), c)
    {
      if c !in connections {
        connections := connections[c := ConnState(false, false, false)];
      }
      Model := Touch(Model, c);
    }

    function ConnectionClosedLocked(c: Option<Conn>): bool
      reads this
    {
      c.None? || c.value !in connections || connections[c.value].closed
    }

    method BeginCreateLocked(c: Conn) returns (generation: nat)
      requires Valid()
      modifies this`connections, this`nextGeneration, this`pending, this`Model
      ensures Valid()
      ensures Model == BeginCreate(old(Model), c) && generation == nextGeneration
    {
      StateLocked(c);
      nextGeneration := nextGeneration + 1;
      var claim := Claim(c, nextGeneration);
      pending := pending[claim.generation := claim];
      Model := Model.(nextGeneration := nextGeneration, pending := pending);
      generation := claim.generation;
    }

    method FinishCreateLocked(generation: nat)
      requires Valid()
      modifies this`pending, this`Model
      ensures Valid()
      ensures Model == FinishCreate(old(Model), generation)
    {
      pending := pending - {generation};
      Model := FinishCreate(Model, generation);
    }

    /** The part of claimTarget taken when the backend attach came first. */
    method ClaimAttached(claim: Claim, cancelled: bool, record: TargetRecord)
      requires Valid() && Holds(record)
      modifies this`connections, this`Model, record
      ensures Valid()
      ensures var s := old(Model); var r := s.records[record.index];
        Model == if cancelled then SetRecord(s, record.index, r.(cancelled := true, state := Closing))
                 else if r.owner.None? && r.state.Open? then
                   SetRecord(Touch(s, claim.owner), record.index, r.(owner := Some(claim.owner)))
                 else s
    {
      if cancelled {
        record.cancelled := true;
        record.state := Closing;
        Model := SetRecord(Model, record.index, record.Value());
      } else if record.owner.None? && record.state.Open? {
        record.owner := Some(claim.owner);
        Model := SetRecord(Model, record.index, record.Value());
        StateLocked(claim.owner);
      }
    }

    method ClaimTargetLocked(c: Conn, targetID: string, generation: nat) returns (record: TargetRecord?)
      requires Valid()
      modifies this`connections, this`claims, this`cancelledTargets, this`Model, pool
      ensures Valid()
      ensures var (s, id) := ClaimTarget(old(Model), c, targetID, generation);
        && Model == s
        && (record != null <==> id.Some?) && (record != null ==> Holds(record) && record.index == id.value)
    {
      if targetID == "" { return null; }
      var claim := if generation in pending then pending[generation] else Claim(c, generation);
      var cancelled := ConnectionClosedLocked(Some(claim.owner));
      if targetID in targets {
        record := targets[targetID];
        ClaimAttached(claim, cancelled, record);
        return record;
      }
      if cancelled {
        cancelledTargets := cancelledTargets + {targetID};
      } else {
        claims := claims[targetID := claim];
      }
      Model := Model.(claims := claims, cancelledTargets := cancelledTargets);
      return null;
    }

    function OwnerForTargetLocked(targetID: string): (owner: Option<Conn>)
      requires Valid()
      reads this, pool
      ensures owner == OwnerForTarget(Model, targetID)
    {
      if targetID !in targets then None else
      var record := targets[targetID];
      if !record.state.Open? || ConnectionClosedLocked(record.owner) then None else record.owner
    }

    function SessionOwnerLocked(sessionID: string): (owner: Option<Conn>)
      requires Valid()
      reads this, pool
      ensures owner == SessionOwner(Model, sessionID)
    {
      if sessionID == "" then None
      else if sessionID in sessions then
        var record := sessions[sessionID];
        if record.state.Open? && !ConnectionClosedLocked(record.owner) then record.owner else None
      else if sessionID in browserSessions && !ConnectionClosedLocked(Some(browserSessions[sessionID])) then
        Some(browserSessions[sessionID])
      else None
    }

    function RecordForTarget(targetID: string): (record: TargetRecord?)
      requires Valid()
      reads this, pool
      ensures record != null <==> targetID in targets
      ensures record != null ==> Holds(record) && Model.targets[targetID] == record.index
    {
      if targetID in targets then targets[targetID] else null
    }

    function RecordForSession(sessionID: string): (record: TargetRecord?)
      requires Valid()
      reads this, pool
      ensures record != null <==> sessionID in sessions
      ensures record != null ==> Holds(record) && Model.sessions[sessionID] == record.index
    {
      if sessionID in sessions then sessions[sessionID] else null
    }

    /**
     What registerPair and registerWorker make of the owner they were given: a claim or a cancellation
     overrules it.
     */
    method TakeClaim(owner: Option<Conn>, targetID: string) returns (o: Option<Conn>, cancelled: bool)
      requires Valid()
      modifies this`connections, this`claims, this`cancelledTargets, this`Model
      ensures Valid()
      ensures cancelled == RegisterCancelled(old(Model), targetID) && o == RegisterOwner(old(Model), owner, targetID)
      ensures var s := old(Model);
        Model == (if o.Some? then Touch(s, o.value) else s).(
          claims := s.claims - {targetID}, cancelledTargets := s.cancelledTargets - {targetID})
    {
      hide KeysAgree;
      o, cancelled := owner, targetID in cancelledTargets;
      if targetID in claims {
        o := Some(claims[targetID].owner);
        cancelled := ConnectionClosedLocked(o);
        claims := claims - {targetID};
      }
      cancelledTargets := cancelledTargets - {targetID};
      Model := Model.(claims := claims, cancelledTargets := cancelledTargets);
      if o.Some? && !cancelled {
        StateLocked(o.value);
      } else if cancelled {
        o := None;
      }
    }

    method NewRecord(ids: Ids, pair: TargetPair?, owner: Option<Conn>, cancelled: bool) returns (record: TargetRecord)
      requires Valid()
      modifies this`records, this`pool, this`Model
      ensures Valid() && fresh(record) && records == old(records) + [record] && pool == old(pool) + {record}
      ensures record.pair == pair && record.ids == ids && record.index == |old(records)|
      ensures var r := Record(ids, owner, if cancelled then Closing else Open, pair != null, false, cancelled);
        Model == old(Model).(records := old(Model).records + [r])
    {
      record := new TargetRecord(ids, pair, owner, cancelled, |records|);
      KeysGrow(targets, Model.targets, records, record);
      KeysGrow(sessions, Model.sessions, records, record);
      records, pool := records + [record], pool + {record};
      Model := Model.(records := Model.records + [record.Value()]);
    }

    method EnterTarget(key: string, record: TargetRecord)
      requires Valid() && Holds(record)
      modifies this`targets, this`Model
      ensures Valid() && Model == old(Model).(targets := old(Model).targets[key := record.index])
    {
      KeysPut(targets, Model.targets, records, key, record);
      targets := targets[key := record];
      Model := Model.(targets := Model.targets[key := record.index]);
    }

    method EnterSession(key: string, record: TargetRecord)
      requires Valid() && Holds(record)
      modifies this`sessions, this`Model
      ensures Valid() && Model == old(Model).(sessions := old(Model).sessions[key := record.index])
    {
      KeysPut(sessions, Model.sessions, records, key, record);
      sessions := sessions[key := record];
      Model := Model.(sessions := Model.sessions[key := record.index]);
    }

    method RegisterPair(owner: Option<Conn>, pair: TargetPair) returns (record: TargetRecord)
      requires Valid()
      modifies this`connections, this`claims, this`cancelledTargets, this`records, this`pool, this`targets,
          this`sessions, this`Model
      ensures Valid() && fresh(record) && Holds(record)
      ensures records == old(records) + [record] && pool == old(pool) + {record}
      ensures record.pair == pair && record.ids == pair.ids && record.index == |old(records)|
      ensures Model == Register(old(Model), owner, pair.ids, true).0
    {
      var o, cancelled := TakeClaim(owner, pair.ids.pageTarget);
      record := NewRecord(pair.ids, pair, o, cancelled);
      EnterTarget(pair.ids.pageTarget, record);
      EnterTarget(pair.ids.tabTarget, record);
      EnterSession(pair.ids.pageSession, record);
      EnterSession(pair.ids.tabSession, record);
    }

    method RegisterWorker(owner: Option<Conn>, targetID: string, sessionID: string, jugglerSessionID: string)
      returns (record: TargetRecord)
      requires Valid()
      modifies this`connections, this`claims, this`cancelledTargets, this`records, this`pool, this`targets,
          this`sessions, this`Model
      ensures Valid() && fresh(record) && Holds(record)
      ensures records == old(records) + [record] && pool == old(pool) + {record}
      ensures record.pair == null && record.ids == Ids(targetID, "", sessionID, "", jugglerSessionID)
      ensures record.index == |old(records)|
      ensures Model == Register(old(Model), owner, record.ids, false).0
    {
      var o, cancelled := TakeClaim(owner, targetID);
      record := NewRecord(Ids(targetID, "", sessionID, "", jugglerSessionID), null, o, cancelled);
      EnterTarget(targetID, record);
      EnterSession(sessionID, record);
    }

    method RegisterBrowserSessionLocked(c: Conn, sessionID: string)
      requires Valid()
      modifies this`connections, this`browserSessions, this`Model
      ensures Valid()
      ensures Model == RegisterBrowserSession(old(Model), c, sessionID)
    {
      if sessionID == "" { return; }
      StateLocked(c);
      browserSessions := browserSessions[sessionID := c];
      Model := Model.(browserSessions := browserSessions);
    }

    method ExpireClaimLocked(targetID: string, generation: nat) returns (expired: bool)
      requires Valid()
      modifies this`claims, this`cancelledTargets, this`Model
      ensures Valid()
      ensures (Model, expired) == ExpireClaim(old(Model), targetID, generation)
    {
      if targetID !in claims || claims[targetID].generation != generation { return false; }
      claims := claims - {targetID};
      cancelledTargets := cancelledTargets + {targetID};
      Model := Model.(claims := claims, cancelledTargets := cancelledTargets);
      return true;
    }

    /** Closes a record in place; every key that names it sees the change. */
    method MarkCancelled(record: TargetRecord)
      requires Valid() && Holds(record)
      modifies this`Model, record`cancelled, record`state
      ensures Valid()
      ensures Model == SetRecord(old(Model), record.index,
          old(Model).records[record.index].(cancelled := true, state := Closing))
    {
      record.cancelled := true;
      record.state := Closing;
      Model := SetRecord(Model, record.index, record.Value());
    }

    method CancelClaim(targetID: string)
      requires Valid()
      modifies this`claims, this`cancelledTargets, this`Model
      ensures Valid()
      ensures Model == old(Model).(claims := old(Model).claims - {targetID},
          cancelledTargets := old(Model).cancelledTargets + {targetID})
    {
      if targetID in claims { claims := claims - {targetID}; }
      cancelledTargets := cancelledTargets + {targetID};
      Model := Model.(claims := Model.claims - {targetID}, cancelledTargets := cancelledTargets);
    }

    method CancelTargetLocked(targetID: string) returns (record: TargetRecord?)
      requires Valid()
      modifies this`claims, this`cancelledTargets, this`Model, pool`cancelled, pool`state
      ensures Valid() && TargetsInRange(old(Model))
      ensures var (s, id) := CancelTarget(old(Model), targetID);
        && Model == s
        && (record != null <==> id.Some?) && (record != null ==> Holds(record) && record.index == id.value)
    {
      KeysInRange();
      if targetID == "" { return null; }
      CancelClaim(targetID);
      record := RecordForTarget(targetID);
      if record != null { MarkCancelled(record); }
    }

    method BeginCleanupLocked(record: TargetRecord) returns (won: bool)
      requires Valid() && Holds(record)
      modifies this`Model, record
      ensures Valid()
      ensures (Model, won) == BeginCleanup(old(Model), record.index)
    {
      if record.cleaned || record.state.Closed? { return false; }
      record.state := Closing;
      record.cleaned := true;
      Model := SetRecord(Model, record.index, record.Value());
      return true;
    }

    /** Takes out the page and tab keys that still name `record`. */
    method LeaveTargets(record: TargetRecord)
      requires Valid() && Holds(record)
      modifies this`targets, this`Model
      ensures Valid()
      ensures Model == old(Model).(
        targets := Leave(old(Model).targets, record.ids.pageTarget, record.ids.tabTarget, record.index))
    {
      KeysLeave(targets, Model.targets, records, record.ids.pageTarget, record.ids.tabTarget, record);
      Model := Model.(targets := Leave(Model.targets, record.ids.pageTarget, record.ids.tabTarget, record.index));
      targets := Drop(targets, record.ids.pageTarget, record);
      if record.ids.tabTarget != "" { targets := Drop(targets, record.ids.tabTarget, record); }
    }

    method LeaveSessions(record: TargetRecord)
      requires Valid() && Holds(record)
      modifies this`sessions, this`Model
      ensures Valid()
      ensures Model == old(Model).(
        sessions := Leave(old(Model).sessions, record.ids.pageSession, record.ids.tabSession, record.index))
    {
      KeysLeave(sessions, Model.sessions, records, record.ids.pageSession, record.ids.tabSession, record);
      Model := Model.(sessions := Leave(Model.sessions, record.ids.pageSession, record.ids.tabSession, record.index));
      sessions := Drop(sessions, record.ids.pageSession, record);
      if record.ids.tabSession != "" { sessions := Drop(sessions, record.ids.tabSession, record); }
    }

    method RemoveLocked(record: TargetRecord)
      requires Valid() && Holds(record)
      modifies this`targets, this`sessions, this`Model, record`state
      ensures Valid() && Model == Remove(old(Model), record.index)
    {
      LeaveTargets(record);
      LeaveSessions(record);
      record.state := Closed;
      Model := SetRecord(Model, record.index, record.Value());
    }

    // -------------------------------------------------------------- disconnect

    method DropPending(c: Conn)
      requires Valid()
      modifies this`pending, this`Model
      ensures Valid()
      ensures Model == old(Model).(
        pending := map g | g in old(pending) && old(pending)[g].owner != c :: old(pending)[g])
    {
      var todo := pending.Keys;
      while todo != {}
        invariant Valid()
        invariant Model == old(Model).(pending := pending)
        invariant todo <= old(pending).Keys
        invariant forall g :: g in pending <==> g in old(pending) && (g in todo || old(pending)[g].owner != c)
        invariant forall g | g in pending :: pending[g] == old(pending)[g]
        decreases todo
      {
        var g :| g in todo;
        todo := todo - {g};
        if pending[g].owner == c {
          pending := pending - {g};
          Model := Model.(pending := pending);
        }
      }
    }

    method DropClaims(c: Conn)
      requires Valid()
      modifies this`claims, this`cancelledTargets, this`Model
      ensures Valid() && Model == Lost(old(Model), LostClaims(old(Model), c))
    {
      ghost var s, lost := Model, LostClaims(Model, c);
      var todo := claims.Keys;
      while todo != {}
        invariant Model == s && todo <= s.claims.Keys
        invariant claims == Lost(s, lost - todo).claims && cancelledTargets == Lost(s, lost - todo).cancelledTargets
        decreases todo
      {
        var t :| t in todo;
        assert claims[t] == s.claims[t];
        LostMore(s, lost - todo, t);
        if claims[t].owner == c {
          claims := claims - {t};
          cancelledTargets := cancelledTargets + {t};
          assert lost - (todo - {t}) == (lost - todo) + {t};
        } else {
          assert lost - (todo - {t}) == lost - todo;
        }
        todo := todo - {t};
      }
      assert lost - todo == lost;
      Model := Lost(s, lost);
    }

    method DropBrowserSessions(c: Conn)
      requires Valid()
      modifies this`browserSessions, this`Model
      ensures Valid()
      ensures Model == old(Model).(
        browserSessions := map k | k in old(browserSessions) && old(browserSessions)[k] != c :: old(browserSessions)[k])
    {
      var todo := browserSessions.Keys;
      while todo != {}
        invariant Valid()
        invariant Model == old(Model).(browserSessions := browserSessions)
        invariant todo <= old(browserSessions).Keys
        invariant forall k ::
          k in browserSessions <==> k in old(browserSessions) && (k in todo || old(browserSessions)[k] != c)
        invariant forall k | k in browserSessions :: browserSessions[k] == old(browserSessions)[k]
        decreases todo
      {
        var k :| k in todo;
        todo := todo - {k};
        if browserSessions[k] == c {
          browserSessions := browserSessions - {k};
          Model := Model.(browserSessions := browserSessions);
        }
      }
    }

    method Orphan(record: TargetRecord)
      requires Valid() && Holds(record)
      modifies this`Model, record`owner, record`state
      ensures Valid()
      ensures Model == SetRecord(old(Model), record.index,
          old(Model).records[record.index].(owner := None, state := Closing))
    {
      record.owner := None;
      record.state := Closing;
      Model := SetRecord(Model, record.index, record.Value());
    }

    /** The loop over the target keys: a record is met under up to two keys and collected once. */
    method CollectOpen(c: Conn) returns (lost: seq<TargetRecord>)
      requires Valid()
      modifies this`Model, pool`owner, pool`state
      ensures Valid()
      ensures IsListOf(lost, OpenOf(old(Model), c), records)
      ensures Model == old(Model).(records := Orphaned(old(Model).records, OpenOf(old(Model), c)))
    {
      lost := [];
      ghost var s, done: set<nat> := Model, {};
      var todo := targets.Keys;
      OrphanedNone(s);
      while todo != {}
        invariant Valid() && todo <= s.targets.Keys
        invariant Model == s.(records := Orphaned(s.records, done))
        invariant Collected(s, OpenOf(s, c), done, todo, lost, records)
        decreases todo
      {
        var k :| k in todo;
        var record := targets[k];
        assert Places(record, records, s.targets[k]);
        StillOpen(s, c, done, lost, records, k, record);
        if record.owner == Some(c) && record !in lost && record.state.Open? {
          CollectMore(s, OpenOf(s, c), done, todo, lost, records, k, record);
          OrphanedMore(s, done, record.index);
          Orphan(record);
          lost := lost + [record];
          done := done + {record.index};
        } else {
          CollectSkip(s, OpenOf(s, c), done, todo, lost, records, k, record);
        }
        todo := todo - {k};
      }
      assert done == OpenOf(s, c);
    }

    method CloseConnectionLocked(c: Conn) returns (lost: seq<TargetRecord>)
      requires Valid()
      modifies this`connections, this`pending, this`claims, this`cancelledTargets, this`browserSessions, this`Model,
          pool
      ensures Valid()
      ensures Model == CloseConnection(old(Model), c).0
      ensures IsListOf(lost, CloseConnection(old(Model), c).1, records)
    {
      StateLocked(c);
      if connections[c].closed { return []; }
      connections := connections[c := connections[c].(closed := true)];
      Model := Model.(connections := connections);
      DropPending(c);
      DropClaims(c);
      DropBrowserSessions(c);
      lost := CollectOpen(c);
    }

    // -------------------------------------------------------------- discovery and auto-attach

    method SetDiscoverLocked(c: Conn, enabled: bool)
      requires Valid()
      modifies this`connections, this`Model
      ensures Valid() && Model == SetDiscover(old(Model), c, enabled)
    {
      StateLocked(c);
      connections := connections[c := connections[c].(discover := enabled)];
      Model := Model.(connections := connections);
    }

    method SetAutoAttachLocked(c: Conn, enabled: bool)
      requires Valid()
      modifies this`connections, this`Model
      ensures Valid() && Model == SetAutoAttach(old(Model), c, enabled)
    {
      StateLocked(c);
      connections := connections[c := connections[c].(autoAttach := enabled)];
      Model := Model.(connections := connections);
    }

    function DiscoverEnabled(c: Conn): bool
      reads this
    {
      c in connections && !connections[c].closed && connections[c].discover
    }

    function AutoAttachEnabled(c: Conn): bool
      reads this
    {
      c in connections && !connections[c].closed && connections[c].autoAttach
    }

    /** The pairs of the open records of `c`, each once although two keys lead to it; `from` says whose they are. */
    method OwnedPairs(c: Conn) returns (pairs: seq<TargetPair>, ghost from: seq<TargetRecord>)
      requires Valid()
      ensures IsListOf(from, PairedOf(Model, c), records)
      ensures |pairs| == |from| && forall i | 0 <= i < |pairs| :: pairs[i] == from[i].pair
    {
      pairs, from := [], [];
      var seen: seq<TargetRecord> := [];
      ghost var done: set<nat> := {};
      var todo := targets.Keys;
      while todo != {}
        invariant todo <= targets.Keys && seen == from
        invariant Collected(Model, PairedOf(Model, c), done, todo, from, records)
        invariant |pairs| == |from| && forall i | 0 <= i < |pairs| :: pairs[i] == from[i].pair
        decreases todo
      {
        var k :| k in todo;
        var record := targets[k];
        assert Places(record, records, Model.targets[k]) && record.Value() == Model.records[record.index];
        assert record.index in PairedOf(Model, c)
            <==> record.owner == Some(c) && record.state.Open? && record.pair != null;
        if record in seen || record.owner != Some(c) || !record.state.Open? || record.pair == null {
          CollectSkip(Model, PairedOf(Model, c), done, todo, from, records, k, record);
        } else {
          CollectMore(Model, PairedOf(Model, c), done, todo, from, records, k, record);
          seen, pairs, from := seen + [record], pairs + [record.pair], from + [record];
          done := done + {record.index};
        }
        todo := todo - {k};
      }
      assert done == PairedOf(Model, c);
    }

    // -------------------------------------------------------------- requests

    method SetRequestOwner(requestID: string, sessionID: string)
      modifies this`requestOwners
      ensures requestOwners ==
        if requestID == "" || sessionID == "" then old(requestOwners) else old(requestOwners)[requestID := sessionID]
    {
      if requestID == "" || sessionID == "" { return; }
      requestOwners := requestOwners[requestID := sessionID];
    }

    /** clearRequests: the loop that forgets every request of a session. */
    method ClearRequests(sessionID: string)
      requires Valid()
      modifies this`requestOwners
      ensures Valid()
      ensures requestOwners == Cut(old(requestOwners), KeysOf(old(requestOwners), sessionID))
    {
      var requests, _ := DropOwned(requestOwners, requestOwners, sessionID);
      requestOwners := requests;
    }

    method ClearRequest(requestID: string)
      modifies this`requestOwners
      ensures requestOwners == if requestID == "" then old(requestOwners) else old(requestOwners) - {requestID}
    {
      if requestID == "" { return; }
      requestOwners := requestOwners - {requestID};
    }
  }
}
