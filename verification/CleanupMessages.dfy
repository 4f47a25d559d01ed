/**
 What clients and the backend are told in the course of cleanups, over every interleaving of them:
 the messages of the body of closeRecord (pkg/bridge/bridge.go) and the owner they go to.
 */
module CleanupMessages {
  import opened Common
  import P = OwnershipProtocol
  import R = OwnershipRuns
  import opened CleanupProtocol
  import opened CleanupRuns

  type Conn = P.Conn

  // ---------------------------------------------------------------- what one cleanup says

  /** What the steps of one record's cleanup add to the notices in a run. */
  ghost function Said<Pair>(y: System<Pair>, ss: seq<Step<Pair>>, id: nat): seq<Notice>
    requires Possible(y, ss)
    decreases |ss|
  {
    if ss == [] then [] else
    var y' := Next(y, ss[0]);
    (if ss[0].Proceed? && ss[0].id == id then Added(y.b.notices, y'.b.notices) else []) + Said(y', ss[1..], id)
  }

  function Added(before: seq<Notice>, after: seq<Notice>): seq<Notice> {
    if |before| <= |after| then after[|before|..] else []
  }

  /** The messages that are due once the cleanup has got to a stage. */
  function Due(stage: nat, owner: Option<Conn>, ids: P.Ids): seq<Notice> {
    if owner.None? || stage <= 15 then []
    else if stage == 16 then [Detached(owner.value, ids.pageSession, ids.pageTarget)]
    else [Detached(owner.value, ids.pageSession, ids.pageTarget), Destroyed(owner.value, ids.pageTarget)]
  }

  function DueOf<Pair>(y: System<Pair>, id: nat): seq<Notice> {
    if id in y.stages && id in y.owners && id < |y.w.reg.records| then
      Due(y.stages[id], y.owners[id], y.w.reg.records[id].ids)
    else []
  }

  lemma DueAdvances(stage: nat, owner: Option<Conn>, ids: P.Ids)
    ensures Due(stage + 1, owner, ids) == Due(stage, owner, ids) + PartingAt(stage, owner, ids)
    ensures stage >= LAST ==> Due(stage + 1, owner, ids) == Due(stage, owner, ids)
    ensures Due(0, owner, ids) == []
  {}

  lemma AddedOf(a: seq<Notice>, b: seq<Notice>)
    ensures Added(a, a + b) == b && Added(a, a) == []
  {}

  /** A region of the cleanup sends what is due next. */
  lemma SaysWhatIsDue<Pair>(y: System<Pair>, id: nat, ok: bool)
    requires SysInv(y) && Enabled(y, Proceed(id, ok))
    ensures var y' := Next(y, Proceed(id, ok)); DueOf(y', id) == DueOf(y, id) + Added(y.b.notices, y'.b.notices)
  {
    var n, owner, ids := y.stages[id], y.owners[id], y.w.reg.records[id].ids;
    ProceedParts(y, id, ok);
    R.LaterRemove(y.w.reg, id, id);
    DueAdvances(n, owner, ids);
    AddedOf(y.b.notices, PartingAt(n, owner, ids));
    assert DueOf(y, id) + [] == DueOf(y, id);
    hide SysInv, Enabled, Next, P.Remove, Due, PartingAt, Added, TableRegion, IndexRegion, PairsRegion, Without,
        DisableFetchIfUnused;
  }

  /** Any other step leaves what is due as it is. */
  lemma OthersSayNothingForIt<Pair>(y: System<Pair>, s: Step<Pair>, id: nat)
    requires SysInv(y) && Enabled(y, s) && !(s.Proceed? && s.id == id)
    ensures DueOf(Next(y, s), id) == DueOf(y, id)
  {
    assert StageOk(y, id);
    if id in y.stages {
      RecordsStay(y, s, id);
      StageAdvances(y, s, id);
      OwnerStays(y, s, id);
      hide SysInv, Enabled, Next, Due, StageOk;
    } else {
      NothingDue(y, s, id);
    }
  }

  /** The owner that the closer had read stays. */
  lemma OwnerStays<Pair>(y: System<Pair>, s: Step<Pair>, id: nat)
    requires SysInv(y) && Enabled(y, s) && id in y.stages
    ensures id in y.owners && id in Next(y, s).owners && Next(y, s).owners[id] == y.owners[id]
  {
    assert StageOk(y, id);
    match s
    case Attempt(i, owner, closeBackend) => AttemptParts(y, i, owner, closeBackend);
    case Proceed(i, ok) => ProceedParts(y, i, ok);
    case _ =>
  }

  lemma NothingDue<Pair>(y: System<Pair>, s: Step<Pair>, id: nat)
    requires SysInv(y) && Enabled(y, s) && !(s.Proceed? && s.id == id) && id !in y.stages
    ensures DueOf(Next(y, s), id) == []
  {
    match s
    case Attempt(i, owner, closeBackend) => AttemptParts(y, i, owner, closeBackend);
    case Proceed(i, ok) => ProceedParts(y, i, ok);
    case _ =>
  }

  lemma {:induction false} SaidIsDue<Pair>(y: System<Pair>, ss: seq<Step<Pair>>, id: nat)
    requires SysInv(y) && Possible(y, ss)
    ensures DueOf(y, id) + Said(y, ss, id) == DueOf(End(y, ss), id)
    decreases |ss|
  {
    if ss == [] {
      assert DueOf(y, id) + [] == DueOf(y, id);
    } else {
      var s := ss[0];
      if s.Proceed? && s.id == id { SaysWhatIsDue(y, id, s.ok); } else { OthersSayNothingForIt(y, s, id); }
      SysInvNext(y, s);
      hide SysInv, Enabled, Next, DueOf, Added;
      var y' := Next(y, s);
      SaidIsDue(y', ss[1..], id);
      if s.Proceed? && s.id == id {
        Regroup(DueOf(y, id), Added(y.b.notices, y'.b.notices), Said(y', ss[1..], id));
      } else {
        assert [] + Said(y', ss[1..], id) == Said(y', ss[1..], id);
      }
    }
  }

  lemma Regroup<T>(a: seq<T>, b: seq<T>, c: seq<T>)
    ensures (a + b) + c == a + (b + c)
  {}

  /**
   However cleanups are interleaved, once the cleanup of a record has finished it has sent exactly
   two messages to the owner that its closer had read, first that the page's session is detached
   and then that the target is gone; or none, if the closer had read no owner.
   */
  lemma SaidByCleanup<Pair>(y: System<Pair>, ss: seq<Step<Pair>>, id: nat)
    requires SysInv(y) && Possible(y, ss) && id !in y.stages && StageOf(End(y, ss), id) == FINISHED
    ensures var y' := End(y, ss);
      && id < |y'.w.reg.records| && id in y'.owners
      && var ids := y'.w.reg.records[id].ids;
         match y'.owners[id]
         case None => Said(y, ss, id) == []
         case Some(c) => Said(y, ss, id) == [Detached(c, ids.pageSession, ids.pageTarget), Destroyed(c, ids.pageTarget)]
  {
    SysInvRun(y, ss);
    SaidIsDue(y, ss, id);
    FinishedRecord(End(y, ss), id);
    assert StageOk(End(y, ss), id);
    assert [] + Said(y, ss, id) == Said(y, ss, id);
    hide SysInv, Possible, Said, End, StageOk;
  }

  // ---------------------------------------------------------------- nobody else says it

  /** How often a session is reported detached. */
  function Detachments(ns: seq<Notice>, sid: string): nat {
    if ns == [] then 0 else (if ns[0].Detached? && ns[0].session == sid then 1 else 0) + Detachments(ns[1..], sid)
  }

  lemma {:induction false} DetachmentsAppend(a: seq<Notice>, b: seq<Notice>, sid: string)
    ensures Detachments(a + b, sid) == Detachments(a, sid) + Detachments(b, sid)
  {
    if a == [] {
      assert a + b == b;
    } else {
      assert (a + b)[0] == a[0] && (a + b)[1..] == a[1..] + b;
      DetachmentsAppend(a[1..], b, sid);
    }
  }

  lemma {:induction false} NoPartings(ns: seq<Notice>, sid: string)
    requires forall n | n in ns :: !Parting(n)
    ensures Detachments(ns, sid) == 0
  {
    if ns != [] {
      assert ns[0] in ns;
      NoPartings(ns[1..], sid);
    }
  }

  /** No two records ever have one page session. */
  ghost predicate PagesApart(w: P.World) {
    forall i, j | 0 <= i < j < |w.reg.records| :: w.reg.records[i].ids.pageSession != w.reg.records[j].ids.pageSession
  }

  lemma PagesApartNext<Pair>(y: System<Pair>, s: Step<Pair>)
    requires SysInv(y) && Enabled(y, s) && PagesApart(y.w)
    ensures PagesApart(Next(y, s).w)
  {
    var rs, rs' := y.w.reg.records, Next(y, s).w.reg.records;
    forall i | 0 <= i < |rs| ensures i < |rs'| && rs'[i].ids == rs[i].ids { RecordsStay(y, s, i); }
    forall i, j | 0 <= i < j < |rs'| ensures rs'[i].ids.pageSession != rs'[j].ids.pageSession {
      if j >= |rs| { NewPageSession(y, s, i, j); }
    }
  }

  /** A new record has a page session that no record has had. */
  lemma NewPageSession<Pair>(y: System<Pair>, s: Step<Pair>, i: nat, j: nat)
    requires SysInv(y) && Enabled(y, s) && i < j && |y.w.reg.records| <= j < |Next(y, s).w.reg.records|
    ensures Next(y, s).w.reg.records[i].ids.pageSession != Next(y, s).w.reg.records[j].ids.pageSession
  {
    match s
    case Attempt(id, owner, closeBackend) => AttemptParts(y, id, owner, closeBackend);
    case Proceed(id, ok) => ProceedParts(y, id, ok); R.LaterRemove(y.w.reg, id, id);
    case Registry(e) =>
      NewRecord(y.w, e, j);
      OneAtATime(y.w, e);
      assert P.RecordOk(y.w, i);
      RecordsStay(y, s, i);
    case _ =>
  }

  lemma OneAtATime(w: P.World, e: P.Event)
    requires P.Inv(w) && P.Enabled(w, e)
    ensures |P.Next(w, e).reg.records| <= |w.reg.records| + 1
  {
    hide P.Inv;
  }

  lemma {:induction false} IdsStayRun<Pair>(y: System<Pair>, ss: seq<Step<Pair>>, i: nat)
    requires SysInv(y) && Possible(y, ss) && i < |y.w.reg.records|
    ensures var w := End(y, ss).w; i < |w.reg.records| && w.reg.records[i].ids == y.w.reg.records[i].ids
    decreases |ss|
  {
    assert P.Inv(y.w);
    hide SysInv, Enabled, Next;
    if ss != [] {
      SysInvNext(y, ss[0]);
      RecordsStay(y, ss[0], i);
      IdsStayRun(Next(y, ss[0]), ss[1..], i);
    }
  }

  lemma {:induction false} PagesApartRun<Pair>(y: System<Pair>, ss: seq<Step<Pair>>)
    requires SysInv(y) && Possible(y, ss) && PagesApart(y.w)
    ensures PagesApart(End(y, ss).w)
    decreases |ss|
  {
    hide SysInv, Enabled, Next, PagesApart;
    if ss != [] {
      SysInvNext(y, ss[0]);
      PagesApartNext(y, ss[0]);
      PagesApartRun(Next(y, ss[0]), ss[1..]);
    }
  }

  lemma DetachmentsStep<Pair>(y: System<Pair>, s: Step<Pair>, id: nat, sid: string)
    requires SysInv(y) && Enabled(y, s)
    requires s.Proceed? && s.id != id ==> y.w.reg.records[s.id].ids.pageSession != sid
    ensures var y' := Next(y, s);
      Detachments(y'.b.notices, sid) == Detachments(y.b.notices, sid)
        + (if s.Proceed? && s.id == id then Detachments(Added(y.b.notices, y'.b.notices), sid) else 0)
  {
    match s
    case Attempt(i, owner, closeBackend) => AttemptParts(y, i, owner, closeBackend);
    case Proceed(i, ok) =>
      ProceedParts(y, i, ok);
      var more := PartingAt(y.stages[i], y.owners[i], y.w.reg.records[i].ids);
      AddedOf(y.b.notices, more);
      AddedOf(y.b.notices, []);
      DetachmentsAppend(y.b.notices, more, sid);
      assert i != id ==> Detachments(more, sid) == 0;
      hide SysInv, Enabled, Next, P.Remove, Detachments, TableRegion, IndexRegion, PairsRegion, Without,
          DisableFetchIfUnused,
        Added, PartingAt;
    case Handle(tables, pairs, queue, intercepting, told) =>
      DetachmentsAppend(y.b.notices, told, sid);
      NoPartings(told, sid);
    case _ =>
  }

  lemma {:induction false} DetachmentsRun<Pair>(y: System<Pair>, ss: seq<Step<Pair>>, id: nat, sid: string)
    requires SysInv(y) && Possible(y, ss) && PagesApart(End(y, ss).w)
    requires id < |End(y, ss).w.reg.records| && End(y, ss).w.reg.records[id].ids.pageSession == sid
    ensures Detachments(End(y, ss).b.notices, sid) == Detachments(y.b.notices, sid) + Detachments(Said(y, ss, id), sid)
    decreases |ss|
  {
    if ss != [] {
      var s := ss[0];
      var y' := Next(y, s);
      if s.Proceed? && s.id != id { IdsStayRun(y, ss, s.id); }
      DetachmentsStep(y, s, id, sid);
      SysInvNext(y, s);
      hide SysInv, Enabled, Next, Added, Detachments;
      DetachmentsRun(y', ss[1..], id, sid);
      if s.Proceed? && s.id == id {
        DetachmentsAppend(Added(y.b.notices, y'.b.notices), Said(y', ss[1..], id), sid);
      } else {
        assert [] + Said(y', ss[1..], id) == Said(y', ss[1..], id);
      }
    }
  }

  /**
   So over the whole run, whatever else is sent, the page's session is reported detached exactly
   once if the closer had read an owner, and never if not.
   */
  lemma DetachedOnce<Pair>(y: System<Pair>, ss: seq<Step<Pair>>, id: nat)
    requires SysInv(y) && PagesApart(y.w) && Possible(y, ss) && id !in y.stages && StageOf(End(y, ss), id) == FINISHED
    ensures var y' := End(y, ss);
      && id < |y'.w.reg.records| && id in y'.owners
      && var sid := y'.w.reg.records[id].ids.pageSession;
         Detachments(y'.b.notices, sid) == Detachments(y.b.notices, sid) + (if y'.owners[id].Some? then 1 else 0)
  {
    hide *;
    SaidByCleanup(y, ss, id);
    PagesApartRun(y, ss);
    var y' := End(y, ss);
    DetachmentsRun(y, ss, id, y'.w.reg.records[id].ids.pageSession);
    TwoMessages(y'.owners[id], y'.w.reg.records[id].ids);
  }

  lemma TwoMessages(owner: Option<Conn>, ids: P.Ids)
    ensures Detachments([], ids.pageSession) == 0
    ensures owner.Some? ==>
      Detachments([Detached(owner.value, ids.pageSession, ids.pageTarget), Destroyed(owner.value, ids.pageTarget)],
                  ids.pageSession) == 1
  {
    if owner.Some? {
      var d, x := Detached(owner.value, ids.pageSession, ids.pageTarget), Destroyed(owner.value, ids.pageTarget);
      assert [d, x][1..] == [x] && [x][1..] == [];
      assert Detachments([x], ids.pageSession) == 0;
    }
  }

  // ---------------------------------------------------------------- the owner that is told

  /** An owner that a closer has read is the only one the record ever has. */
  ghost predicate LookOk<Pair>(y: System<Pair>, id: nat, c: Conn) {
    (id, Some(c)) in y.looks ==>
      && id < |y.w.reg.records|
      && var r := y.w.reg.records[id]; r.owner == Some(c) || (r.owner.None? && !r.state.Open?)
  }

  lemma LooksNext<Pair>(y: System<Pair>, s: Step<Pair>, id: nat, c: Conn)
    requires SysInv(y) && Enabled(y, s) && LookOk(y, id, c)
    ensures LookOk(Next(y, s), id, c)
  {
    match s
    case Look(i) =>
    case Attempt(i, owner, closeBackend) =>
      AttemptParts(y, i, owner, closeBackend);
      if id < |y.w.reg.records| { R.LaterCleanup(y.w.reg, i, id); }
    case Proceed(i, ok) =>
      ProceedParts(y, i, ok);
      if id < |y.w.reg.records| { R.LaterRemove(y.w.reg, i, id); }
    case Registry(e) =>
      if id < |y.w.reg.records| { R.LaterNext(y.w, e, id); }
    case _ =>
  }

  /** The closer told to go ahead has read what it goes by. */
  ghost predicate OwnerRead<Pair>(y: System<Pair>, id: nat) { id in y.owners ==> (id, y.owners[id]) in y.looks }

  lemma OwnerReadNext<Pair>(y: System<Pair>, s: Step<Pair>, id: nat)
    requires SysInv(y) && Enabled(y, s) && OwnerRead(y, id)
    ensures OwnerRead(Next(y, s), id)
  {
    match s
    case Attempt(i, owner, closeBackend) => AttemptParts(y, i, owner, closeBackend);
    case Proceed(i, ok) => ProceedParts(y, i, ok);
    case _ =>
  }

  /** In every reachable state the messages of a cleanup go to the one connection that has ever owned the record. */
  lemma {:induction false} ToldIsOwner<Pair>(y: System<Pair>, ss: seq<Step<Pair>>, id: nat, c: Conn)
    requires SysInv(y) && Possible(y, ss) && LookOk(y, id, c) && OwnerRead(y, id)
    ensures var y' := End(y, ss);
      id in y'.owners && y'.owners[id] == Some(c) ==>
        && id < |y'.w.reg.records|
        && var r := y'.w.reg.records[id]; r.owner == Some(c) || (r.owner.None? && !r.state.Open?)
    decreases |ss|
  {
    if ss != [] {
      SysInvNext(y, ss[0]);
      LooksNext(y, ss[0], id, c);
      OwnerReadNext(y, ss[0], id);
      hide SysInv, Enabled, Next, LookOk, OwnerRead;
      ToldIsOwner(Next(y, ss[0]), ss[1..], id, c);
    }
  }

  lemma ClaimGivesOwner(w: P.World, c: Conn, g: nat, id: nat)
    requires P.Inv(w) && id < |w.reg.records| && w.reg.records[id].owner.None? && w.reg.records[id].state.Open?
    requires var t := w.reg.records[id].ids.pageTarget; P.Enabled(w, P.DidClaim(c, t, g)) && !P.Gone(w.reg, Some(c))
    ensures var w' := P.Next(w, P.DidClaim(c, w.reg.records[id].ids.pageTarget, g));
      |w'.reg.records| == |w.reg.records| && w'.reg.records[id] == w.reg.records[id].(owner := Some(c))
  {
    assert P.RecordOk(w, id);
    P.ClaimEffect(w.reg, c, w.reg.records[id].ids.pageTarget, g, id);
  }

  /**
   The owner is read in one region and BeginCleanup is another. A claim that comes in between makes
   a connection the owner of a page whose cleanup then tells it nothing.
   */
  lemma UntoldOwner<Pair>(y: System<Pair>, id: nat, c: Conn, g: nat) returns (ss: seq<Step<Pair>>)
    requires SysInv(y) && id < |y.w.reg.records| && !y.w.reg.records[id].cleaned
    requires y.w.reg.records[id].owner.None? && y.w.reg.records[id].state.Open?
    requires P.Enabled(y.w, P.DidClaim(c, y.w.reg.records[id].ids.pageTarget, g)) && !P.Gone(y.w.reg, Some(c))
    ensures Possible(y, ss) && StageOf(End(y, ss), id) == FINISHED && Said(y, ss, id) == []
    ensures id < |End(y, ss).w.reg.records| && End(y, ss).w.reg.records[id].owner == Some(c)
  {
    var look: Step<Pair> := Look(id);
    var claim: Step<Pair> := Registry(P.DidClaim(c, y.w.reg.records[id].ids.pageTarget, g));
    NotBegun(y, id);
    SysInvNext(y, look);
    var y1 := Next(y, look);
    assert Enabled(y1, claim);
    SysInvNext(y1, claim);
    ClaimGivesOwner(y1.w, c, g, id);
    var y2 := Next(y1, claim);
    OneStep(y, look);
    OneStep(y1, claim);
    RunAppend(y, [look], [claim]);
    var rest := CloseRun(y2, id, None);
    hide SysInv, Enabled, Next, Possible, End, Said;
    RunAppend(y, [look] + [claim], rest);
    ss := ([look] + [claim]) + rest;
    SaidByCleanup(y, ss, id);
  }
}
