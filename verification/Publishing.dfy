/**
 Who is told of a page that has just come (publishOwnedPair in pkg/bridge/bridge.go), from what the
 registry says at that moment, and from what has happened up to then.
 */
module Publishing {
  import opened Common
  import opened OwnershipProtocol
  import opened OwnershipRuns
  import C = CleanupProtocol

  /** The connection to tell of target `t`: the owner of its record, unless the record was cancelled. */
  function PublishTo(s: Registry, t: string): Option<Conn> {
    if t !in s.targets || s.targets[t] >= |s.records| || s.records[s.targets[t]].cancelled then None
    else s.records[s.targets[t]].owner
  }

  predicate WantsTargets(s: Registry, c: Conn) {
    c in s.connections && !s.connections[c].closed && s.connections[c].discover
  }

  predicate WantsAttaches(s: Registry, c: Conn) {
    c in s.connections && !s.connections[c].closed && s.connections[c].autoAttach
  }

  /** The messages to the owner; `announced` says that the page was attached to the root before. */
  function Told(s: Registry, owner: Conn, ids: Ids, announced: bool): seq<C.Notice>
    requires TargetsInRange(s)
  {
    var t := ids.pageTarget;
    var open := OwnerForTarget(s, t);
    (if WantsTargets(s, owner) then [C.Created(owner, t)] else [])
      + if WantsAttaches(s, owner) && !announced && open.Some? then [C.Attached(open.value, ids.pageSession, t)] else []
  }

  /** The messages that a publication sends. */
  function Messages(s: Registry, ids: Ids, announced: bool): seq<C.Notice>
    requires TargetsInRange(s)
  {
    match PublishTo(s, ids.pageTarget)
    case None => []
    case Some(c) => Told(s, c, ids, announced)
  }

  /** Some record of `c` has `t` for its page or its tab, is not closed and was not cancelled. */
  ghost predicate Holds(s: Registry, t: string, c: Conn) {
    t != "" && exists i ::
      && 0 <= i < |s.records| && s.records[i].owner == Some(c) && !s.records[i].state.Closed?
      && !s.records[i].cancelled && (t == s.records[i].ids.pageTarget || t == s.records[i].ids.tabTarget)
  }

  lemma PublishToIff(w: World, t: string, c: Conn)
    requires Inv(w)
    ensures PublishTo(w.reg, t) == Some(c) <==> Holds(w.reg, t, c)
  {
    assert TargetKeyOk(w.reg, t);
    if PublishTo(w.reg, t) == Some(c) { assert w.reg.records[w.reg.targets[t]].owner == Some(c); }
    if Holds(w.reg, t, c) {
      var i :| && 0 <= i < |w.reg.records| && w.reg.records[i].owner == Some(c) && !w.reg.records[i].state.Closed?
               && !w.reg.records[i].cancelled
               && (t == w.reg.records[i].ids.pageTarget || t == w.reg.records[i].ids.tabTarget);
      assert RecordOk(w, i);
    }
  }

  lemma WantsIff(es: seq<Event>, c: Conn)
    requires Possible(START, es)
    ensures WantsTargets(End(START, es).reg, c) <==> LastDiscover(es, c) == Some(true) && DidClose(c) !in es
    ensures WantsAttaches(End(START, es).reg, c) <==> LastAutoAttach(es, c) == Some(true) && DidClose(c) !in es
  {
    InvStart();
    FlagsStartOff(c);
    FlagsAreLastSet(START, es, c);
    DisconnectedIff(START, es, c);
    hide Possible, End, Inv;
  }

  lemma OpenIsHeld(w: World, t: string, c: Conn)
    requires Inv(w) && OwnerForTarget(w.reg, t) == Some(c)
    ensures PublishTo(w.reg, t) == Some(c)
  {
    assert TargetKeyOk(w.reg, t) && RecordOk(w, w.reg.targets[t]);
  }

  /**
   After any run a publication tells a connection that the page was created exactly if the page is
   the connection's, last asked to hear of targets and is still there; and that the page is attached
   exactly if it last asked for that, is still there, has the page open, and was not told before. It
   tells each at most once, the creation first.
   */
  lemma ToldIff(es: seq<Event>, ids: Ids, announced: bool, c: Conn)
    requires Possible(START, es)
    ensures TargetsInRange(End(START, es).reg)
    ensures var s := End(START, es).reg; var t := ids.pageTarget; var said := Messages(s, ids, announced);
      && (C.Created(c, t) in said <==> Holds(s, t, c) && LastDiscover(es, c) == Some(true) && DidClose(c) !in es)
      && (C.Attached(c, ids.pageSession, t) in said <==>
            && OwnerForTarget(s, t) == Some(c) && LastAutoAttach(es, c) == Some(true) && DidClose(c) !in es
            && !announced)
      && |said| <= 2 && (|said| == 2 ==> said[0].Created? && said[1].Attached? && said[0].to == said[1].to)
  {
    InvStart();
    InvRun(START, es);
    var w, t := End(START, es), ids.pageTarget;
    PublishToIff(w, t, c);
    WantsIff(es, c);
    if OwnerForTarget(w.reg, t).Some? { OpenIsHeld(w, t, OwnerForTarget(w.reg, t).value); }
    hide Possible, End, Holds, LastDiscover, LastAutoAttach, PublishTo, OwnerForTarget, WantsTargets, WantsAttaches;
  }
}
