/**
 Execution-context numbers: the counter and the two maps under ctxMapMu (pkg/bridge/bridge.go),
 filled by the event handlers (events.go), Runtime.enable and Page.createIsolatedWorld, and read
 by Runtime.evaluate and Runtime.callFunctionOn (runtime.go).

 A step of the protocol is one lock region. A handler allocates a number in one region, stores
 its mapping in another and sends its event in none, so a number is in flight for a while.
 */
module Contexts {
  import opened Common
  import opened OwnedTables

  datatype Ctx = Ctx(
    counter: nat,
    ctxMap: map<int, string>,
    ctxOwners: map<int, string>,
    flight: map<int, string>,   // allocated, not yet stored: the session it is for
    ready: set<int>,            // stored, or found to have no mapping; its event not yet sent
    emitted: seq<int>)          // the numbers of the context-created events sent so far

  const START := Ctx(100, map[], map[], map[], {}, [])

  datatype Step =
    | Allocate(sid: string)
    | Store(id: int, juggler: string)
    | StoreIsolated(id: int)
    | Send(id: int)
    | Abandon(id: int)          // a number taken for a node, or for a context that is not announced
    | Delete(ids: set<int>)     // any of the regions that drop contexts

  /** The newest number a session owns, 0 if it owns none. */
  predicate IsHighest(ctxMap: map<int, string>, ctxOwners: map<int, string>, sid: string, key: int) {
    && (key != 0 ==> key in ctxMap && OwnerOf(ctxOwners, key) == sid && key > 0)
    && forall k | k in ctxMap && OwnerOf(ctxOwners, k) == sid :: k <= key || k <= 0
  }

  predicate Enabled(c: Ctx, s: Step) {
    match s
    case Store(id, _) => id in c.flight
    case StoreIsolated(id) => id in c.flight
    case Abandon(id) => id in c.flight
    case Send(id) => id in c.ready
    case _ => true
  }

  function Put(c: Ctx, id: int, juggler: string): Ctx
    requires id in c.flight
  {
    c.(ctxMap := c.ctxMap[id := juggler], ctxOwners := c.ctxOwners[id := c.flight[id]],
       flight := c.flight - {id}, ready := c.ready + {id})
  }

  /** An isolated world stands for the newest context of its session; without one its number maps to nothing. */
  ghost predicate PutIsolated(c: Ctx, id: int, c': Ctx)
    requires id in c.flight
  {
    exists key :: IsHighest(c.ctxMap, c.ctxOwners, c.flight[id], key) && c' == IsolatedFrom(c, id, key)
  }

  function IsolatedFrom(c: Ctx, id: int, key: int): Ctx
    requires id in c.flight
  {
    if key != 0 && key in c.ctxMap && c.ctxMap[key] != "" then Put(c, id, c.ctxMap[key])
    else c.(flight := c.flight - {id}, ready := c.ready + {id})
  }

  ghost predicate Next(c: Ctx, s: Step, c': Ctx) {
    && Enabled(c, s)
    && match s
       case Allocate(sid) => c' == c.(counter := c.counter + 1, flight := c.flight[c.counter + 1 := sid])
       case Store(id, juggler) => c' == Put(c, id, juggler)
       case StoreIsolated(id) => PutIsolated(c, id, c')
       case Send(id) => c' == c.(ready := c.ready - {id}, emitted := c.emitted + [id])
       case Abandon(id) => c' == c.(flight := c.flight - {id})
       case Delete(ids) => c' == c.(ctxMap := c.ctxMap - ids, ctxOwners := c.ctxOwners - ids)
  }

  // ---------------------------------------------------------------- the invariant

  predicate Issued(c: Ctx, id: int) { 100 < id <= c.counter }

  ghost predicate Inv(c: Ctx) {
    && c.counter >= 100
    && c.ctxMap.Keys == c.ctxOwners.Keys
    && (forall id {:trigger id in c.ctxOwners} :: id in c.ctxOwners ==> Issued(c, id) && id !in c.flight)
    && (forall id {:trigger id in c.flight} :: id in c.flight ==> Issued(c, id) && id !in c.ready && id !in c.emitted)
    && (forall id {:trigger id in c.ready} :: id in c.ready ==> Issued(c, id) && id !in c.emitted)
    && (forall id {:trigger id in c.emitted} :: id in c.emitted ==> Issued(c, id))
    && Distinct(c.emitted)
  }

  lemma InvPut(c: Ctx, id: int, juggler: string)
    requires Inv(c) && id in c.flight
    ensures Inv(Put(c, id, juggler))
  {
    assert Put(c, id, juggler).ctxMap.Keys == c.ctxMap.Keys + {id} == Put(c, id, juggler).ctxOwners.Keys;
  }

  lemma InvDelete(c: Ctx, ids: set<int>)
    requires Inv(c)
    ensures Inv(c.(ctxMap := c.ctxMap - ids, ctxOwners := c.ctxOwners - ids))
  {
    assert (c.ctxMap - ids).Keys == c.ctxMap.Keys - ids == (c.ctxOwners - ids).Keys;
  }

  lemma InvIsolated(c: Ctx, id: int, c': Ctx)
    requires Inv(c) && id in c.flight && PutIsolated(c, id, c')
    ensures Inv(c')
  {
    var key :| IsHighest(c.ctxMap, c.ctxOwners, c.flight[id], key) && c' == IsolatedFrom(c, id, key);
    if key != 0 && key in c.ctxMap && c.ctxMap[key] != "" { InvPut(c, id, c.ctxMap[key]); }
  }

  lemma InvAllocate(c: Ctx, sid: string)
    requires Inv(c)
    ensures Inv(c.(counter := c.counter + 1, flight := c.flight[c.counter + 1 := sid]))
  {}

  /** The two maps keep the same keys, all of them issued, and no event ever repeats a number. */
  lemma InvNext(c: Ctx, s: Step, c': Ctx)
    requires Inv(c) && Next(c, s, c')
    ensures Inv(c')
  {
    match s
    case Store(id, juggler) => InvPut(c, id, juggler);
    case Allocate(sid) => InvAllocate(c, sid);
    case StoreIsolated(id) => InvIsolated(c, id, c');
    case Delete(ids) => InvDelete(c, ids);
    case _ =>
  }

  /** `c'` can be reached from `c`. */
  ghost predicate Reaches(c: Ctx, trace: seq<(Step, Ctx)>, c': Ctx)
    decreases |trace|
  {
    if trace == [] then c == c' else Next(c, trace[0].0, trace[0].1) && Reaches(trace[0].1, trace[1..], c')
  }

  lemma {:induction false} InvRun(c: Ctx, trace: seq<(Step, Ctx)>, c': Ctx)
    requires Inv(c) && Reaches(c, trace, c')
    ensures Inv(c')
    decreases |trace|
  {
    if trace != [] {
      InvNext(c, trace[0].0, trace[0].1);
      InvRun(trace[0].1, trace[1..], c');
    }
  }

  lemma NoNumberIsSentTwice(trace: seq<(Step, Ctx)>, c: Ctx)
    requires Reaches(START, trace, c)
    ensures Distinct(c.emitted) && c.ctxMap.Keys == c.ctxOwners.Keys
    ensures forall id | id in c.ctxMap :: 100 < id <= c.counter
  {
    InvRun(START, trace, c);
    forall id | id in c.ctxMap ensures 100 < id <= c.counter { assert id in c.ctxMap.Keys && id in c.ctxOwners; }
  }

  lemma MeaningKeptNext(c: Ctx, s: Step, c': Ctx, id: int)
    requires Inv(c) && Next(c, s, c') && id in c.ctxOwners && id in c.ctxMap
    ensures id in c'.ctxMap <==> id in c'.ctxOwners
    ensures id in c'.ctxMap ==> c'.ctxMap[id] == c.ctxMap[id] && c'.ctxOwners[id] == c.ctxOwners[id]
    ensures !(id in c'.flight) && id <= c'.counter
  {
    InvNext(c, s, c');
    assert id in c'.ctxMap <==> id in c'.ctxMap.Keys;
    assert id in c'.ctxOwners <==> id in c'.ctxOwners.Keys;
    if s.StoreIsolated? {
      var key :| IsHighest(c.ctxMap, c.ctxOwners, c.flight[s.id], key) && c' == IsolatedFrom(c, s.id, key);
    }
  }

  /** A number dropped once is gone for good. */
  lemma {:induction false} DroppedForGood(c: Ctx, trace: seq<(Step, Ctx)>, c': Ctx, id: int)
    requires Inv(c) && Reaches(c, trace, c') && id <= c.counter && id !in c.ctxMap && id !in c.flight
    ensures id !in c'.ctxMap
    decreases |trace|
  {
    if trace != [] {
      InvNext(c, trace[0].0, trace[0].1);
      if trace[0].0.StoreIsolated? { IsolatedAdds(c, trace[0].0.id, trace[0].1); }
      DroppedForGood(trace[0].1, trace[1..], c', id);
    }
  }

  lemma IsolatedAdds(c: Ctx, id: int, c': Ctx)
    requires id in c.flight && PutIsolated(c, id, c')
    ensures c'.counter == c.counter && c'.flight == c.flight - {id} && c'.emitted == c.emitted
    ensures c'.ctxMap.Keys <= c.ctxMap.Keys + {id}
  {
    var key :| IsHighest(c.ctxMap, c.ctxOwners, c.flight[id], key) && c' == IsolatedFrom(c, id, key);
  }

  /**
   A number never changes its meaning, so what a destroy handler drops in its second region is what
   it found in its first, or is gone already.
   */
  lemma {:induction false} NumbersKeepTheirMeaning(c: Ctx, trace: seq<(Step, Ctx)>, c': Ctx, id: int)
    requires Inv(c) && Reaches(c, trace, c') && id in c.ctxMap
    ensures id in c'.ctxMap ==> c'.ctxMap[id] == c.ctxMap[id]
    decreases |trace|
  {
    assert id in c.ctxMap.Keys && id in c.ctxOwners;
    if trace != [] {
      var c1 := trace[0].1;
      InvNext(c, trace[0].0, c1);
      MeaningKeptNext(c, trace[0].0, c1, id);
      if id in c1.ctxMap {
        NumbersKeepTheirMeaning(c1, trace[1..], c', id);
      } else {
        DroppedForGood(c1, trace[1..], c', id);
      }
    }
  }

  // ---------------------------------------------------------------- resolving a number

  predicate ContextOwned(c: Ctx, sid: string, id: int) { id in c.ctxOwners ==> c.ctxOwners[id] == sid }

  /** What a number resolves to, if anything, is owned by the caller. */
  predicate Safe(c: Ctx, sid: string, id: int) { id in c.ctxMap ==> OwnerOf(c.ctxOwners, id) == sid }

  /** With no other region between the two reads a number resolves to a mapping of the caller or to none. */
  lemma AtomicResolutionIsSafe(c: Ctx, sid: string, id: int)
    requires Inv(c) && ContextOwned(c, sid, id)
    ensures Safe(c, sid, id)
  {
    assert id in c.ctxMap ==> id in c.ctxMap.Keys && id in c.ctxOwners.Keys;
  }

  /** The number can no longer become another session's: it has been stored, dropped, or is in flight for the caller. */
  predicate Settled(c: Ctx, sid: string, id: int) {
    id <= 100 || id in c.ctxOwners || (id <= c.counter && (id in c.flight ==> c.flight[id] == sid))
  }

  lemma SettledNext(c: Ctx, s: Step, c': Ctx, sid: string, id: int)
    requires Inv(c) && Next(c, s, c') && Settled(c, sid, id) && ContextOwned(c, sid, id)
    ensures Settled(c', sid, id) && ContextOwned(c', sid, id)
  {
    if s.StoreIsolated? {
      var key :| IsHighest(c.ctxMap, c.ctxOwners, c.flight[s.id], key) && c' == IsolatedFrom(c, s.id, key);
    }
  }

  lemma {:induction false} SettledRun(c: Ctx, trace: seq<(Step, Ctx)>, c': Ctx, sid: string, id: int)
    requires Inv(c) && Reaches(c, trace, c') && Settled(c, sid, id) && ContextOwned(c, sid, id)
    ensures Safe(c', sid, id)
    decreases |trace|
  {
    if trace == [] {
      AtomicResolutionIsSafe(c, sid, id);
    } else {
      InvNext(c, trace[0].0, trace[0].1);
      SettledNext(c, trace[0].0, trace[0].1, sid, id);
      SettledRun(trace[0].1, trace[1..], c', sid, id);
    }
  }

  /** Between the two reads of an unsettled number its mapping can be stored for another session. */
  lemma {:induction false} UnsettledRun(c: Ctx, sid: string, other: string, id: int)
    returns (trace: seq<(Step, Ctx)>, c': Ctx)
    requires Inv(c) && !Settled(c, sid, id) && other != sid
    ensures Reaches(c, trace, c') && !Safe(c', sid, id)
    decreases if id > c.counter then id - c.counter else 0
  {
    if id in c.flight {
      c' := Put(c, id, "context");
      trace := [(Store(id, "context"), c')];
      assert trace[1..] == [] && Reaches(c', [], c');
    } else {
      var c1 := c.(counter := c.counter + 1, flight := c.flight[c.counter + 1 := other]);
      InvNext(c, Allocate(other), c1);
      var rest;
      rest, c' := UnsettledRun(c1, sid, other, id);
      trace := [(Allocate(other), c1)] + rest;
      assert trace[1..] == rest;
    }
  }

  ghost predicate AlwaysSafe(c: Ctx, sid: string, id: int) {
    forall trace, c' :: Reaches(c, trace, c') ==> Safe(c', sid, id)
  }

  /**
   The ownership check and the look-up are two lock regions. Whatever runs between them, the number
   resolves to a mapping of the caller or to none, exactly when it was settled at the check: a
   caller that guesses a number not yet stored can be given another session's context.
   */
  lemma ResolutionSafeIff(c: Ctx, sid: string, id: int)
    requires Inv(c) && ContextOwned(c, sid, id)
    ensures AlwaysSafe(c, sid, id) <==> Settled(c, sid, id)
  {
    if Settled(c, sid, id) {
      forall trace, c' | Reaches(c, trace, c') ensures Safe(c', sid, id) { SettledRun(c, trace, c', sid, id); }
    } else {
      var trace, c' := UnsettledRun(c, sid, sid + "'", id);
    }
  }

  /** A number the client was told of in an event is settled for every session, then and for ever. */
  lemma AnnouncedIsSettled(c: Ctx, sid: string, id: int)
    requires Inv(c) && id in c.emitted
    ensures Settled(c, sid, id)
  {}

  // ---------------------------------------------------------------- what a stored number resolves to

  /** What a number resolves to for a session, check and look-up together. */
  function Resolve(c: Ctx, sid: string, id: int): Option<string> {
    if ContextOwned(c, sid, id) && id in c.ctxMap then Some(c.ctxMap[id]) else None
  }

  /** `key` is the greatest number that `sid` owns. */
  ghost predicate Newest(ctxMap: map<int, string>, ctxOwners: map<int, string>, sid: string, key: int) {
    && key in ctxMap && key in ctxOwners && ctxOwners[key] == sid
    && forall k | k in ctxMap && k in ctxOwners && ctxOwners[k] == sid :: k <= key
  }

  /** An event for a context stores its number with the context and the session, and touches no other number. */
  lemma StoreWrites(c: Ctx, id: int, juggler: string, c': Ctx)
    requires Inv(c) && Next(c, Store(id, juggler), c')
    ensures c'.ctxMap == c.ctxMap[id := juggler] && c'.ctxOwners == c.ctxOwners[id := c.flight[id]]
    ensures c'.ready == c.ready + {id} && c'.flight == c.flight - {id} && c'.emitted == c.emitted
  {}

  /**
   An isolated world is stored for its session with the context of the session's newest number, and is
   not stored at all if the session owns no number or its newest has no context.
   */
  lemma IsolatedWrites(c: Ctx, id: int, c': Ctx)
    requires Inv(c) && Next(c, StoreIsolated(id), c')
    ensures forall key | Newest(c.ctxMap, c.ctxOwners, c.flight[id], key) ::
      && c'.ctxMap == (if c.ctxMap[key] != "" then c.ctxMap[id := c.ctxMap[key]] else c.ctxMap)
      && c'.ctxOwners == (if c.ctxMap[key] != "" then c.ctxOwners[id := c.flight[id]] else c.ctxOwners)
    ensures (forall k | k in c.ctxOwners :: c.ctxOwners[k] != c.flight[id]) ==>
      c'.ctxMap == c.ctxMap && c'.ctxOwners == c.ctxOwners
    ensures c'.ready == c.ready + {id} && c'.flight == c.flight - {id} && c'.emitted == c.emitted
  {
    var key :| IsHighest(c.ctxMap, c.ctxOwners, c.flight[id], key) && c' == IsolatedFrom(c, id, key);
    forall k | k in c.ctxMap ensures k in c.ctxOwners && k > 100 { assert k in c.ctxMap.Keys && k in c.ctxOwners; }
    forall n | Newest(c.ctxMap, c.ctxOwners, c.flight[id], n) ensures n == key {}
    if key != 0 { assert Newest(c.ctxMap, c.ctxOwners, c.flight[id], key); }
  }

  ghost predicate DroppedIn(trace: seq<(Step, Ctx)>, id: int) {
    exists i :: 0 <= i < |trace| && trace[i].0.Delete? && id in trace[i].0.ids
  }

  lemma KeptNext(c: Ctx, s: Step, c': Ctx, id: int)
    requires Inv(c) && Next(c, s, c') && id in c.ctxMap
    ensures id in c'.ctxMap <==> !(s.Delete? && id in s.ids)
  {
    assert id in c.ctxMap.Keys && id in c.ctxOwners;
    if s.StoreIsolated? {
      var key :| IsHighest(c.ctxMap, c.ctxOwners, c.flight[s.id], key) && c' == IsolatedFrom(c, s.id, key);
    }
  }

  /** A stored number stays, with its context and its session, exactly until a region drops it. */
  lemma {:induction false} StoredUntilDropped(c: Ctx, trace: seq<(Step, Ctx)>, c': Ctx, id: int)
    requires Inv(c) && Reaches(c, trace, c') && id in c.ctxMap && id in c.ctxOwners
    ensures if DroppedIn(trace, id) then id !in c'.ctxMap && id !in c'.ctxOwners
            else id in c'.ctxMap && c'.ctxMap[id] == c.ctxMap[id]
                 && id in c'.ctxOwners && c'.ctxOwners[id] == c.ctxOwners[id]
    decreases |trace|
  {
    if trace != [] {
      var c1 := trace[0].1;
      InvNext(c, trace[0].0, c1);
      MeaningKeptNext(c, trace[0].0, c1, id);
      KeptNext(c, trace[0].0, c1, id);
      if id in c1.ctxMap {
        StoredUntilDropped(c1, trace[1..], c', id);
        assert DroppedIn(trace[1..], id) ==> DroppedIn(trace, id) by {
          if DroppedIn(trace[1..], id) {
            var i :| 0 <= i < |trace[1..]| && trace[1..][i].0.Delete? && id in trace[1..][i].0.ids;
            assert trace[i + 1] == trace[1..][i];
          }
        }
        assert DroppedIn(trace, id) ==> DroppedIn(trace[1..], id) by {
          if DroppedIn(trace, id) {
            var i :| 0 <= i < |trace| && trace[i].0.Delete? && id in trace[i].0.ids;
            assert trace[i] == trace[1..][i - 1];
          }
        }
      } else {
        DroppedForGood(c1, trace[1..], c', id);
        InvRun(c1, trace[1..], c');
        assert id !in c'.ctxOwners.Keys;
      }
    }
  }

  /**
   From the moment an event has stored it, a number resolves to its context for its own session, and
   to nothing for any other, until a region drops it; after that it resolves to nothing.
   */
  lemma StoredResolves(c: Ctx, id: int, juggler: string, c1: Ctx, trace: seq<(Step, Ctx)>, c': Ctx, sid: string)
    requires Inv(c) && Next(c, Store(id, juggler), c1) && Reaches(c1, trace, c')
    ensures Resolve(c', sid, id) == if sid == c.flight[id] && !DroppedIn(trace, id) then Some(juggler) else None
  {
    StoreWrites(c, id, juggler, c1);
    InvNext(c, Store(id, juggler), c1);
    StoredUntilDropped(c1, trace, c', id);
  }

  /** So does the number of an isolated world, to the context that was its session's newest when it was made. */
  lemma IsolatedResolves(c: Ctx, id: int, key: int, c1: Ctx, trace: seq<(Step, Ctx)>, c': Ctx, sid: string)
    requires Inv(c) && Next(c, StoreIsolated(id), c1) && Reaches(c1, trace, c')
    requires Newest(c.ctxMap, c.ctxOwners, c.flight[id], key) && c.ctxMap[key] != ""
    ensures Resolve(c', sid, id) == if sid == c.flight[id] && !DroppedIn(trace, id) then Some(c.ctxMap[key]) else None
  {
    IsolatedWrites(c, id, c1);
    InvNext(c, StoreIsolated(id), c1);
    StoredUntilDropped(c1, trace, c', id);
  }

  /** The numbers of the events that a trace sends, in order, and how many numbers it allocates. */
  function SentBy(trace: seq<(Step, Ctx)>): seq<int> {
    if trace == [] then [] else (if trace[0].0.Send? then [trace[0].0.id] else []) + SentBy(trace[1..])
  }

  function AllocatedBy(trace: seq<(Step, Ctx)>): nat {
    if trace == [] then 0 else (if trace[0].0.Allocate? then 1 else 0) + AllocatedBy(trace[1..])
  }

  /** Each allocation takes the next number, for the session that asks, and each send is an event. */
  lemma StepCounts(c: Ctx, s: Step, c': Ctx)
    requires Next(c, s, c')
    ensures c'.emitted == c.emitted + (if s.Send? then [s.id] else [])
    ensures c'.counter == c.counter + if s.Allocate? then 1 else 0
    ensures s.Allocate? ==> c'.flight == c.flight[c'.counter := s.sid]
  {
    if s.StoreIsolated? { IsolatedAdds(c, s.id, c'); }
  }

  lemma {:induction false} EventsAndNumbers(c: Ctx, trace: seq<(Step, Ctx)>, c': Ctx)
    requires Reaches(c, trace, c')
    ensures c'.emitted == c.emitted + SentBy(trace) && c'.counter == c.counter + AllocatedBy(trace)
    decreases |trace|
  {
    hide Next;
    if trace != [] {
      var (s, c1) := trace[0];
      StepCounts(c, s, c1);
      EventsAndNumbers(c1, trace[1..], c');
      var sent, later := if s.Send? then [s.id] else [], SentBy(trace[1..]);
      assert SentBy(trace) == sent + later;
      assert (c.emitted + sent) + later == c.emitted + (sent + later);
    }
  }

  // ---------------------------------------------------------------- the handlers

  method AnyOf<T>(s: set<T>) returns (x: T)
    requires s != {}
    ensures x in s
  {
    x :| x in s;
  }

  /** The number found is announced first, then each other number that goes, none of them twice. */
  ghost predicate AnnouncesEach(gone: set<int>, first: int, announced: seq<int>) {
    && announced != [] && announced[0] == first && Distinct(announced)
    && (forall id :: id in announced[1..] <==> id in gone && id > 0 && id != first)
  }

  /** If the number found is still there, what is announced is each number of the context, once. */
  lemma AnnouncedAreDropped(c: Ctx, juggler: string, first: int, announced: seq<int>)
    requires Inv(c) && first in c.ctxMap && c.ctxMap[first] == juggler
    requires AnnouncesEach(NumbersFor(c.ctxMap, juggler), first, announced)
    ensures Distinct(announced) && announced[0] == first
    ensures forall id :: id in announced <==> id in c.ctxMap && c.ctxMap[id] == juggler
  {
    forall id ensures id in announced <==> id in c.ctxMap && c.ctxMap[id] == juggler {
      assert announced == [first] + announced[1..];
      if id in c.ctxMap { assert id in c.ctxMap.Keys && id in c.ctxOwners; }
    }
  }

  /** The loop that deletes the numbers of a Juggler context and lists those to announce after `first`. */
  method DropNumbers(values: map<int, string>, owners: map<int, string>, juggler: string, first: int)
    returns (m: map<int, string>, o: map<int, string>, announced: seq<int>)
    ensures var gone := NumbersFor(values, juggler);
      m == Cut(values, gone) && o == Cut(owners, gone) && AnnouncesEach(gone, first, announced)
  {
    ghost var gone := NumbersFor(values, juggler);
    m, o, announced := values, owners, [first];
    var todo := values.Keys;
    while todo != {}
      invariant todo <= values.Keys
      invariant m == Cut(values, gone - todo) && o == Cut(owners, gone - todo)
      invariant announced != [] && announced[0] == first && Distinct(announced)
      invariant forall id :: id in announced[1..] <==> id in gone && id > 0 && id != first && id !in todo
      decreases todo
    {
      var k := AnyOf(todo);
      if values[k] == juggler {
        m, o := m - {k}, o - {k};
        assert gone - (todo - {k}) == (gone - todo) + {k};
        if k != first && k > 0 {
          assert k !in announced by { assert announced == [first] + announced[1..]; }
          assert (announced + [k])[1..] == announced[1..] + [k];
          announced := announced + [k];
        }
      } else {
        assert gone - (todo - {k}) == gone - todo;
      }
      todo := todo - {k};
    }
    assert gone - {} == gone;
  }

  lemma ZeroIsNoNumber(c: Ctx, id: int)
    requires Inv(c) && id <= 0
    ensures c.ctxMap - {id} == c.ctxMap && c.ctxOwners - {id} == c.ctxOwners
  {
    assert id !in c.ctxOwners && id !in c.ctxMap.Keys;
  }

  function NumbersFor(ctxMap: map<int, string>, juggler: string): set<int> {
    set k | k in ctxMap && ctxMap[k] == juggler
  }

  /** The maps and the counter under their mutex; `Model` adds which numbers the handlers hold. */
  class ContextTable {
    var ctxMap: map<int, string>
    var ctxOwners: map<int, string>
    var ctxCounter: nat
    ghost var Model: Ctx

    ghost predicate Valid()
      reads this
    {
      Inv(Model) && Model.ctxMap == ctxMap && Model.ctxOwners == ctxOwners && Model.counter == ctxCounter
    }

    constructor ()
      ensures Valid() && Model == START
    {
      ctxMap, ctxOwners, ctxCounter := map[], map[], 100;
      Model := START;
    }

    method NextCtxID(ghost sid: string) returns (id: int)
      requires Valid()
      modifies this`ctxCounter, this`Model
      ensures Valid() && Next(old(Model), Allocate(sid), Model) && id == Model.counter
    {
      InvAllocate(Model, sid);
      ctxCounter := ctxCounter + 1;
      id := ctxCounter;
      Model := Model.(counter := ctxCounter, flight := Model.flight[id := sid]);
    }

    method StoreMapping(id: int, juggler: string, sid: string)
      requires Valid() && id in Model.flight && Model.flight[id] == sid
      modifies this`ctxMap, this`ctxOwners, this`Model
      ensures Valid() && Next(old(Model), Store(id, juggler), Model)
      ensures ctxMap == old(ctxMap)[id := juggler] && ctxOwners == old(ctxOwners)[id := sid]
    {
      InvPut(Model, id, juggler);
      ctxMap := ctxMap[id := juggler];
      ctxOwners := ctxOwners[id := sid];
      Model := Put(Model, id, juggler);
    }

    method ClearSession(sid: string)
      requires Valid()
      modifies this`ctxMap, this`ctxOwners, this`Model
      ensures Valid() && Next(old(Model), Delete(KeysOf(old(ctxOwners), sid)), Model)
    {
      InvDelete(Model, KeysOf(ctxOwners, sid));
      Model := Model.(ctxMap := Cut(ctxMap, KeysOf(ctxOwners, sid)),
          ctxOwners := Cut(ctxOwners, KeysOf(ctxOwners, sid)));
      ctxOwners, ctxMap := DropOwned(ctxOwners, ctxMap, sid);
    }

    /** The scan of Page.createIsolatedWorld, in any order, for the session's newest context. */
    method NewestOf(sid: string) returns (highest: int, target: string)
      requires Valid()
      ensures IsHighest(ctxMap, ctxOwners, sid, highest)
      ensures target == if highest == 0 then "" else ctxMap[highest]
    {
      highest, target := 0, "";
      var todo := ctxMap.Keys;
      while todo != {}
        invariant todo <= ctxMap.Keys
        invariant highest == 0 ==> target == ""
        invariant highest != 0
            ==> highest > 0 && highest in ctxMap && OwnerOf(ctxOwners, highest) == sid && target == ctxMap[highest]
        invariant forall k | k in ctxMap && k !in todo && OwnerOf(ctxOwners, k) == sid :: k <= highest || k <= 0
        decreases todo
      {
        var k := AnyOf(todo);
        if OwnerOf(ctxOwners, k) == sid && k > highest {
          highest := k;
          target := ctxMap[k];
        }
        todo := todo - {k};
      }
    }

    /** The region of Page.createIsolatedWorld. */
    method MapIsolatedWorld(id: int, sid: string)
      requires Valid() && id in Model.flight && Model.flight[id] == sid
      modifies this`ctxMap, this`ctxOwners, this`Model
      ensures Valid() && Next(old(Model), StoreIsolated(id), Model)
      ensures forall key | Newest(old(ctxMap), old(ctxOwners), sid, key) ::
        && ctxMap == (if old(ctxMap)[key] != "" then old(ctxMap)[id := old(ctxMap)[key]] else old(ctxMap))
        && ctxOwners == (if old(ctxMap)[key] != "" then old(ctxOwners)[id := sid] else old(ctxOwners))
      ensures (forall k | k in old(ctxOwners) :: old(ctxOwners)[k] != sid) ==>
        ctxMap == old(ctxMap) && ctxOwners == old(ctxOwners)
    {
      var highest, target := NewestOf(sid);
      ghost var after := IsolatedFrom(Model, id, highest);
      assert PutIsolated(Model, id, after);
      InvIsolated(Model, id, after);
      IsolatedWrites(Model, id, after);
      if target != "" {
        ctxMap := ctxMap[id := target];
        ctxOwners := ctxOwners[id := sid];
      }
      Model := after;
    }

    /** The read-locked scan that stops at the first number for a Juggler context; 0 if there is none. */
    method FindNumber(juggler: string) returns (id: int)
      ensures if forall k | k in ctxMap :: ctxMap[k] != juggler then id == 0 else id in ctxMap && ctxMap[id] == juggler
    {
      id := 0;
      var todo := ctxMap.Keys;
      while todo != {}
        invariant todo <= ctxMap.Keys && id == 0
        invariant forall k | k in ctxMap && k !in todo :: ctxMap[k] != juggler
        decreases todo
      {
        var k := AnyOf(todo);
        if ctxMap[k] == juggler { return k; }
        todo := todo - {k};
      }
    }

    /**
     Juggler: a second region drops the number found, which is the one announced; others for the same
     context stay.
     */
    method DropNumber(id: int)
      requires Valid()
      modifies this`ctxMap, this`ctxOwners, this`Model
      ensures Valid() && Next(old(Model), Delete({id}), Model)
    {
      InvDelete(Model, {id});
      if id <= 0 { ZeroIsNoNumber(Model, id); }
      Model := Model.(ctxMap := ctxMap - {id}, ctxOwners := ctxOwners - {id});
      if id > 0 {
        ctxMap := ctxMap - {id};
        ctxOwners := ctxOwners - {id};
      }
    }

    /**
     BiDi: a second region drops every number the context has by then, isolated worlds included. The
     number found in the first region is announced, and each number dropped once.
     */
    method DropAllNumbers(juggler: string, first: int) returns (announced: seq<int>)
      requires Valid()
      modifies this`ctxMap, this`ctxOwners, this`Model
      ensures Valid() && Next(old(Model), Delete(NumbersFor(old(ctxMap), juggler)), Model)
      ensures forall k :: k in ctxMap <==> k in old(ctxMap) && old(ctxMap)[k] != juggler
      ensures AnnouncesEach(NumbersFor(old(ctxMap), juggler), first, announced)
    {
      var m, o;
      m, o, announced := DropNumbers(ctxMap, ctxOwners, juggler, first);
      InvDelete(Model, NumbersFor(ctxMap, juggler));
      Model := Model.(ctxMap := m, ctxOwners := o);
      ctxMap, ctxOwners := m, o;
    }
  }
}
