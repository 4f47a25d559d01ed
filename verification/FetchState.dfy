/**
 The Fetch domain of pkg/bridge/fetch.go: the table of patterns by session, the interception
 flag the backend was last made to accept, and what becomes of an intercepted request.
 */
module FetchState {
  import opened Common
  import opened FetchPatterns

  datatype Pattern = Pattern(url: string, resourceType: string, stage: string)

  datatype Fetch = Fetch(table: map<string, seq<Pattern>>, flag: bool)

  /** The backend intercepts exactly while some session has Fetch enabled. */
  predicate InSync(f: Fetch) { f.flag <==> f.table != map[] }

  // ---------------------------------------------------------------- the handlers

  // Each is told whether its backend call succeeds.

  function Enable(f: Fetch, sid: string, ps: seq<Pattern>, ok: bool): Fetch {
    if ok then Fetch(f.table[sid := ps], true) else Fetch(f.table[sid := ps] - {sid}, f.flag)
  }

  function Disable(f: Fetch, sid: string, ok: bool): Fetch {
    var table := f.table - {sid};
    Fetch(table, if ok then table != map[] else f.flag)
  }

  function DisableIfUnused(f: Fetch, ok: bool): Fetch {
    if f.table != map[] then f else f.(flag := if ok then false else f.flag)
  }

  /** Closing a target drops the patterns of its page session, and no others. */
  function CloseTarget(f: Fetch, page: string, ok: bool): Fetch {
    DisableIfUnused(f.(table := f.table - {page}), ok)
  }

  function CloseTargets(f: Fetch, pages: seq<string>, oks: seq<bool>): Fetch
    requires |oks| == |pages|
    decreases |pages|
  {
    if pages == [] then f else CloseTargets(CloseTarget(f, pages[0], oks[0]), pages[1..], oks[1..])
  }

  /** A disconnect closes the targets of the connection and then looks at the table once more. */
  function Disconnect(f: Fetch, pages: seq<string>, oks: seq<bool>, ok: bool): Fetch
    requires |oks| == |pages|
  {
    DisableIfUnused(CloseTargets(f, pages, oks), ok)
  }

  class FetchDomain {
    var fetchPatterns: map<string, seq<Pattern>>
    /** The flag the backend last accepted. */
    var intercepting: bool

    constructor ()
      ensures Value() == Fetch(map[], false)
    {
      fetchPatterns, intercepting := map[], false;
    }

    function Value(): Fetch
      reads this
    {
      Fetch(fetchPatterns, intercepting)
    }

    method SetFetchPatterns(sessionID: string, patterns: seq<Pattern>)
      modifies this`fetchPatterns
      ensures fetchPatterns == old(fetchPatterns)[sessionID := patterns]
    {
      fetchPatterns := fetchPatterns[sessionID := patterns];
    }

    method ClearFetchPatterns(sessionID: string)
      modifies this`fetchPatterns
      ensures fetchPatterns == old(fetchPatterns) - {sessionID}
    {
      fetchPatterns := fetchPatterns - {sessionID};
    }

    function FetchInterceptionEnabled(): bool
      reads this
    {
      |fetchPatterns| > 0
    }

    /** Browser.setRequestInterception; a failed call leaves the backend as it was. */
    method SetRequestInterception(enabled: bool, ok: bool)
      modifies this`intercepting
      ensures intercepting == if ok then enabled else old(intercepting)
    {
      if ok { intercepting := enabled; }
    }

    method HandleEnable(sessionID: string, patterns: seq<Pattern>, ok: bool)
      modifies this
      ensures Value() == Enable(old(Value()), sessionID, patterns, ok)
    {
      SetFetchPatterns(sessionID, patterns);
      SetRequestInterception(true, ok);
      if !ok { ClearFetchPatterns(sessionID); }
    }

    method HandleDisable(sessionID: string, ok: bool)
      modifies this
      ensures Value() == Disable(old(Value()), sessionID, ok)
    {
      ClearFetchPatterns(sessionID);
      SetRequestInterception(FetchInterceptionEnabled(), ok);
    }

    method DisableFetchIfUnused(ok: bool)
      modifies this`intercepting
      ensures Value() == DisableIfUnused(old(Value()), ok)
    {
      if FetchInterceptionEnabled() { return; }
      SetRequestInterception(false, ok);
    }
  }

  // ---------------------------------------------------------------- the flag over runs

  datatype Event =
    | DidEnable(sid: string, patterns: seq<Pattern>, ok: bool)
    | DidDisable(sid: string, ok: bool)
    | DidClose(page: string, ok: bool)
    | DidDisconnect(pages: seq<string>, oks: seq<bool>, ok: bool)

  predicate WellFormed(e: Event) { e.DidDisconnect? ==> |e.oks| == |e.pages| }

  function Next(f: Fetch, e: Event): Fetch
    requires WellFormed(e)
  {
    match e
    case DidEnable(sid, ps, ok) => Enable(f, sid, ps, ok)
    case DidDisable(sid, ok) => Disable(f, sid, ok)
    case DidClose(page, ok) => CloseTarget(f, page, ok)
    case DidDisconnect(pages, oks, ok) => Disconnect(f, pages, oks, ok)
  }

  /** The sessions an event may take out of the table. */
  function Leaving(e: Event): set<string> {
    match e
    case DidEnable(sid, _, ok) => if ok then {} else {sid}
    case DidDisable(sid, _) => {sid}
    case DidClose(page, _) => {page}
    case DidDisconnect(pages, _, _) => set p | p in pages
  }

  lemma {:induction false} CloseTargetsTable(f: Fetch, pages: seq<string>, oks: seq<bool>)
    requires |oks| == |pages|
    ensures CloseTargets(f, pages, oks).table == f.table - (set p | p in pages)
    ensures CloseTargets(f, pages, oks).table != map[] ==> CloseTargets(f, pages, oks).flag == f.flag
    ensures !f.flag ==> !CloseTargets(f, pages, oks).flag
    decreases |pages|
  {
    if pages != [] {
      CloseTargetsTable(CloseTarget(f, pages[0], oks[0]), pages[1..], oks[1..]);
      assert pages == [pages[0]] + pages[1..];
      assert (f.table - {pages[0]}) - (set p | p in pages[1..]) == f.table - (set p | p in pages);
    }
  }

  /**
   With a succeeding last call every handler leaves the flag in step with the table, failed calls
   before it or not.
   */
  lemma SucceedingStepsSync(f: Fetch, e: Event)
    requires WellFormed(e) && InSync(f) && e.ok
    ensures InSync(Next(f, e))
  {
    match e
    case DidDisconnect(pages, oks, ok) => CloseTargetsTable(f, pages, oks);
    case DidEnable(sid, ps, ok) => assert sid in f.table[sid := ps];
    case _ =>
  }

  /** An enable or a disable that succeeds puts the flag right whatever it was. */
  lemma EnableAndDisableRepair(f: Fetch, sid: string, ps: seq<Pattern>)
    ensures InSync(Enable(f, sid, ps, true)) && InSync(Disable(f, sid, true))
  {
    assert sid in f.table[sid := ps];
  }

  /**
   A failing call puts the flag out of step exactly when the handler was taking out the last
   session; a failing enable does take out the session's earlier patterns.
   */
  lemma FailingStepsSyncIff(f: Fetch, e: Event)
    requires WellFormed(e) && InSync(f) && !e.ok && !e.DidDisconnect?
    ensures InSync(Next(f, e)) <==> f.table.Keys != Leaving(e)
  {
    match e
    case DidEnable(sid, ps, ok) =>
      assert f.table[sid := ps] - {sid} == f.table - {sid};
      LastOne(f.table, sid);
    case DidDisable(sid, ok) => LastOne(f.table, sid);
    case DidClose(page, ok) => LastOne(f.table, page);
  }

  /** Some close of the disconnect came with the table empty and a call that succeeded. */
  ghost predicate SwitchedOff(f: Fetch, pages: seq<string>, oks: seq<bool>)
    requires |oks| == |pages|
  {
    exists i :: 0 <= i < |pages| && oks[i] && f.table.Keys <= Firsts(pages, i + 1)
  }

  function Firsts(pages: seq<string>, n: nat): set<string>
    requires n <= |pages|
  {
    set p | p in pages[..n]
  }

  lemma FirstsOfRest(pages: seq<string>, n: nat)
    requires n < |pages|
    ensures Firsts(pages, n + 1) == {pages[0]} + Firsts(pages[1..], n)
  {
    assert pages[..n + 1] == [pages[0]] + pages[1..][..n];
  }

  lemma SwitchedOffRest(f: Fetch, pages: seq<string>, oks: seq<bool>)
    requires |oks| == |pages| && pages != []
    ensures var f1 := CloseTarget(f, pages[0], oks[0]);
      SwitchedOff(f, pages, oks) <==> (oks[0] && f.table.Keys <= {pages[0]}) || SwitchedOff(f1, pages[1..], oks[1..])
  {
    var f1 := CloseTarget(f, pages[0], oks[0]);
    assert f1.table.Keys == f.table.Keys - {pages[0]};
    assert Firsts(pages, 1) == {pages[0]} by { assert pages[..1] == [pages[0]]; }
    if SwitchedOff(f, pages, oks) {
      var i :| 0 <= i < |pages| && oks[i] && f.table.Keys <= Firsts(pages, i + 1);
      if i > 0 {
        FirstsOfRest(pages, i);
        assert oks[1..][i - 1] && f1.table.Keys <= Firsts(pages[1..], i - 1 + 1);
      }
    }
    if SwitchedOff(f1, pages[1..], oks[1..]) {
      var i :| 0 <= i < |pages[1..]| && oks[1..][i] && f1.table.Keys <= Firsts(pages[1..], i + 1);
      FirstsOfRest(pages, i + 1);
      assert oks[i + 1] && f.table.Keys <= Firsts(pages, i + 1 + 1);
    }
  }

  lemma {:induction false} CloseTargetsFlag(f: Fetch, pages: seq<string>, oks: seq<bool>)
    requires |oks| == |pages|
    ensures CloseTargets(f, pages, oks).flag == (f.flag && !SwitchedOff(f, pages, oks))
    decreases |pages|
  {
    if pages != [] {
      var f1 := CloseTarget(f, pages[0], oks[0]);
      EmptiedBy(f.table, pages[0]);
      SwitchedOffRest(f, pages, oks);
      CloseTargetsFlag(f1, pages[1..], oks[1..]);
    }
  }

  lemma EmptiedBy<V>(m: map<string, V>, k: string)
    ensures m - {k} == map[] <==> m.Keys <= {k}
  {
    assert (m - {k}).Keys == m.Keys - {k};
    if m - {k} == map[] { assert m.Keys - {k} == {}; }
    if m.Keys <= {k} { assert (m - {k}).Keys == {} && m - {k} == map[]; }
  }

  /**
   A disconnect whose last call fails leaves the flag right exactly when no session had patterns,
   or one outside the closed pages has, or an earlier call succeeded with the table already empty.
   */
  lemma FailingDisconnectSyncIff(f: Fetch, pages: seq<string>, oks: seq<bool>)
    requires |oks| == |pages| && InSync(f)
    ensures InSync(Disconnect(f, pages, oks, false))
       <==> f.table == map[] || !(f.table.Keys <= Firsts(pages, |pages|)) || SwitchedOff(f, pages, oks)
  {
    CloseTargetsTable(f, pages, oks);
    CloseTargetsFlag(f, pages, oks);
    var closed := set p | p in pages;
    assert pages[..|pages|] == pages && Firsts(pages, |pages|) == closed;
    assert (f.table - closed).Keys == f.table.Keys - closed;
    if SwitchedOff(f, pages, oks) {
      var i :| 0 <= i < |pages| && oks[i] && f.table.Keys <= Firsts(pages, i + 1);
      assert Firsts(pages, i + 1) <= closed by { assert pages == pages[..i + 1] + pages[i + 1..]; }
    }
    if f.table.Keys <= closed {
      assert (f.table - closed).Keys == {} && f.table - closed == map[];
    } else {
      var k :| k in f.table.Keys && k !in closed;
      assert k in f.table - closed;
    }
  }

  lemma LastOne<V>(m: map<string, V>, k: string)
    ensures m - {k} == map[] <==> m == map[] || m.Keys == {k}
  {
    if m - {k} == map[] {
      forall x | x in m ensures x == k { assert x !in m - {k}; }
      if m != map[] { var x :| x in m; assert m.Keys == {k}; }
    }
    if m.Keys == {k} { assert (m - {k}).Keys == {}; }
  }

  ghost function Runs(f: Fetch, es: seq<Event>): Fetch
    requires forall e | e in es :: WellFormed(e)
    decreases |es|
  {
    if es == [] then f else Runs(Next(f, es[0]), es[1..])
  }

  /**
   Over every run of succeeding calls, in whatever order sessions enable, disable, close and
   disconnect, the flag is right.
   */
  lemma {:induction false} FlagIsRight(f: Fetch, es: seq<Event>)
    requires InSync(f) && forall e | e in es :: WellFormed(e) && e.ok
    ensures InSync(Runs(f, es))
    decreases |es|
  {
    if es != [] {
      SucceedingStepsSync(f, es[0]);
      FlagIsRight(Next(f, es[0]), es[1..]);
    }
  }

  // ---------------------------------------------------------------- tab sessions

  /** The backend intercepts exactly while some session that still exists has Fetch enabled. */
  predicate LiveSync(f: Fetch, live: set<string>) { f.flag <==> exists sid :: sid in f.table && sid in live }

  /**
   A client may enable Fetch on the tab session of a target. Closing the target then leaves that
   entry behind: the flag still tells about live sessions exactly when the tab session had no
   entry, or some other session that lives on has one.
   */
  lemma CloseLiveSyncIff(f: Fetch, page: string, tab: string, live: set<string>)
    requires InSync(f) && f.table.Keys <= live
    ensures LiveSync(CloseTarget(f, page, true), live - {page, tab})
       <==> (page == tab || tab !in f.table || exists sid :: sid in f.table && sid != page && sid != tab)
  {
    var f' := CloseTarget(f, page, true);
    assert f'.table == f.table - {page};
    if exists sid :: sid in f.table && sid != page && sid != tab {
      var sid :| sid in f.table && sid != page && sid != tab;
      assert sid in f'.table && sid in live - {page, tab} && sid in f.table;
    } else if page != tab && tab in f.table {
      assert tab in f'.table && tab in f.table;
    } else {
      assert f'.table.Keys == {};
    }
  }

  lemma TabEntryIsLeftBehind()
    ensures var f := CloseTarget(Enable(Fetch(map[], false), "tab", [], true), "page", true);
      f.flag && f.table == map["tab" := []] && !LiveSync(f, {})
  {
    assert "tab" != "page";
    var f := Enable(Fetch(map[], false), "tab", [], true);
    assert "tab" in f.table && f.table - {"page"} == f.table;
  }

  // ---------------------------------------------------------------- an intercepted request

  /**
   Case folding as strings.EqualFold has it when one side is ASCII: the long s and the Kelvin sign fold
   to letters.
   */
  function Fold(c: char): char {
    if 'A' <= c <= 'Z' then (c as int + 32) as char
    else if c == '\U{17F}' then 's'
    else if c == '\U{212A}' then 'k'
    else c
  }

  predicate EqualFold(a: string, b: string) {
    |a| == |b| && forall i | 0 <= i < |a| :: Fold(a[i]) == Fold(b[i])
  }

  /** What the compiled expression of a pattern says of a URL. */
  predicate UrlMatches(p: Pattern, url: string)
    ensures UrlMatches(p, url) <==> MatchString(Compiled(Effective(p.url)), url)
  {
    CompiledMeaning(Effective(p.url), url);
    Glob(Tokens(Effective(p.url)), url, true)
  }

  predicate Matches(p: Pattern, url: string, resourceType: string, stage: string) {
    && EqualFold(if p.stage == "" then "Request" else p.stage, stage)
    && (p.resourceType != "" ==> EqualFold(p.resourceType, resourceType))
    && UrlMatches(p, url)
  }

  /** A session without an entry of its own goes by the entry of the browser session. */
  function EntryFor(f: Fetch, sid: string): Option<seq<Pattern>> {
    if sid in f.table then Some(f.table[sid]) else if sid != "" && "" in f.table then Some(f.table[""]) else None
  }

  /** The loop over the patterns; where Fetch is not enabled it answers yes. */
  method ShouldPauseFetchRequest(f: Fetch, sid: string, url: string, resourceType: string, stage: string)
    returns (pause: bool)
    ensures var ps := EntryFor(f, sid);
      pause <==>
        ps.None? || ps.value == [] || exists i :: 0 <= i < |ps.value| && Matches(ps.value[i], url, resourceType, stage)
  {
    var entry := EntryFor(f, sid);
    if entry.None? || |entry.value| == 0 { return true; }
    var patterns := entry.value;
    var i := 0;
    while i < |patterns|
      invariant 0 <= i <= |patterns|
      invariant forall n | 0 <= n < i :: !Matches(patterns[n], url, resourceType, stage)
    {
      var pattern := patterns[i];
      var want := pattern.stage;
      if want == "" { want := "Request"; }
      i := i + 1;
      if !EqualFold(want, stage) { continue; }
      if pattern.resourceType != "" && !EqualFold(pattern.resourceType, resourceType) { continue; }
      if UrlMatches(pattern, url) {
        assert Matches(patterns[i - 1], url, resourceType, stage);
        return true;
      }
    }
    return false;
  }

  datatype Action = Continue(requestID: string) | Paused(requestID: string)

  datatype Request = Request(id: string, url: string, isNavigation: bool, navigationID: string, intercepted: bool)

  function ResourceType(r: Request): string {
    if "ws://" <= r.url || "wss://" <= r.url then "WebSocket"
    else if !r.isNavigation && r.navigationID == "" then "Other"
    else "Document"
  }

  /** Fetch is enabled for the session, with no patterns or with one that matches. */
  ghost predicate Wanted(f: Fetch, sid: string, r: Request) {
    var ps := EntryFor(f, sid);
    ps.Some? && (ps.value == []
        || exists i :: 0 <= i < |ps.value| && Matches(ps.value[i], r.url, ResourceType(r), "Request"))
  }

  /** The tail of the Network.requestWillBeSent handler, for a table that stays put while it runs. */
  method HandleIntercepted(f: Fetch, sid: string, r: Request) returns (actions: seq<Action>)
    ensures actions == if !r.intercepted then [] else if Wanted(f, sid, r) then [Paused(r.id)] else [Continue(r.id)]
  {
    actions := [];
    if r.intercepted {
      if EntryFor(f, sid).None? { return [Continue(r.id)]; }
      var pause := ShouldPauseFetchRequest(f, sid, r.url, ResourceType(r), "Request");
      if !pause { return [Continue(r.id)]; }
      actions := [Paused(r.id)];
    }
  }

  /** The handler reads the table twice; `f` and `g` are what it sees. */
  ghost predicate PausedByTwoReads(f: Fetch, g: Fetch, sid: string, r: Request) {
    EntryFor(f, sid).Some? && (EntryFor(g, sid).None? || Wanted(g, sid, r))
  }

  /** Whether an event writes or deletes the entry of a session. */
  predicate Concerns(e: Event, sid: string) { sid in Leaving(e) || (e.DidEnable? && e.sid == sid) }

  /** The last event of a run that concerns a session. */
  function LastOn(es: seq<Event>, sid: string): Option<Event> {
    if es == [] then None
    else if Concerns(es[|es| - 1], sid) then Some(es[|es| - 1])
    else LastOn(es[..|es| - 1], sid)
  }

  lemma {:induction false} RunsSnoc(f: Fetch, es: seq<Event>, e: Event)
    requires (forall d | d in es :: WellFormed(d)) && WellFormed(e)
    ensures forall d | d in es + [e] :: WellFormed(d)
    ensures Runs(f, es + [e]) == Next(Runs(f, es), e)
    decreases |es|
  {
    if es == [] {
      assert [e][1..] == [] && es + [e] == [e];
    } else {
      RunsSnoc(Next(f, es[0]), es[1..], e);
      assert (es + [e])[1..] == es[1..] + [e];
    }
  }

  function EntryOwn(f: Fetch, sid: string): Option<seq<Pattern>> { if sid in f.table then Some(f.table[sid]) else None }

  predicate Enables(e: Event) { e.DidEnable? && e.ok }

  lemma EntryAfterStep(f: Fetch, e: Event, sid: string)
    requires WellFormed(e)
    ensures !Concerns(e, sid) ==> EntryOwn(Next(f, e), sid) == EntryOwn(f, sid)
    ensures Concerns(e, sid) ==> EntryOwn(Next(f, e), sid) == if Enables(e) then Some(e.patterns) else None
  {
    if e.DidDisconnect? { CloseTargetsTable(f, e.pages, e.oks); }
  }

  /** After a run a session has the patterns of the last event on it, if that was an enable that succeeded. */
  lemma {:induction false} EntryAfterRun(f: Fetch, es: seq<Event>, sid: string)
    requires forall e | e in es :: WellFormed(e)
    ensures EntryOwn(Runs(f, es), sid) ==
      match LastOn(es, sid)
      case None => EntryOwn(f, sid)
      case Some(e) => if Enables(e) then Some(e.patterns) else None
    decreases |es|
  {
    if es != [] {
      var n := |es| - 1;
      assert es == es[..n] + [es[n]];
      EntryAfterRun(f, es[..n], sid);
      RunsSnoc(f, es[..n], es[n]);
      EntryAfterStep(Runs(f, es[..n]), es[n], sid);
    }
  }

  /**
   From the start, a session goes by the enable that was the last event on it, or else by the one
   that was the last on the browser session; otherwise nothing is intercepted for it.
   */
  lemma GoesBy(es: seq<Event>, sid: string)
    requires forall e | e in es :: WellFormed(e)
    ensures var own, shared := LastOn(es, sid), LastOn(es, "");
      EntryFor(Runs(Fetch(map[], false), es), sid) ==
        if own.Some? && Enables(own.value) then Some(own.value.patterns)
        else if shared.Some? && Enables(shared.value) then Some(shared.value.patterns)
        else None
  {
    EntryAfterRun(Fetch(map[], false), es, sid);
    EntryAfterRun(Fetch(map[], false), es, "");
  }

  /**
   Whatever handlers run between the two reads, the request is paused for a session that by then has
   Fetch off, and so for nobody, exactly when the session had Fetch on at the first read and the last
   event on it in between took its entry out.
   */
  lemma PausedForNobodyIff(f: Fetch, es: seq<Event>, sid: string, r: Request)
    requires sid != "" && "" !in f.table && forall e | e in es :: WellFormed(e) && !Concerns(e, "")
    ensures PausedByTwoReads(f, Runs(f, es), sid, r) && EntryFor(Runs(f, es), sid).None?
       <==> sid in f.table && LastOn(es, sid).Some? && !(LastOn(es, sid).value.DidEnable? && LastOn(es, sid).value.ok)
  {
    EntryAfterRun(f, es, sid);
    EntryAfterRun(f, es, "");
    NeverConcerned(es, "");
  }

  lemma {:induction false} NeverConcerned(es: seq<Event>, sid: string)
    requires forall e | e in es :: !Concerns(e, sid)
    ensures LastOn(es, sid) == None
  {
    if es != [] { NeverConcerned(es[..|es| - 1], sid); }
  }

  /**
   The handler decides as one read at the later time would, unless the last event on the session in
   between took out an entry it had, or gave an entry that wants the request to one that had none.
   */
  lemma DecidesAsOneReadIff(f: Fetch, es: seq<Event>, sid: string, r: Request)
    requires sid != "" && "" !in f.table && forall e | e in es :: WellFormed(e) && !Concerns(e, "")
    ensures var g := Runs(f, es); var last := LastOn(es, sid);
      (PausedByTwoReads(f, g, sid, r) <==> Wanted(g, sid, r)) <==>
        || last.None?
        || (if sid in f.table then Enables(last.value) else !Enables(last.value) || !Wanted(g, sid, r))
  {
    EntryAfterRun(f, es, sid);
    EntryAfterRun(f, es, "");
    NeverConcerned(es, "");
  }

  // ---------------------------------------------------------------- which requests are wanted

  /** Two characters fold alike if they are the same letter in either case; s and k have a third form. */
  lemma FoldIff(c: char, d: char)
    ensures Fold(c) == Fold(d) <==>
      || c == d
      || ('a' <= c <= 'z' && d as int == c as int - 32) || ('a' <= d <= 'z' && c as int == d as int - 32)
      || (c in {'s', 'S', '\U{17F}'} && d in {'s', 'S', '\U{17F}'})
      || (c in {'k', 'K', '\U{212A}'} && d in {'k', 'K', '\U{212A}'})
  {}

  /** The table in which one session has Fetch enabled with one pattern. */
  function Only(sid: string, p: Pattern): Fetch { Fetch(map[sid := [p]], true) }

  /** An empty list wants every request, any other list those that some pattern of it wants alone. */
  lemma WantedByOne(f: Fetch, sid: string, r: Request)
    ensures Wanted(f, sid, r) <==>
      match EntryFor(f, sid)
      case None => false
      case Some(ps) => ps == [] || exists p :: p in ps && Wanted(Only(sid, p), sid, r)
  {
    forall p ensures Wanted(Only(sid, p), sid, r) <==> Matches(p, r.url, ResourceType(r), "Request") {
      WantedAlone(sid, p, r);
    }
  }

  lemma WantedAlone(sid: string, p: Pattern, r: Request)
    ensures Wanted(Only(sid, p), sid, r) <==> Matches(p, r.url, ResourceType(r), "Request")
  {
    assert EntryFor(Only(sid, p), sid).value[0] == p;
  }

  /**
   A pattern with a resource type wants the requests of that type whose URL matches, one without a type
   all of those.
   */
  lemma TypeDecides(sid: string, url: string, resourceType: string, r: Request)
    ensures var socket := "ws://" <= r.url || "wss://" <= r.url;
      var navigates := r.isNavigation || r.navigationID != "";
      Wanted(Only(sid, Pattern(url, resourceType, "")), sid, r) <==>
        && MatchString(Compiled(Effective(url)), r.url)
        && (|| resourceType == ""
            || (EqualFold(resourceType, "WebSocket") && socket)
            || (EqualFold(resourceType, "Document") && !socket && navigates)
            || (EqualFold(resourceType, "Other") && !socket && !navigates))
  {
    hide MatchString, Compiled, Effective, Glob, Tokens;
    WantedAlone(sid, Pattern(url, resourceType, ""), r);
    assert EqualFold("Request", "Request");
    hide Wanted, EqualFold;
  }

  /**
   No stage is the request stage; the letter case of stage and type does not matter; no other stage
   wants anything.
   */
  lemma StageDecides(sid: string, p: Pattern, q: Pattern, r: Request)
    requires p.url == q.url
    requires EqualFold(p.resourceType, q.resourceType)
    requires p.stage == "" || EqualFold(p.stage, "request")
    ensures Wanted(Only(sid, p), sid, r) <==>
      Wanted(Only(sid, q.(stage := "")), sid, r)
    ensures q.stage != "" && !EqualFold(q.stage, "request") ==> !Wanted(Only(sid, q), sid, r)
  {
    WantedAlone(sid, p, r);
    WantedAlone(sid, q.(stage := ""), r);
    WantedAlone(sid, q, r);
    FoldsWith(p.resourceType, q.resourceType, ResourceType(r));
    RequestFolds(p.stage);
    RequestFolds(q.stage);
    assert EqualFold("Request", "Request");
    hide Wanted, EqualFold, MatchString, Compiled, Effective, Glob, Tokens;
  }

  lemma FoldsWith(a: string, b: string, c: string)
    requires EqualFold(a, b)
    ensures EqualFold(a, c) <==> EqualFold(b, c)
    ensures a == "" <==> b == ""
  {}

  lemma RequestFolds(stage: string)
    ensures EqualFold(stage, "request") <==> EqualFold(stage, "Request")
  {
    assert Fold("Request"[0]) == Fold("request"[0]);
    assert "Request"[1..] == "request"[1..];
    forall i | 1 <= i < 7 ensures "Request"[i] == "request"[i] {
      assert "Request"[1..][i - 1] == "request"[1..][i - 1];
    }
    assert forall i | 0 <= i < 7 :: Fold("Request"[i]) == Fold("request"[i]);
  }

  /**
   A pattern without wildcards or quoting in URL, with no type and no stage, wants the requests for
   that URL and no others.
   */
  lemma PlainPatternWantsItsUrl(f: Fetch, sid: string, text: string, r: Request)
    requires text != "" && EntryFor(f, sid) == Some([Pattern(Quoted(text), "", "")])
    ensures Wanted(f, sid, r) <==> r.url == text
  {
    var p := Pattern(Quoted(text), "", "");
    QuotedMatchesItself(text, r.url);
    assert Effective(Quoted(text)) == Quoted(text);
    assert EntryFor(f, sid).value[0] == p;
    assert Matches(p, r.url, ResourceType(r), "Request") <==> UrlMatches(p, r.url);
  }
}
