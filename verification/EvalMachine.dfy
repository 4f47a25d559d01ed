/**
 The $eval interception of Runtime.callFunctionOn (pkg/bridge/runtime.go) on the Juggler backend.
 A query-selector call leaves its selector behind in three maps, and a later call on the same
 session is combined with it.
 */
module EvalMachine {
  import opened Common
  import opened OwnedTables

  // ---------------------------------------------------------------- text tests

  predicate StartsAt(s: string, sub: string, i: nat) { i + |sub| <= |s| && s[i..i + |sub|] == sub }

  predicate Contains(s: string, sub: string) { exists i | 0 <= i <= |s| :: StartsAt(s, sub, i) }

  /** The place of the first occurrence from place i on, |s| + 1 if there is none. */
  function IndexFrom(s: string, sub: string, i: nat): (r: nat)
    requires i <= |s| + 1
    ensures i <= r <= |s| + 1 && (r <= |s| ==> StartsAt(s, sub, r))
    ensures forall j | i <= j < r :: !StartsAt(s, sub, j)
    decreases |s| + 1 - i
  {
    if i > |s| || StartsAt(s, sub, i) then i else IndexFrom(s, sub, i + 1)
  }

  function CutAt(s: string, sub: string): string {
    var i := IndexFrom(s, sub, 0);
    if i <= |s| then s[..i] else s
  }

  /** Drops the source-URL comments that Puppeteer appends. */
  function Stripped(decl: string): string { CutAt(CutAt(decl, "\n//# sourceURL="), "\n//@ sourceURL=") }

  const INTERNAL := [
    "addPageBinding", "puppeteer_", "__ariaQuery", "yield* iterable", "iterator.next()", "element.isConnected",
    "instanceof SVGElement", "IntersectionObserver", "getClientRects", "clientWidth", "checkVisibility"]

  predicate IsInternal(fn: string) { exists i | 0 <= i < |INTERNAL| :: Contains(fn, INTERNAL[i]) }

  predicate IsQuery(fn: string) { Contains(fn, "cssQuerySelector") }

  predicate IsQueryAll(fn: string) { Contains(fn, "cssQuerySelectorAll") }

  /** A call that is neither Puppeteer plumbing nor a query. */
  predicate IsOrdinary(fn: string) { !IsInternal(fn) && !IsQuery(fn) }

  /** To contain a text is to have it between two others. */
  lemma ContainsIff(s: string, sub: string)
    ensures Contains(s, sub) <==> exists before, after :: s == before + sub + after
  {
    if i :| 0 <= i <= |s| && StartsAt(s, sub, i) { assert s == s[..i] + sub + s[i + |sub|..]; }
    if before, after :| s == before + sub + after { assert StartsAt(s, sub, |before|); }
  }

  /**
   Stripping leaves the text up to the first comment of either kind: none is left in it, one of them
   follows it, and a text without any is left alone.
   */
  lemma StrippedMeaning(decl: string)
    ensures var r := Stripped(decl);
      && r <= decl && !Contains(r, "\n//# sourceURL=") && !Contains(r, "\n//@ sourceURL=")
      && (r == decl || StartsAt(decl, "\n//# sourceURL=", |r|) || StartsAt(decl, "\n//@ sourceURL=", |r|))
      && (!Contains(decl, "\n//# sourceURL=") && !Contains(decl, "\n//@ sourceURL=") ==> r == decl)
  {
    var once := CutAt(decl, "\n//# sourceURL=");
    CutMeaning(decl, "\n//# sourceURL=");
    CutMeaning(once, "\n//@ sourceURL=");
    if Contains(Stripped(decl), "\n//# sourceURL=") { PrefixContains(Stripped(decl), once, "\n//# sourceURL="); }
    if Stripped(decl) != once { assert StartsAt(decl, "\n//@ sourceURL=", |Stripped(decl)|); }
  }

  lemma CutMeaning(s: string, sub: string)
    requires sub != ""
    ensures CutAt(s, sub) <= s && !Contains(CutAt(s, sub), sub)
    ensures CutAt(s, sub) == s || StartsAt(s, sub, |CutAt(s, sub)|)
  {
    var r := CutAt(s, sub);
    if i :| 0 <= i <= |r| && StartsAt(r, sub, i) { assert StartsAt(s, sub, i); }
  }

  lemma PrefixContains(a: string, b: string, sub: string)
    requires a <= b && Contains(a, sub)
    ensures Contains(b, sub)
  {
    var i :| 0 <= i <= |a| && StartsAt(a, sub, i);
    assert StartsAt(b, sub, i);
  }

  /** The texts that tell a call of Puppeteer's own, and a query. */
  lemma TextTests(fn: string)
    ensures IsInternal(fn) <==>
      || Contains(fn, "addPageBinding") || Contains(fn, "puppeteer_") || Contains(fn, "__ariaQuery")
      || Contains(fn, "yield* iterable") || Contains(fn, "iterator.next()") || Contains(fn, "element.isConnected")
      || Contains(fn, "instanceof SVGElement") || Contains(fn, "IntersectionObserver")
      || Contains(fn, "getClientRects") || Contains(fn, "clientWidth") || Contains(fn, "checkVisibility")
    ensures IsQuery(fn) <==> Contains(fn, "cssQuerySelector")
    ensures IsQueryAll(fn) <==> Contains(fn, "cssQuerySelectorAll")
  {
    hide Contains;
    assert INTERNAL[0] == "addPageBinding" && INTERNAL[1] == "puppeteer_" && INTERNAL[2] == "__ariaQuery";
    assert INTERNAL[3] == "yield* iterable" && INTERNAL[4] == "iterator.next()" && INTERNAL[5] == "element.isConnected";
    assert INTERNAL[6] == "instanceof SVGElement" && INTERNAL[7] == "IntersectionObserver";
    assert INTERNAL[8] == "getClientRects" && INTERNAL[9] == "clientWidth" && INTERNAL[10] == "checkVisibility";
    assert |INTERNAL| == 11;
  }

  // ---------------------------------------------------------------- the three maps

  datatype Maps = Maps(query: map<string, string>, all: map<string, bool>, skips: map<string, int>)

  /** What a call comes to: an empty object, a combined evaluation, a query, or an ordinary call. */
  datatype Outcome = Dummy | Combined(selector: string, all: bool, fn: string) | Queried(selector: string,
      all: bool) | Plain(fn: string)

  /**
   `arg` is the string value of the second argument, where the arguments parse and there are two; ""
   stands for no value.
   */
  datatype Command = Call(decl: string, arg: Option<string>) | Close

  function Value<V>(m: map<string, V>, k: string, zero: V): V { if k in m then m[k] else zero }

  function Forget(m: Maps, sid: string): Maps { Maps(Del(m.query, sid), Del(m.all, sid), Del(m.skips, sid)) }

  class Evaluator {
    var lastQuery: map<string, string>
    var lastQueryAll: map<string, bool>
    var lastQuerySkips: map<string, int>

    constructor ()
      ensures Now() == Maps(map[], map[], map[])
    {
      lastQuery, lastQueryAll, lastQuerySkips := map[], map[], map[];
    }

    function Now(): Maps
      reads this
    {
      Maps(lastQuery, lastQueryAll, lastQuerySkips)
    }

    /** What Page.close and the cleanup of a target do. */
    method ForgetSession(sid: string)
      modifies this
      ensures Now() == Forget(old(Now()), sid)
    {
      lastQuery := Del(lastQuery, sid);
      lastQueryAll := Del(lastQueryAll, sid);
      lastQuerySkips := Del(lastQuerySkips, sid);
    }

    method CallFunctionOn(sid: string, decl: string, arg: Option<string>) returns (out: Outcome)
      modifies this
      ensures (Now(), out) == Called(old(Now()), sid, Stripped(decl), arg)
    {
      var fn := Stripped(decl);
      var pendingSelector := Value(lastQuery, sid, "");
      var pendingAll := Value(lastQueryAll, sid, false);
      var internal := IsInternal(fn);
      if pendingSelector != "" && internal {
        ForgetSession(sid);
        pendingSelector := "";
      }
      if pendingSelector != "" && !IsQuery(fn) && !internal {
        var skipsRemaining := Value(lastQuerySkips, sid, 0);
        if skipsRemaining > 0 {
          lastQuerySkips := lastQuerySkips[sid := Value(lastQuerySkips, sid, 0) - 1];
          return Dummy;
        }
        lastQuery := Del(lastQuery, sid);
        lastQueryAll := Del(lastQueryAll, sid);
        return Combined(pendingSelector, pendingAll, fn);
      }
      if IsQuery(fn) && arg.Some? && arg.value != "" {
        var isAll := IsQueryAll(fn);
        lastQuery := lastQuery[sid := arg.value];
        lastQueryAll := lastQueryAll[sid := isAll];
        lastQuerySkips := lastQuerySkips[sid := if isAll then 3 else 0];
        return Queried(arg.value, isAll);
      }
      return Plain(fn);
    }
  }

  /** The same step on the values of the maps. */
  function Called(m: Maps, sid: string, fn: string, arg: Option<string>): (Maps, Outcome) {
    var pending := Value(m.query, sid, "");
    if pending != "" && IsOrdinary(fn) then
      var skips := Value(m.skips, sid, 0);
      if skips > 0 then (m.(skips := m.skips[sid := skips - 1]), Dummy)
      else (m.(query := Del(m.query, sid), all := Del(m.all, sid)), Combined(pending, Value(m.all, sid, false), fn))
    else
      var m' := if pending != "" && IsInternal(fn) then Forget(m, sid) else m;
      if IsQuery(fn) && arg.Some? && arg.value != "" then
        var isAll := IsQueryAll(fn);
        (Maps(m'.query[sid := arg.value], m'.all[sid := isAll], m'.skips[sid := if isAll then 3 else 0]),
            Queried(arg.value, isAll))
      else (m', Plain(fn))
  }

  function Does(m: Maps, sid: string, c: Command): (Maps, Option<Outcome>) {
    match c
    case Call(decl, arg) => var (m', out) := Called(m, sid, Stripped(decl), arg); (m', Some(out))
    case Close => (Forget(m, sid), None)
  }

  // ---------------------------------------------------------------- one session as one machine

  /** A session either holds no selector, or one with some plumbing calls still to skip. */
  datatype Machine = Idle | Waiting(selector: string, all: bool, left: nat)

  function Advance(x: Machine, fn: string, arg: Option<string>): (Machine, Outcome) {
    if IsQuery(fn) && arg.Some? && arg.value != "" then
      (Waiting(arg.value, IsQueryAll(fn), if IsQueryAll(fn) then 3 else 0), Queried(arg.value, IsQueryAll(fn)))
    else if IsInternal(fn) then (Idle, Plain(fn))
    else if x.Idle? || IsQuery(fn) then (x, Plain(fn))
    else if x.left > 0 then (x.(left := x.left - 1), Dummy)
    else (Idle, Combined(x.selector, x.all, fn))
  }

  function Moves(x: Machine, c: Command): (Machine, Option<Outcome>) {
    match c
    case Call(decl, arg) => var (x', out) := Advance(x, Stripped(decl), arg); (x', Some(out))
    case Close => (Idle, None)
  }

  /** Skips lie in 0..3, and are zero unless a selector of a querySelectorAll is pending. */
  predicate SessionOk(m: Maps, sid: string) {
    && 0 <= Value(m.skips, sid, 0) <= 3
    && (Value(m.skips, sid, 0) > 0 ==> sid in m.query && Value(m.all, sid, false))
    && (sid in m.query <==> sid in m.all) && (sid in m.query ==> m.query[sid] != "")
  }

  ghost predicate Inv(m: Maps) { forall sid {:trigger SessionOk(m, sid)} :: SessionOk(m, sid) }

  function MachineOf(m: Maps, sid: string): Machine {
    if sid !in m.query then Idle else Waiting(m.query[sid], Value(m.all, sid, false), AsNat(Value(m.skips, sid, 0)))
  }

  function AsNat(n: int): nat { if n < 0 then 0 else n }

  /** The maps run one machine for each session, and a command of one session moves no other machine. */
  lemma MapsAreMachines(m: Maps, sid: string, c: Command, other: string)
    requires Inv(m)
    ensures var (m', out) := Does(m, sid, c);
      && (MachineOf(m', sid), out) == Moves(MachineOf(m, sid), c)
      && (other != sid ==> MachineOf(m', other) == MachineOf(m, other))
  {
    hide Stripped, IsInternal, IsQuery, IsQueryAll;
    assert SessionOk(m, sid) && SessionOk(m, other);
  }

  lemma InvStep(m: Maps, sid: string, c: Command)
    requires Inv(m)
    ensures Inv(Does(m, sid, c).0)
  {
    hide Stripped, IsInternal, IsQuery, IsQueryAll;
    forall k ensures SessionOk(Does(m, sid, c).0, k) { assert SessionOk(m, k) && SessionOk(m, sid); }
  }

  // ---------------------------------------------------------------- command sequences of many sessions

  datatype Sent = Sent(sid: string, command: Command)

  function Run(m: Maps, cs: seq<Sent>): Maps
    decreases |cs|
  {
    if cs == [] then m else Run(Does(m, cs[0].sid, cs[0].command).0, cs[1..])
  }

  /** What one session sees of a run: the outcomes of its own calls. */
  function Outcomes(m: Maps, cs: seq<Sent>, sid: string): seq<Outcome>
    decreases |cs|
  {
    if cs == [] then [] else
    var (m', out) := Does(m, cs[0].sid, cs[0].command);
    (if cs[0].sid == sid && out.Some? then [out.value] else []) + Outcomes(m', cs[1..], sid)
  }

  function Own(cs: seq<Sent>, sid: string): seq<Command> {
    if cs == [] then [] else (if cs[0].sid == sid then [cs[0].command] else []) + Own(cs[1..], sid)
  }

  function MachineRun(x: Machine, cs: seq<Command>): (Machine, seq<Outcome>)
    decreases |cs|
  {
    if cs == [] then (x, []) else
    var (x', out) := Moves(x, cs[0]);
    var (end, outs) := MachineRun(x', cs[1..]);
    (end, (if out.Some? then [out.value] else []) + outs)
  }

  /** Sessions do not interfere: each sees exactly what its own commands make its machine do. */
  lemma {:induction false} SessionsAreIndependent(m: Maps, cs: seq<Sent>, sid: string)
    requires Inv(m)
    ensures Inv(Run(m, cs))
    ensures (MachineOf(Run(m, cs), sid), Outcomes(m, cs, sid)) == MachineRun(MachineOf(m, sid), Own(cs, sid))
    decreases |cs|
  {
    hide Does, Moves, MachineOf, Inv;
    if cs != [] {
      var (m', out) := Does(m, cs[0].sid, cs[0].command);
      MapsAreMachines(m, cs[0].sid, cs[0].command, sid);
      InvStep(m, cs[0].sid, cs[0].command);
      SessionsAreIndependent(m', cs[1..], sid);
      if cs[0].sid == sid {
        assert Own(cs, sid)[0] == cs[0].command && Own(cs, sid)[1..] == Own(cs[1..], sid);
      } else {
        assert Own(cs, sid) == Own(cs[1..], sid) && Outcomes(m, cs, sid) == Outcomes(m', cs[1..], sid);
      }
    }
  }

  /** In every reachable state the skip counter of every session is in 0..3, and zero unless a selector is pending. */
  lemma SkipsStayInRange(cs: seq<Sent>, sid: string)
    ensures var m := Run(Maps(map[], map[], map[]), cs); var skips := Value(m.skips, sid, 0);
      0 <= skips <= 3 && (sid !in m.query ==> skips == 0)
  {
    var m := Maps(map[], map[], map[]);
    forall k ensures SessionOk(m, k) {}
    SessionsAreIndependent(m, cs, sid);
    assert SessionOk(Run(m, cs), sid);
  }

  // ---------------------------------------------------------------- what a selector comes to

  predicate OrdinaryCall(c: Command) { c.Call? && IsOrdinary(Stripped(c.decl)) }

  lemma MachineRunOne(x: Machine, c: Command, cs: seq<Command>)
    ensures var (x', out) := Moves(x, c); var (end, outs) := MachineRun(x', cs);
      MachineRun(x, [c] + cs) == (end, (if out.Some? then [out.value] else []) + outs)
  {
    assert ([c] + cs)[1..] == cs;
  }

  /** A query call that brings no selector: it stores nothing and passes as an ordinary evaluation. */
  predicate BareQuery(c: Command) {
    c.Call? && IsQuery(Stripped(c.decl)) && !IsInternal(Stripped(c.decl)) && !(c.arg.Some? && c.arg.value != "")
  }

  function Ordinaries(cs: seq<Command>): nat {
    if cs == [] then 0 else (if OrdinaryCall(cs[0]) then 1 else 0) + Ordinaries(cs[1..])
  }

  /** Ordinary calls and bare queries in any order, the last an ordinary call, n ordinary ones before it. */
  predicate Approach(cs: seq<Command>, n: nat) {
    && cs != [] && OrdinaryCall(cs[|cs| - 1]) && Ordinaries(cs) == n + 1
    && forall i | 0 <= i < |cs| :: OrdinaryCall(cs[i]) || BareQuery(cs[i])
  }

  function AnswerWhileSkipping(c: Command): Outcome
    requires c.Call?
  {
    if OrdinaryCall(c) then Dummy else Plain(Stripped(c.decl))
  }

  lemma {:induction false} SomeOrdinary(cs: seq<Command>)
    requires cs != [] && OrdinaryCall(cs[|cs| - 1])
    ensures Ordinaries(cs) >= 1
  {
    if |cs| > 1 { SomeOrdinary(cs[1..]); }
  }

  /** The last answer combines the text of its call with the selector, the others pass the pending selector by. */
  predicate CombinesLast(cs: seq<Command>, outs: seq<Outcome>, selector: string, all: bool) {
    && cs != [] && |outs| == |cs| && cs[|cs| - 1].Call?
    && outs[|cs| - 1] == Combined(selector, all, Stripped(cs[|cs| - 1].decl))
    && forall i | 0 <= i < |cs| - 1 :: cs[i].Call? && outs[i] == AnswerWhileSkipping(cs[i])
  }

  lemma CombinesLater(cs: seq<Command>, outs: seq<Outcome>, selector: string, all: bool)
    requires |cs| > 1 && cs[0].Call? && CombinesLast(cs[1..], outs, selector, all)
    ensures CombinesLast(cs, [AnswerWhileSkipping(cs[0])] + outs, selector, all)
  {
    hide AnswerWhileSkipping, Stripped;
    var rest, more := cs[1..], [AnswerWhileSkipping(cs[0])] + outs;
    assert cs[|cs| - 1] == rest[|rest| - 1];
    forall i | 0 <= i < |cs| - 1 ensures cs[i].Call? && more[i] == AnswerWhileSkipping(cs[i]) {
      if i > 0 { assert cs[i] == rest[i - 1] && more[i] == outs[i - 1]; }
    }
  }

  lemma {:induction false} SkipsThenCombines(selector: string, all: bool, n: nat, cs: seq<Command>)
    requires Approach(cs, n)
    ensures var (end, outs) := MachineRun(Waiting(selector, all, n), cs);
      end == Idle && CombinesLast(cs, outs, selector, all)
    decreases |cs|
  {
    var x := Waiting(selector, all, n);
    assert MachineRun(Idle, []) == (Idle, []) && cs[0].Call?;
    ApproachRest(cs, n);
    OrdinaryIsNoQuery(cs[0]);
    ApproachMove(x, cs[0]);
    hide OrdinaryCall, BareQuery, Moves, MachineRun, Approach, Stripped;
    if |cs| == 1 {
      MachineMoves(x, cs, Idle, Combined(selector, all, Stripped(cs[0].decl)));
    } else {
      var x' := if OrdinaryCall(cs[0]) then Waiting(selector, all, n - 1) else x;
      MachineMoves(x, cs, x', AnswerWhileSkipping(cs[0]));
      SkipsThenCombines(selector, all, x'.left, cs[1..]);
      hide CombinesLast, AnswerWhileSkipping;
      CombinesLater(cs, MachineRun(x', cs[1..]).1, selector, all);
    }
  }

  lemma MachineMoves(x: Machine, cs: seq<Command>, x': Machine, out: Outcome)
    requires cs != [] && Moves(x, cs[0]) == (x', Some(out))
    ensures MachineRun(x, cs) == (MachineRun(x', cs[1..]).0, [out] + MachineRun(x', cs[1..]).1)
  {
    hide Moves;
  }

  lemma OrdinaryIsNoQuery(c: Command)
    ensures !(OrdinaryCall(c) && BareQuery(c))
  {
    hide Stripped;
  }

  /** The first command of an approach, and the approach that the others make. */
  lemma ApproachRest(cs: seq<Command>, n: nat)
    requires Approach(cs, n)
    ensures forall i | 0 <= i < |cs| :: cs[i].Call?
    ensures OrdinaryCall(cs[0]) || BareQuery(cs[0])
    ensures |cs| == 1 ==> n == 0 && OrdinaryCall(cs[0]) && cs[1..] == []
    ensures |cs| > 1 ==> (OrdinaryCall(cs[0]) ==> n > 0) && Approach(cs[1..], if OrdinaryCall(cs[0]) then n - 1 else n)
  {
    hide Stripped, IsInternal, IsQuery, IsOrdinary;
    if |cs| > 1 { SomeOrdinary(cs[1..]); }
    else { assert Ordinaries(cs[1..]) == 0; }
  }

  lemma ApproachMove(x: Machine, c: Command)
    requires x.Waiting? && (OrdinaryCall(c) || BareQuery(c))
    ensures Moves(x, c) ==
      if BareQuery(c) then (x, Some(Plain(Stripped(c.decl))))
      else if x.left > 0 then (x.(left := x.left - 1), Some(Dummy))
      else (Idle, Some(Combined(x.selector, x.all, Stripped(c.decl))))
  {
    hide Stripped;
  }

  /**
   A query for all elements answers exactly three ordinary calls with an empty object and is
   combined with the fourth; a query for one element is combined with the first. Query calls that
   bring no selector may come in between: they are evaluated as they are and change nothing.
   */
  lemma QueryThenCombined(x: Machine, q: Command, cs: seq<Command>)
    requires q.Call? && IsQuery(Stripped(q.decl)) && q.arg.Some? && q.arg.value != ""
    requires Approach(cs, if IsQueryAll(Stripped(q.decl)) then 3 else 0)
    ensures var all := IsQueryAll(Stripped(q.decl)); var (end, outs) := MachineRun(x, [q] + cs); var last := |cs| - 1;
      && end == Idle && |outs| == 1 + |cs| && outs[0] == Queried(q.arg.value, all)
      && outs[1 + last] == Combined(q.arg.value, all, Stripped(cs[last].decl))
      && forall i | 0 <= i < last :: outs[1 + i] == AnswerWhileSkipping(cs[i])
  {
    var all := IsQueryAll(Stripped(q.decl));
    SkipsThenCombines(q.arg.value, all, if all then 3 else 0, cs);
    MachineRunOne(x, q, cs);
  }

  // ---------------------------------------------------------------- what an ordinary call comes to

  /** Command k brought the selector, and since then there were ordinary calls and bare queries only. */
  predicate HeldSince(cs: seq<Command>, k: nat, selector: string, all: bool) {
    && k < |cs| && cs[k].Call? && IsQuery(Stripped(cs[k].decl)) && cs[k].arg == Some(selector) && selector != ""
    && IsQueryAll(Stripped(cs[k].decl)) == all
    && forall j | k < j < |cs| :: OrdinaryCall(cs[j]) || BareQuery(cs[j])
  }

  /** So many ordinary calls have come since then. */
  ghost predicate HeldFor(cs: seq<Command>, selector: string, all: bool, calls: nat) {
    exists k: nat :: HeldSince(cs, k, selector, all) && Ordinaries(cs[k + 1..]) == calls
  }

  lemma {:induction false} OrdinariesSnoc(cs: seq<Command>, c: Command)
    ensures Ordinaries(cs + [c]) == Ordinaries(cs) + if OrdinaryCall(c) then 1 else 0
  {
    hide OrdinaryCall;
    if cs == [] {
      assert cs + [c] == [c] && Ordinaries([c][1..]) == 0;
    } else {
      OrdinariesSnoc(cs[1..], c);
      assert (cs + [c])[1..] == cs[1..] + [c];
    }
  }

  lemma HeldSinceSnoc(cs: seq<Command>, c: Command, k: nat, selector: string, all: bool)
    requires k < |cs|
    ensures HeldSince(cs + [c], k, selector, all) <==>
      HeldSince(cs, k, selector, all) && (OrdinaryCall(c) || BareQuery(c))
    ensures Ordinaries((cs + [c])[k + 1..]) == Ordinaries(cs[k + 1..]) + if OrdinaryCall(c) then 1 else 0
  {
    hide OrdinaryCall, BareQuery, Stripped, IsQuery, IsQueryAll;
    assert (cs + [c])[k + 1..] == cs[k + 1..] + [c];
    OrdinariesSnoc(cs[k + 1..], c);
    assert (cs + [c])[|cs|] == c;
    forall j | 0 <= j < |cs| ensures (cs + [c])[j] == cs[j] {}
  }

  /** A command that goes on holding: nothing is added but one call, if it is an ordinary one. */
  lemma HeldForOn(cs: seq<Command>, c: Command, selector: string, all: bool, calls: nat)
    requires OrdinaryCall(c) || BareQuery(c)
    ensures HeldFor(cs + [c], selector, all, calls) <==>
      if OrdinaryCall(c) then calls > 0 && HeldFor(cs, selector, all, calls - 1) else HeldFor(cs, selector, all, calls)
  {
    hide Stripped, IsQuery, IsQueryAll, IsInternal;
    NoStore(cs, c, selector, all);
    if HeldFor(cs + [c], selector, all, calls) {
      var k: nat :| HeldSince(cs + [c], k, selector, all) && Ordinaries((cs + [c])[k + 1..]) == calls;
      HeldSinceSnoc(cs, c, k, selector, all);
    }
    var before := if OrdinaryCall(c) then calls - 1 else calls;
    if before >= 0 && HeldFor(cs, selector, all, before) {
      var k: nat :| HeldSince(cs, k, selector, all) && Ordinaries(cs[k + 1..]) == before;
      HeldSinceSnoc(cs, c, k, selector, all);
      assert HeldSince(cs + [c], k, selector, all) && Ordinaries((cs + [c])[k + 1..]) == calls;
    }
  }

  lemma NoStore(cs: seq<Command>, c: Command, selector: string, all: bool)
    requires OrdinaryCall(c) || BareQuery(c)
    ensures !HeldSince(cs + [c], |cs|, selector, all)
  {
    hide Stripped;
    assert (cs + [c])[|cs|] == c;
  }

  /** Any other command ends what was held, and holds its own selector if it brings one. */
  lemma HeldForAnew(cs: seq<Command>, c: Command, selector: string, all: bool, calls: nat)
    requires !OrdinaryCall(c) && !BareQuery(c)
    ensures HeldFor(cs + [c], selector, all, calls) <==> calls == 0 && HeldSince([c], 0, selector, all)
  {
    hide OrdinaryCall, BareQuery, Stripped, IsQuery, IsQueryAll;
    var longer := cs + [c];
    assert longer[|cs|] == c && longer[|cs| + 1..] == [] && Ordinaries([]) == 0;
    assert HeldSince(longer, |cs|, selector, all) <==> HeldSince([c], 0, selector, all);
    if HeldFor(longer, selector, all, calls) {
      var k: nat :| HeldSince(longer, k, selector, all) && Ordinaries(longer[k + 1..]) == calls;
      if k < |cs| { HeldSinceSnoc(cs, c, k, selector, all); }
    }
  }

  /** How a command moves a machine, told by its kind. */
  lemma MoveByKind(x: Machine, c: Command)
    ensures BareQuery(c) ==> Moves(x, c).0 == x
    ensures OrdinaryCall(c) ==>
      Moves(x, c) == (if x.Idle? then (Idle, Some(Plain(Stripped(c.decl))))
                      else if x.left > 0 then (x.(left := x.left - 1), Some(Dummy))
                      else (Idle, Some(Combined(x.selector, x.all, Stripped(c.decl)))))
    ensures !OrdinaryCall(c) && !BareQuery(c) ==>
      forall selector, all, left ::
        Moves(x, c).0 == Waiting(selector, all, left) <==>
          HeldSince([c], 0, selector, all) && left == if all then 3 else 0
  {
    hide Stripped;
    OrdinaryIsNoQuery(c);
  }

  /** What a session waits for after any commands, told from the commands themselves. */
  lemma {:induction false} WaitingIff(cs: seq<Command>, selector: string, all: bool, left: nat)
    ensures var skips := if all then 3 else 0;
      MachineRun(Idle, cs).0 == Waiting(selector, all, left) <==>
        left <= skips && HeldFor(cs, selector, all, skips - left)
    decreases |cs|
  {
    hide Moves, OrdinaryCall, BareQuery, HeldSince, HeldFor;
    if cs == [] {
      forall calls: nat ensures !HeldFor(cs, selector, all, calls) { NothingHeld(selector, all, calls); }
    } else {
      var skips, n := if all then 3 else 0, |cs| - 1;
      var before, c := cs[..n], cs[n];
      assert cs == before + [c];
      MachineRunSnoc(Idle, before, c);
      var mid := MachineRun(Idle, before).0;
      MoveByKind(mid, c);
      if OrdinaryCall(c) {
        WaitingIff(before, selector, all, left + 1);
        if left <= skips { HeldForOn(before, c, selector, all, skips - left); }
      } else if BareQuery(c) {
        WaitingIff(before, selector, all, left);
        if left <= skips { HeldForOn(before, c, selector, all, skips - left); }
      } else {
        if left <= skips { HeldForAnew(before, c, selector, all, skips - left); }
      }
    }
  }

  lemma NothingHeld(selector: string, all: bool, calls: nat)
    ensures !HeldFor([], selector, all, calls)
  {
    hide Stripped;
  }

  /**
   What an ordinary call comes to, told from the commands of its session before it: it is combined with
   the selector of the latest query that brought one if only ordinary calls and bare queries have come
   since, and of ordinary ones three for a query for all and none for any other; it is answered with an
   empty object if fewer than that have come; and else it is evaluated as it is.
   */
  lemma OrdinaryAnswerIff(cs: seq<Command>, c: Command)
    requires OrdinaryCall(c)
    ensures var out := Moves(MachineRun(Idle, cs).0, c).1;
      && (forall selector, all :: out == Some(Combined(selector, all, Stripped(c.decl))) <==>
            HeldFor(cs, selector, all, if all then 3 else 0))
      && (out == Some(Dummy) <==> exists selector, calls: nat :: calls < 3 && HeldFor(cs, selector, true, calls))
      && (out.Some? && (out.value.Combined? || out.value == Dummy || out.value == Plain(Stripped(c.decl))))
  {
    var x, fn := MachineRun(Idle, cs).0, Stripped(c.decl);
    MoveByKind(x, c);
    hide Moves, Stripped, HeldFor, OrdinaryCall, MachineRun;
    var out := Moves(x, c).1;
    forall selector, all
      ensures out == Some(Combined(selector, all, fn)) <==>
        HeldFor(cs, selector, all, if all then 3 else 0)
    { WaitingIff(cs, selector, all, 0); }
    if x.Waiting? && x.left > 0 {
      WaitingIff(cs, x.selector, x.all, x.left);
      assert x.all && HeldFor(cs, x.selector, true, 3 - x.left);
    }
    if selector, calls: nat :| calls < 3 && HeldFor(cs, selector, true, calls) {
      WaitingIff(cs, selector, true, 3 - calls);
    }
  }

  /** Every other call is a query if it brings a selector, and is else evaluated as it is. */
  lemma OtherAnswers(x: Machine, c: Command)
    requires c.Call? && !OrdinaryCall(c)
    ensures var fn := Stripped(c.decl);
      Moves(x, c).1 == Some(if IsQuery(fn) && c.arg.Some? && c.arg.value != "" then Queried(c.arg.value, IsQueryAll(fn))
                            else Plain(fn))
  {
    hide Stripped;
  }

  lemma StartsShorter(s: string, a: string, b: string, i: nat)
    requires StartsAt(s, a + b, i)
    ensures StartsAt(s, a, i)
  {
    assert s[i..i + |a|] == s[i..i + |a + b|][..|a|] == (a + b)[..|a|] == a;
  }

  /** Text that names querySelectorAll names querySelector too, so a query for all elements is a query. */
  lemma AllIsQuery(fn: string)
    requires IsQueryAll(fn)
    ensures IsQuery(fn)
  {
    var i :| 0 <= i <= |fn| && StartsAt(fn, "cssQuerySelectorAll", i);
    var short, long := "cssQuerySelector", "cssQuerySelectorAll";
    assert long == short + "All";
    StartsShorter(fn, short, "All", i);
    assert StartsAt(fn, short, i);
  }

  function Queries(outs: seq<Outcome>): nat {
    if outs == [] then 0 else (if outs[0].Queried? then 1 else 0) + Queries(outs[1..])
  }

  function Combinations(outs: seq<Outcome>): nat {
    if outs == [] then 0 else (if outs[0].Combined? then 1 else 0) + Combinations(outs[1..])
  }

  function Holding(x: Machine): nat { if x.Waiting? then 1 else 0 }

  /**
   Each stored selector is combined with at most one function: combinations never outnumber queries, on
   any prefix of any run.
   */
  lemma {:induction false} CombinedAtMostOnce(x: Machine, cs: seq<Command>)
    ensures var (end, outs) := MachineRun(x, cs); Combinations(outs) + Holding(end) <= Queries(outs) + Holding(x)
    decreases |cs|
  {
    if cs != [] {
      var (x', out) := Moves(x, cs[0]);
      MachineMove(x, cs[0]);
      var (end, outs) := MachineRun(x', cs[1..]);
      CombinedAtMostOnce(x', cs[1..]);
      if out.Some? { assert ([out.value] + outs)[1..] == outs; } else { assert [] + outs == outs; }
    }
  }

  lemma MachineMove(x: Machine, c: Command)
    ensures var (x', out) := Moves(x, c);
      (if out.Some? && out.value.Combined? then 1 else 0)
          + Holding(x') <= (if out.Some? && out.value.Queried? then 1 else 0) + Holding(x)
  {
    hide Stripped, IsInternal, IsQuery, IsQueryAll;
  }

  /**
   A combination uses the selector of the latest query of its session: whatever was done in between
   stored no other.
   */
  lemma {:induction false} CombinedWithLatest(x: Machine, cs: seq<Command>)
    requires var outs := MachineRun(x, cs).1; outs != [] && outs[|outs| - 1].Combined?
    requires x.Idle?
    ensures var outs := MachineRun(x, cs).1; var last := outs[|outs| - 1];
      exists i :: 0 <= i < |outs| - 1 && outs[i] == Queried(last.selector, last.all)
                  && forall j | i < j < |outs| - 1 :: outs[j].Dummy? || outs[j].Plain?
    decreases |cs|
  {
    LatestQuery(x, cs);
  }

  /** Tells which outcome stored the selector that a run ends up holding or combining. */
  ghost predicate FromQuery(outs: seq<Outcome>, selector: string, all: bool, n: nat) {
    n <= |outs| && exists i :: 0 <= i < n && outs[i] == Queried(selector, all)
                               && forall j | i < j < n :: outs[j].Dummy? || outs[j].Plain?
  }

  lemma {:induction false} LatestQuery(x: Machine, cs: seq<Command>)
    requires x.Idle?
    ensures var (end, outs) := MachineRun(x, cs);
      && (end.Waiting? ==> FromQuery(outs, end.selector, end.all, |outs|))
      && (outs != [] && outs[|outs| - 1].Combined?
          ==> FromQuery(outs, outs[|outs| - 1].selector, outs[|outs| - 1].all, |outs| - 1))
    decreases |cs|
  {
    hide Moves, FromQuery;
    if cs != [] {
      var n := |cs| - 1;
      LatestQuery(x, cs[..n]);
      assert cs == cs[..n] + [cs[n]];
      MachineRunSnoc(x, cs[..n], cs[n]);
      var (mid, outs) := MachineRun(x, cs[..n]);
      LatestMove(mid, outs, cs[n]);
      assert outs + [] == outs;
    }
  }

  lemma {:induction false} MachineRunSnoc(x: Machine, cs: seq<Command>, c: Command)
    ensures var (mid, outs) := MachineRun(x, cs); var (end, out) := Moves(mid, c);
      MachineRun(x, cs + [c]) == (end, outs + if out.Some? then [out.value] else [])
    decreases |cs|
  {
    hide Moves;
    if cs == [] {
      MachineRunOne(x, c, []);
      var last := if Moves(x, c).1.Some? then [Moves(x, c).1.value] else [];
      assert cs + [c] == [c] + [] && [] + last == last + [] == last;
    } else {
      var (x', out) := Moves(x, cs[0]);
      MachineRunSnoc(x', cs[1..], c);
      assert cs + [c] == [cs[0]] + (cs[1..] + [c]) && cs == [cs[0]] + cs[1..];
      MachineRunOne(x, cs[0], cs[1..] + [c]);
      MachineRunOne(x, cs[0], cs[1..]);
      var (mid, outs) := MachineRun(x', cs[1..]);
      var first := if out.Some? then [out.value] else [];
      var last := if Moves(mid, c).1.Some? then [Moves(mid, c).1.value] else [];
      assert (first + outs) + last == first + (outs + last);
    }
  }

  lemma LatestMove(x: Machine, outs: seq<Outcome>, c: Command)
    requires x.Waiting? ==> FromQuery(outs, x.selector, x.all, |outs|)
    ensures var (x', out) := Moves(x, c); var outs' := outs + if out.Some? then [out.value] else [];
      && (x'.Waiting? ==> FromQuery(outs', x'.selector, x'.all, |outs'|))
      && (out.Some? && out.value.Combined? ==> FromQuery(outs', out.value.selector, out.value.all, |outs|))
  {
    hide Stripped, IsInternal, IsQuery, IsQueryAll;
    var (x', out) := Moves(x, c);
    var outs' := outs + if out.Some? then [out.value] else [];
    if x.Waiting? {
      var i :| 0 <= i < |outs| && outs[i] == Queried(x.selector, x.all)
          && forall j | i < j < |outs| :: outs[j].Dummy? || outs[j].Plain?;
      assert outs'[i] == Queried(x.selector, x.all);
    }
    if out.Some? && out.value.Queried? { assert outs'[|outs|] == out.value; }
  }
}

/**
 The same call as the lock regions it is made of. Commands of one session come one after another,
 but the regions of different sessions mix, and a cleanup may forget a session between any two.
 */
module EvalRegions {
  import opened Common
  import opened OwnedTables
  import opened EvalMachine

  /** Where a call stands: the selector has been read, forgotten, or stored, or the counter has been read. */
  datatype Place =
    | AfterRead(pending: string, all: bool)
    | AfterForget
    | AfterCount(pending: string, all: bool, left: int)
    | AfterSelector(all: bool)

  datatype InCall = InCall(fn: string, arg: Option<string>, place: Place)

  /** `torn` holds the sessions that were forgotten between two regions that belong together. */
  datatype System = System(m: Maps, calls: map<string, InCall>, torn: set<string>, said: map<string, Outcome>)

  const START := System(Maps(map[], map[], map[]), map[], {}, map[])

  datatype Step = Start(sid: string, decl: string, arg: Option<string>) | Continue(sid: string) | Forgotten(sid: string)

  predicate Enabled(y: System, s: Step) {
    match s
    case Start(sid, _, _) => sid !in y.calls
    case Continue(sid) => sid in y.calls
    case Forgotten(_) => true
  }

  predicate Stores(c: InCall) { IsQuery(c.fn) && c.arg.Some? && c.arg.value != "" }

  /** The next region will use what the last one read or wrote: a count above zero, or a count to come. */
  predicate Between(p: Place) { (p.AfterCount? && p.left > 0) || (p.AfterSelector? && p.all) }

  function Done(y: System, sid: string, out: Outcome): System {
    y.(calls := Del(y.calls, sid), said := y.said[sid := out])
  }

  function At(y: System, sid: string, p: Place): System
    requires sid in y.calls
  {
    y.(calls := y.calls[sid := y.calls[sid].(place := p)])
  }

  /** The region that stores selector and kind. */
  function StoreSelector(y: System, sid: string): System
    requires sid in y.calls && Stores(y.calls[sid])
  {
    var c := y.calls[sid];
    var all := IsQueryAll(c.fn);
    At(y, sid, AfterSelector(all)).(
      m := y.m.(query := y.m.query[sid := c.arg.value], all := y.m.all[sid := all]),
      torn := y.torn - {sid})
  }

  /** The region after the first read. */
  function Branch(y: System, sid: string, pending: string, all: bool): System
    requires sid in y.calls
  {
    var c := y.calls[sid];
    if pending != "" && IsInternal(c.fn) then
      var y' := y.(m := Forget(y.m, sid), torn := y.torn - {sid});
      if Stores(c) then At(y', sid, AfterForget) else Done(y', sid, Plain(c.fn))
    else if pending != "" && !IsQuery(c.fn) then At(y, sid, AfterCount(pending, all, Value(y.m.skips, sid, 0)))
    else if Stores(c) then StoreSelector(y, sid)
    else Done(y, sid, Plain(c.fn))
  }

  /**
   The region after the counter was read: a decrement in place, where a missing entry counts as zero,
   or the delete.
   */
  function Count(y: System, sid: string, pending: string, all: bool, left: int): System
    requires sid in y.calls
  {
    if left > 0 then
      Done(y.(m := y.m.(skips := y.m.skips[sid := Value(y.m.skips, sid, 0) - 1])), sid, Dummy)
    else
      Done(y.(m := y.m.(query := Del(y.m.query, sid), all := Del(y.m.all, sid))), sid,
          Combined(pending, all, y.calls[sid].fn))
  }

  function Continued(y: System, sid: string): System
    requires sid in y.calls
  {
    var c := y.calls[sid];
    match c.place
    case AfterRead(pending, all) => Branch(y, sid, pending, all)
    case AfterForget => if Stores(c) then StoreSelector(y, sid) else Done(y, sid, Plain(c.fn))
    case AfterCount(pending, all, left) => Count(y, sid, pending, all, left)
    case AfterSelector(all) =>
      Done(y.(m := y.m.(skips := y.m.skips[sid := if all then 3 else 0])), sid,
          Queried(if c.arg.Some? then c.arg.value else "", all))
  }

  function Next(y: System, s: Step): System
    requires Enabled(y, s)
  {
    match s
    case Start(sid, decl, arg) =>
      var place := AfterRead(Value(y.m.query, sid, ""), Value(y.m.all, sid, false));
      y.(calls := y.calls[sid := InCall(Stripped(decl), arg, place)])
    case Continue(sid) => Continued(y, sid)
    case Forgotten(sid) =>
      y.(m := Forget(y.m, sid),
         torn := if sid in y.calls && Between(y.calls[sid].place) then y.torn + {sid} else y.torn - {sid})
  }

  // ---------------------------------------------------------------- the regions left alone

  function Rank(p: Place): nat { match p case AfterRead(_, _) => 3 case AfterForget => 2 case _ => 1 }

  /** Runs a call to its end with nothing in between. */
  function Finished(y: System, sid: string): System
    requires sid in y.calls
    decreases Rank(y.calls[sid].place)
  {
    var y' := Continued(y, sid);
    if sid in y'.calls then Finished(y', sid) else y'
  }

  /** A stored selector and its count make up the end of a query call. */
  lemma SelectorThenCount(y: System, sid: string)
    requires sid in y.calls && Stores(y.calls[sid]) && y.calls[sid].place.AfterForget?
    ensures var c := y.calls[sid]; var all := IsQueryAll(c.fn); var y' := Finished(y, sid);
      && y'.m == Maps(y.m.query[sid := c.arg.value], y.m.all[sid := all], y.m.skips[sid := if all then 3 else 0])
      && sid in y'.said && y'.said[sid] == Queried(c.arg.value, all)
  {
    hide IsInternal, IsQuery, IsQueryAll;
    FinishedStep(y, sid);
    FinishedStep(Continued(y, sid), sid);
  }

  lemma OrdinaryAlone(y: System, sid: string)
    requires sid in y.calls && y.calls[sid].place.AfterRead?
    requires y.calls[sid].place == AfterRead(Value(y.m.query, sid, ""), Value(y.m.all, sid, false))
    requires Value(y.m.query, sid, "") != "" && IsOrdinary(y.calls[sid].fn)
    ensures var c := y.calls[sid]; var y' := Finished(y, sid);
      sid in y'.said && (y'.m, y'.said[sid]) == Called(y.m, sid, c.fn, c.arg)
  {
    hide IsInternal, IsQuery, IsQueryAll;
    FinishedStep(y, sid);
    FinishedStep(Continued(y, sid), sid);
  }

  lemma OtherAlone(y: System, sid: string)
    requires sid in y.calls && y.calls[sid].place.AfterRead?
    requires y.calls[sid].place == AfterRead(Value(y.m.query, sid, ""), Value(y.m.all, sid, false))
    requires !(Value(y.m.query, sid, "") != "" && IsOrdinary(y.calls[sid].fn))
    ensures var c := y.calls[sid]; var y' := Finished(y, sid);
      sid in y'.said && (y'.m, y'.said[sid]) == Called(y.m, sid, c.fn, c.arg)
  {
    hide IsInternal, IsQuery, IsQueryAll;
    FinishedStep(y, sid);
    var y2 := Continued(y, sid);
    if sid in y2.calls {
      if y2.calls[sid].place.AfterForget? { SelectorThenCount(y2, sid); } else { FinishedStep(y2, sid); }
    }
  }

  /** With nothing in between the regions make up the whole step. */
  lemma RegionsMakeTheCall(y: System, sid: string, decl: string, arg: Option<string>)
    requires sid !in y.calls
    ensures var y' := Finished(Next(y, Start(sid, decl, arg)), sid);
      sid in y'.said && (y'.m, y'.said[sid]) == Called(y.m, sid, Stripped(decl), arg)
  {
    hide Finished, Called, Stripped;
    var y1 := Next(y, Start(sid, decl, arg));
    if Value(y.m.query, sid, "") != "" && IsOrdinary(Stripped(decl)) {
      OrdinaryAlone(y1, sid);
    } else {
      OtherAlone(y1, sid);
    }
  }

  lemma FinishedStep(y: System, sid: string)
    requires sid in y.calls
    ensures Finished(y, sid) == if sid in Continued(y, sid).calls then Finished(Continued(y, sid), sid)
        else Continued(y, sid)
  {}

  // ---------------------------------------------------------------- any interleaving

  /** The entries of a session are both there, or both gone. */
  predicate Whole(m: Maps, sid: string) {
    (sid in m.query <==> sid in m.all) && (sid in m.query ==> m.query[sid] != "")
  }

  /** What is true at each place of a call, and of a session without one. */
  predicate PlaceOk(y: System, sid: string) {
    if sid !in y.calls then (SessionOk(y.m, sid) <==> sid !in y.torn) && (sid in y.torn ==> sid !in y.m.query)
    else
      var c := y.calls[sid];
      && Whole(y.m, sid)
      && match c.place
         case AfterRead(pending, _) => (SessionOk(y.m, sid) <==> sid !in y.torn)
             && (sid in y.torn ==> pending == "" && sid !in y.m.query)
         case AfterForget => Stores(c) && SessionOk(y.m, sid) && sid !in y.torn
         case AfterCount(_, _, left) =>
           if sid in y.torn then left > 0 && sid !in y.m.query && sid !in y.m.skips
           else
             SessionOk(y.m, sid) && (left > 0 ==> Value(y.m.skips, sid, 0) == left)
             && (left <= 0 ==> Value(y.m.skips, sid, 0) == 0)
         case AfterSelector(all) =>
           && (sid in y.torn ==> all && sid !in y.m.query)
           && (sid !in y.torn && all ==> sid in y.m.query && sid in y.m.all && y.m.all[sid])
  }

  ghost predicate Inv(y: System) {
    (forall sid {:trigger PlaceOk(y, sid)} :: PlaceOk(y, sid))
        && (forall sid {:trigger Whole(y.m, sid)} :: Whole(y.m, sid))
  }

  /** A step of one session leaves what belongs to another alone. */
  lemma OthersSame(y: System, s: Step, k: string)
    requires Enabled(y, s) && k != s.sid
    ensures var y' := Next(y, s);
      && (k in y'.calls <==> k in y.calls) && (k in y.calls ==> y'.calls[k] == y.calls[k])
      && (k in y'.torn <==> k in y.torn)
      && EntriesSame(y.m, y'.m, k)
  {
    hide Stripped, IsInternal, IsQuery, IsQueryAll;
    if s.Continue? { OthersSameContinue(y, s.sid, k); }
  }

  predicate EntriesSame(m: Maps, m': Maps, k: string) {
    && (k in m'.query <==> k in m.query) && (k in m.query ==> m'.query[k] == m.query[k])
    && (k in m'.all <==> k in m.all) && (k in m.all ==> m'.all[k] == m.all[k])
    && (k in m'.skips <==> k in m.skips) && (k in m.skips ==> m'.skips[k] == m.skips[k])
  }

  lemma OthersSameContinue(y: System, sid: string, k: string)
    requires sid in y.calls && k != sid
    ensures var y' := Continued(y, sid);
      && (k in y'.calls <==> k in y.calls) && (k in y.calls ==> y'.calls[k] == y.calls[k])
      && (k in y'.torn <==> k in y.torn)
      && EntriesSame(y.m, y'.m, k)
  {
    hide IsInternal, IsQuery, IsQueryAll;
    match y.calls[sid].place
    case AfterRead(pending, all) =>
    case AfterForget =>
    case AfterCount(pending, all, left) =>
    case AfterSelector(all) =>
  }

  lemma WholeOwn(y: System, s: Step)
    requires Inv(y) && Enabled(y, s)
    ensures Whole(Next(y, s).m, s.sid)
  {
    hide Stripped, IsInternal, IsQuery, IsQueryAll, SessionOk;
    assert Whole(y.m, s.sid);
    if s.Continue? {
      match y.calls[s.sid].place
      case AfterRead(pending, all) =>
      case AfterForget =>
      case AfterCount(pending, all, left) =>
      case AfterSelector(all) =>
    }
  }

  lemma WholeNext(y: System, s: Step, k: string)
    requires Inv(y) && Enabled(y, s)
    ensures Whole(Next(y, s).m, k)
  {
    hide Next;
    if k == s.sid { WholeOwn(y, s); } else { OthersSame(y, s, k); assert Whole(y.m, k); }
  }

  lemma PlaceOther(y: System, s: Step, k: string)
    requires Inv(y) && Enabled(y, s) && k != s.sid
    ensures PlaceOk(Next(y, s), k)
  {
    OthersSame(y, s, k);
    hide Next, IsQuery;
    assert PlaceOk(y, k);
  }

  lemma PlaceContinue(y: System, sid: string)
    requires Inv(y) && sid in y.calls
    ensures PlaceOk(Continued(y, sid), sid)
  {
    hide Stripped, IsInternal, IsQuery, IsQueryAll;
    assert PlaceOk(y, sid) && Whole(y.m, sid);
    match y.calls[sid].place
    case AfterRead(pending, all) =>
    case AfterForget =>
    case AfterCount(pending, all, left) =>
    case AfterSelector(all) =>
  }

  lemma PlaceOwn(y: System, s: Step)
    requires Inv(y) && Enabled(y, s)
    ensures PlaceOk(Next(y, s), s.sid)
  {
    hide Stripped, IsInternal, IsQuery, IsQueryAll;
    assert PlaceOk(y, s.sid) && Whole(y.m, s.sid);
    if s.Continue? { PlaceContinue(y, s.sid); }
  }

  lemma InvNext(y: System, s: Step)
    requires Inv(y) && Enabled(y, s)
    ensures Inv(Next(y, s))
  {
    forall k ensures PlaceOk(Next(y, s), k) { if k == s.sid { PlaceOwn(y, s); } else { PlaceOther(y, s, k); } }
    forall k ensures Whole(Next(y, s).m, k) { WholeNext(y, s, k); }
  }

  ghost predicate Possible(y: System, ss: seq<Step>)
    decreases |ss|
  {
    ss == [] || (Enabled(y, ss[0]) && Possible(Next(y, ss[0]), ss[1..]))
  }

  ghost function End(y: System, ss: seq<Step>): System
    requires Possible(y, ss)
    decreases |ss|
  {
    if ss == [] then y else End(Next(y, ss[0]), ss[1..])
  }

  lemma {:induction false} InvRun(y: System, ss: seq<Step>)
    requires Inv(y) && Possible(y, ss)
    ensures Inv(End(y, ss))
    decreases |ss|
  {
    hide Inv, Next, Enabled;
    if ss != [] {
      InvNext(y, ss[0]);
      InvRun(Next(y, ss[0]), ss[1..]);
    }
  }

  /**
   In every reachable state, a session with no call under way has its counter in 0..3, and zero
   unless a selector for all elements is pending, exactly when it was not torn: no cleanup forgot it
   between the read of a count and its decrement, or between a selector for all elements and its
   count, without a later cleanup or a later selector to mend it.
   */
  lemma SoundIffNotTorn(ss: seq<Step>, sid: string)
    requires Possible(START, ss) && sid !in End(START, ss).calls
    ensures SessionOk(End(START, ss).m, sid) <==> sid !in End(START, ss).torn
  {
    forall k ensures PlaceOk(START, k) {}
    InvRun(START, ss);
    assert PlaceOk(End(START, ss), sid);
  }

  /** A cleanup between the count's read and its decrement leaves -1 behind. */
  lemma TornDecrement(y: System, sid: string)
    requires Inv(y) && sid in y.calls && y.calls[sid].place.AfterCount? && y.calls[sid].place.left > 0
    ensures Possible(y, [Forgotten(sid), Continue(sid)])
    ensures var y' := End(y, [Forgotten(sid), Continue(sid)]); sid !in y'.calls && Value(y'.m.skips, sid, 0) == -1
  {
    var y1 := Next(y, Forgotten(sid));
    var y2 := Next(y1, Continue(sid));
    assert [Continue(sid)][1..] == [] && [Forgotten(sid), Continue(sid)][1..] == [Continue(sid)];
    assert Possible(y2, []) && End(y2, []) == y2;
    assert Possible(y1, [Continue(sid)]) && End(y1, [Continue(sid)]) == y2;
  }

  /** A cleanup between the two stores of a query for all elements leaves a count of three with no selector. */
  lemma TornStore(sid: string, decl: string, selector: string)
    requires IsQueryAll(Stripped(decl)) && selector != ""
    ensures var ss := [Start(sid, decl, Some(selector)), Continue(sid), Forgotten(sid), Continue(sid)];
      && Possible(START, ss)
      && var y := End(START, ss); sid !in y.calls && sid !in y.m.query && Value(y.m.skips, sid, 0) == 3
  {
    AllIsQuery(Stripped(decl));
    hide Stripped, IsInternal, IsQuery, IsQueryAll;
    var s1, s2, s3 := Start(sid, decl, Some(selector)), Continue(sid), Forgotten(sid);
    var y1 := Next(START, s1);
    var y2 := Next(y1, s2);
    assert y2.calls[sid].place == AfterSelector(true);
    var y3 := Next(y2, s3);
    var y4 := Next(y3, s2);
    assert [s2][1..] == [] && [s3, s2][1..] == [s2] && [s2, s3, s2][1..] == [s3, s2];
    assert [s1, s2, s3, s2][1..] == [s2, s3, s2];
    assert Possible(y4, []) && End(y4, []) == y4;
    assert Possible(y3, [s2]) && End(y3, [s2]) == y4;
    assert Possible(y2, [s3, s2]) && End(y2, [s3, s2]) == y4;
    assert Possible(y1, [s2, s3, s2]) && End(y1, [s2, s3, s2]) == y4;
  }
}
