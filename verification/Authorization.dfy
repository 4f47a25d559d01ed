/** The gate every client command passes (authorize in pkg/bridge/bridge.go). */
module Authorization {
  import opened Common
  import opened OwnershipProtocol
  import opened OwnershipRuns

  datatype Refusal = SessionNotFound | CloseDisabled | PageSessionRequired | TargetSessionRequired

  const TARGET_DOMAINS := [
    "Page.", "Runtime.", "Input.", "Network.", "Emulation.", "DOM.", "Accessibility.",
    "Console.", "Fetch.", "Performance.", "IO.", "CSS.", "DOMStorage."]

  ghost predicate TargetScoped(name: string) { exists i :: 0 <= i < |TARGET_DOMAINS| && TARGET_DOMAINS[i] <= name }

  /** Which methods are for targets. */
  lemma TargetScopedIff(name: string)
    ensures TargetScoped(name) <==>
      || "Page." <= name || "Runtime." <= name || "Input." <= name || "Network." <= name || "Emulation." <= name
      || "DOM." <= name || "Accessibility." <= name || "Console." <= name || "Fetch." <= name
      || "Performance." <= name || "IO." <= name || "CSS." <= name || "DOMStorage." <= name
  {
    assert TARGET_DOMAINS[0] == "Page." && TARGET_DOMAINS[1] == "Runtime." && TARGET_DOMAINS[2] == "Input.";
    assert TARGET_DOMAINS[3] == "Network." && TARGET_DOMAINS[4] == "Emulation." && TARGET_DOMAINS[5] == "DOM.";
    assert TARGET_DOMAINS[6] == "Accessibility." && TARGET_DOMAINS[7] == "Console." && TARGET_DOMAINS[8] == "Fetch.";
    assert TARGET_DOMAINS[9] == "Performance." && TARGET_DOMAINS[10] == "IO." && TARGET_DOMAINS[11] == "CSS.";
    assert TARGET_DOMAINS[12] == "DOMStorage." && |TARGET_DOMAINS| == 13;
  }

  method TargetScopedMethod(name: string) returns (scoped: bool)
    ensures scoped <==> TargetScoped(name)
  {
    var i := 0;
    while i < |TARGET_DOMAINS|
      invariant 0 <= i <= |TARGET_DOMAINS|
      invariant forall j | 0 <= j < i :: !(TARGET_DOMAINS[j] <= name)
    {
      if TARGET_DOMAINS[i] <= name { return true; }
      i := i + 1;
    }
    return false;
  }

  /** The target session `sid` stands for an open record of `c`, and `c` is connected. */
  predicate OwnTarget(s: Registry, c: Conn, sid: string)
    requires SessionsInRange(s)
  {
    && sid in s.sessions && s.records[s.sessions[sid]].state.Open?
    && s.records[s.sessions[sid]].owner == Some(c) && !Gone(s, Some(c))
  }

  predicate OwnBrowserSession(s: Registry, c: Conn, sid: string) {
    sid in s.browserSessions && s.browserSessions[sid] == c && !Gone(s, Some(c))
  }

  /** What `Authorize` lets through. */
  ghost predicate Authorized(s: Registry, c: Conn, sid: string, name: string)
    requires SessionsInRange(s)
  {
    && (sid == "" || SessionOwner(s, sid) == Some(c)) && name != "Browser.close"
    && (TargetScoped(name) ==> sid != "" && sid !in s.browserSessions)
  }

  method Authorize(s: Registry, c: Conn, sid: string, name: string) returns (refusal: Option<Refusal>)
    requires SessionsInRange(s)
    ensures refusal ==
      if sid != "" && SessionOwner(s, sid) != Some(c) then Some(SessionNotFound)
      else if name == "Browser.close" then Some(CloseDisabled)
      else if !TargetScoped(name) then None
      else if sid == "" then Some(TargetSessionRequired)
      else if sid in s.browserSessions then Some(PageSessionRequired)
      else None
    ensures refusal.None? <==> Authorized(s, c, sid, name)
  {
    if sid != "" && SessionOwner(s, sid) != Some(c) { return Some(SessionNotFound); }
    if name == "Browser.close" { return Some(CloseDisabled); }
    var scoped := TargetScopedMethod(name);
    if sid != "" && scoped && sid in s.browserSessions { return Some(PageSessionRequired); }
    if sid == "" && scoped { return Some(TargetSessionRequired); }
    return None;
  }

  /**
   In a reachable registry a command is let through exactly when it is not Browser.close and comes
   without a session for no target, on the client's own target, or, for no target, on the client's
   own browser session.
   */
  lemma AuthorizedIff(w: World, c: Conn, sid: string, name: string)
    requires Inv(w)
    ensures SessionsInRange(w.reg)
    ensures Authorized(w.reg, c, sid, name) <==>
      && name != "Browser.close"
      && (if TargetScoped(name) then OwnTarget(w.reg, c, sid)
          else sid == "" || OwnTarget(w.reg, c, sid) || (sid !in w.reg.sessions && OwnBrowserSession(w.reg, c, sid)))
  {
    SessionsFromKeys(w.reg);
    hide TargetScoped;
    assert SessionKeyOk(w.reg, sid);
    if sid in w.reg.sessions { assert RecordOk(w, w.reg.sessions[sid]); }
  }

  /**
   A session that has carried a command of one client never carries a command of another, whatever
   happens in between.
   */
  lemma CommandsStayWithTheirClient(w: World, es: seq<Event>, sid: string, c: Conn, d: Conn, first: string,
      later: string)
    requires Inv(w) && Possible(w, es) && sid != ""
    requires SessionsInRange(w.reg) && Authorized(w.reg, c, sid, first)
    requires SessionsInRange(End(w, es).reg) && Authorized(End(w, es).reg, d, sid, later)
    ensures c == d
  {
    InvRun(w, es);
    SessionNeverChangesHands(w, es, sid, c, d);
  }

  /**
   From its registration until its client disconnects, a browser session lets through exactly the
   commands that are for no target, Browser.close excepted, and those of its client only.
   */
  lemma BrowserSessionCommands(w: World, c: Conn, sid: string, es: seq<Event>, d: Conn, name: string)
    requires Inv(w) && Enabled(w, DidBrowserSession(c, sid)) && Possible(Next(w, DidBrowserSession(c, sid)), es)
    ensures var s := End(Next(w, DidBrowserSession(c, sid)), es).reg;
      && SessionsInRange(s)
      && (Authorized(s, d, sid, name) <==>
            d == c && !Disconnected(w.reg, c) && DidClose(c) !in es && name != "Browser.close" && !TargetScoped(name))
  {
    BrowserSessionWorks(w, c, sid, es);
    BrowserSessionHeld(w, c, sid, es);
    hide Inv, Possible, End, Next, Enabled, TargetScoped;
  }
}
