/**
 pkg/bridge/accessibility.go: Juggler's nested accessibility tree flattened into the list of
 nodes that CDP wants, where a node names its children by ID.
 */
module Accessibility {
  import opened Common
  import opened TreeFlattening

  datatype Json = JNull | JBool(b: bool) | JNumber(n: real) | JString(s: string) | JOther(text: string)

  /** A raw node: its fields other than "children", and its children. */
  type AXTree = Tree<map<string, Json>>

  /** { "type": ..., "value": ... }. */
  datatype AXValue = AXValue(kind: string, value: Json)

  datatype AXFields = AXFields(role: Option<AXValue>, name: AXValue, value: Option<AXValue>,
                               description: Option<AXValue>, properties: map<string, AXValue>)

  datatype AXNode = AXNode(nodeId: string, data: AXFields, childIds: seq<string>)

  // ---------------------------------------------------------------- decimal IDs

  const DIGITS := "0123456789"

  /** strconv.Itoa on the numbers used for IDs. */
  function Itoa(n: nat): (s: string)
    ensures |s| > 0
  {
    if n < 10 then [DIGITS[n]] else Itoa(n / 10) + [DIGITS[n % 10]]
  }

  function DigitValue(c: char): nat { if '0' <= c <= '9' then (c as int) - ('0' as int) else 0 }

  function Atoi(s: string): nat {
    if s == "" then 0 else 10 * Atoi(s[..|s| - 1]) + DigitValue(s[|s| - 1])
  }

  lemma {:induction false} AtoiItoa(n: nat)
    ensures Atoi(Itoa(n)) == n
  {
    hide Atoi;
    if n < 10 {
      AtoiSnoc("", DIGITS[n]);
      assert Itoa(n) == "" + [DIGITS[n]];
    } else {
      AtoiItoa(n / 10);
      AtoiSnoc(Itoa(n / 10), DIGITS[n % 10]);
    }
  }

  lemma AtoiSnoc(s: string, c: char)
    ensures Atoi(s + [c]) == 10 * Atoi(s) + DigitValue(c) && Atoi("") == 0
  {
    assert (s + [c])[..|s|] == s;
  }

  /** Decimal IDs are digits without a leading zero. */
  lemma {:induction false} ItoaIsPlain(n: nat)
    ensures forall i | 0 <= i < |Itoa(n)| :: '0' <= Itoa(n)[i] <= '9'
    ensures n > 0 ==> Itoa(n)[0] != '0'
  {
    if n >= 10 { ItoaIsPlain(n / 10); }
  }

  // ---------------------------------------------------------------- the fields of one node

  /** Lower case, as far as the result is an ASCII letter; the dotted I and the Kelvin sign have one too. */
  function Lower(c: char): char {
    if 'A' <= c <= 'Z' then (c as int + 32) as char
    else if c == '\U{130}' then 'i'
    else if c == '\U{212A}' then 'k'
    else c
  }

  function ToLower(s: string): (r: string)
    ensures |r| == |s| && forall i | 0 <= i < |s| :: r[i] == Lower(s[i])
  {
    if s == "" then "" else [Lower(s[0])] + ToLower(s[1..])
  }

  /** White space as Unicode has it. */
  predicate Space(c: char) {
    || '\t' <= c <= '\r' || '\U{2000}' <= c <= '\U{200A}'
    || c in {' ', '\U{85}', '\U{A0}', '\U{1680}', '\U{2028}', '\U{2029}', '\U{202F}', '\U{205F}', '\U{3000}'}
  }

  function TrimLeft(s: string): string { if s != "" && Space(s[0]) then TrimLeft(s[1..]) else s }
  function TrimRight(s: string): string
    decreases |s|
  { if s != "" && Space(s[|s| - 1]) then TrimRight(s[..|s| - 1]) else s }

  function NormalizeAXRole(role: string): string {
    var key := ToLower(TrimRight(TrimLeft(role)));
    if key == "document" then "RootWebArea"
    else if key == "pushbutton" then "button"
    else if key == "entry" then "textbox"
    else if key == "text leaf" then "StaticText"
    else if key == "checkbutton" then "checkbox"
    else if key == "radiobutton" then "radio"
    else role
  }

  /** A field that is missing or not a string reads as the empty string. */
  function StringField(fields: map<string, Json>, name: string): string {
    if name in fields && fields[name].JString? then fields[name].s else ""
  }

  function ValueType(v: Json): string {
    match v
    case JBool(_) => "boolean"
    case JNumber(_) => "number"
    case _ => "string"
  }

  function RawValue(fields: map<string, Json>, name: string): Option<AXValue> {
    if name !in fields || fields[name].JNull? then None else Some(AXValue(ValueType(fields[name]), fields[name]))
  }

  const SKIPPED: set<string> := {"role", "name", "value", "description", "children", "foundObject"}

  function Properties(fields: map<string, Json>): map<string, AXValue> {
    map k | k in fields && k !in SKIPPED && !fields[k].JNull? :: AXValue(ValueType(fields[k]), fields[k])
  }

  function Head(fields: map<string, Json>): AXFields {
    var role, description := StringField(fields, "role"), StringField(fields, "description");
    AXFields(if role != "" then Some(AXValue("role", JString(NormalizeAXRole(role)))) else None,
             AXValue("computedString", JString(StringField(fields, "name"))),
             RawValue(fields, "value"),
             if description != "" then Some(AXValue("computedString", JString(description))) else None,
             Properties(fields))
  }

  // ---------------------------------------------------------------- what the fields of a node become

  /** `c` is the letter or the space `k`, in either case. */
  predicate SameLetter(c: char, k: char) {
    || c == k || ('a' <= k <= 'z' && c as int == k as int - 32)
    || (k == 'i' && c == '\U{130}') || (k == 'k' && c == '\U{212A}')
  }

  predicate AllSpace(s: string) { forall c | c in s :: Space(c) }

  /** The role is `key` in letters of either case, with white space around it. */
  ghost predicate Spells(role: string, key: string) {
    exists before, core, after ::
      && role == before + core + after && AllSpace(before) && AllSpace(after)
      && |core| == |key| && forall i | 0 <= i < |key| :: SameLetter(core[i], key[i])
  }

  lemma {:induction false} TrimLeftParts(s: string)
    ensures exists before :: AllSpace(before) && s == before + TrimLeft(s)
    decreases |s|
  {
    if s != "" && Space(s[0]) {
      TrimLeftParts(s[1..]);
      var before :| AllSpace(before) && s[1..] == before + TrimLeft(s[1..]);
      assert s == [s[0]] + s[1..] && AllSpace([s[0]] + before);
      assert s == ([s[0]] + before) + TrimLeft(s);
    } else {
      assert s == "" + TrimLeft(s) && AllSpace("");
    }
  }

  lemma {:induction false} TrimRightParts(s: string)
    ensures exists after :: AllSpace(after) && s == TrimRight(s) + after
    decreases |s|
  {
    if s != "" && Space(s[|s| - 1]) {
      var init, last := s[..|s| - 1], [s[|s| - 1]];
      TrimRightParts(init);
      var after :| AllSpace(after) && init == TrimRight(init) + after;
      assert s == init + last && AllSpace(after + last);
      assert s == TrimRight(s) + (after + last);
    } else {
      assert s == TrimRight(s) + "" && AllSpace("");
    }
  }

  lemma {:induction false} TrimLeftSkips(before: string, s: string)
    requires AllSpace(before) && s != "" && !Space(s[0])
    ensures TrimLeft(before + s) == s
  {
    if before == "" {
      assert before + s == s;
    } else {
      assert before[0] in before && (before + s)[1..] == before[1..] + s;
      TrimLeftSkips(before[1..], s);
    }
  }

  lemma {:induction false} TrimRightSkips(s: string, after: string)
    requires AllSpace(after) && s != "" && !Space(s[|s| - 1])
    ensures TrimRight(s + after) == s
    decreases |after|
  {
    if after == "" {
      assert s + after == s;
    } else {
      var n := |after| - 1;
      assert after[n] in after && (s + after)[..|s| + n] == s + after[..n];
      TrimRightSkips(s, after[..n]);
    }
  }

  /** A key in plain small letters that neither starts nor ends with a space. */
  predicate IsKey(key: string) {
    && key != "" && key[0] != ' ' && key[|key| - 1] != ' '
    && forall i | 0 <= i < |key| :: 'a' <= key[i] <= 'z' || key[i] == ' '
  }

  lemma SameLetterIff(c: char, k: char)
    requires 'a' <= k <= 'z' || k == ' '
    ensures SameLetter(c, k) <==> Lower(c) == k
    ensures SameLetter(c, k) && k != ' ' ==> !Space(c)
  {}

  lemma LowerCore(core: string, key: string)
    requires IsKey(key)
    ensures ToLower(core) == key <==> |core| == |key| && forall i | 0 <= i < |key| :: SameLetter(core[i], key[i])
    ensures ToLower(core) == key ==> core != "" && !Space(core[0]) && !Space(core[|core| - 1])
  {
    hide SameLetter, Lower, Space;
    if |core| == |key| {
      forall i | 0 <= i < |key| ensures SameLetter(core[i], key[i]) <==> ToLower(core)[i] == key[i] {
        SameLetterIff(core[i], key[i]);
      }
      SameLetterIff(core[0], key[0]);
      SameLetterIff(core[|key| - 1], key[|key| - 1]);
    }
  }

  lemma TrimmedSkips(before: string, core: string, after: string)
    requires AllSpace(before) && AllSpace(after) && core != "" && !Space(core[0]) && !Space(core[|core| - 1])
    ensures TrimRight(TrimLeft(before + core + after)) == core
  {
    hide AllSpace, Space;
    assert before + core + after == before + (core + after);
    TrimLeftSkips(before, core + after);
    TrimRightSkips(core, after);
  }

  lemma TrimmedParts(role: string) returns (before: string, after: string)
    ensures AllSpace(before) && AllSpace(after) && role == before + TrimRight(TrimLeft(role)) + after
  {
    TrimLeftParts(role);
    TrimRightParts(TrimLeft(role));
    hide AllSpace, TrimLeft, TrimRight;
    before :| AllSpace(before) && role == before + TrimLeft(role);
    after :| AllSpace(after) && TrimLeft(role) == TrimRight(TrimLeft(role)) + after;
  }

  lemma SpellsIff(role: string, key: string)
    requires IsKey(key)
    ensures Spells(role, key) <==> ToLower(TrimRight(TrimLeft(role))) == key
  {
    hide SameLetter, Space, AllSpace, IsKey, TrimLeft, TrimRight, ToLower;
    if Spells(role, key) {
      var before, core, after :|
        && role == before + core + after && AllSpace(before) && AllSpace(after)
        && |core| == |key| && forall i | 0 <= i < |key| :: SameLetter(core[i], key[i]);
      LowerCore(core, key);
      TrimmedSkips(before, core, after);
    }
    var core := TrimRight(TrimLeft(role));
    if ToLower(core) == key {
      LowerCore(core, key);
      var before, after := TrimmedParts(role);
    }
  }

  /** Six roles are renamed, however they are spaced and capitalised; every other role is left as it is. */
  lemma RoleTable(role: string)
    ensures Spells(role, "document") ==> NormalizeAXRole(role) == "RootWebArea"
    ensures Spells(role, "pushbutton") ==> NormalizeAXRole(role) == "button"
    ensures Spells(role, "entry") ==> NormalizeAXRole(role) == "textbox"
    ensures Spells(role, "text leaf") ==> NormalizeAXRole(role) == "StaticText"
    ensures Spells(role, "checkbutton") ==> NormalizeAXRole(role) == "checkbox"
    ensures Spells(role, "radiobutton") ==> NormalizeAXRole(role) == "radio"
    ensures !Spells(role, "document") && !Spells(role, "pushbutton") && !Spells(role, "entry")
      && !Spells(role, "text leaf") && !Spells(role, "checkbutton") && !Spells(role, "radiobutton")
      ==> NormalizeAXRole(role) == role
  {
    hide Spells, TrimLeft, TrimRight;
    SpellsIff(role, "document");
    SpellsIff(role, "pushbutton");
    SpellsIff(role, "entry");
    SpellsIff(role, "text leaf");
    SpellsIff(role, "checkbutton");
    SpellsIff(role, "radiobutton");
  }

  /** Booleans and numbers say what they are; all else goes as a string. */
  predicate KindFits(v: AXValue) {
    && (v.kind == "boolean" <==> v.value.JBool?) && (v.kind == "number" <==> v.value.JNumber?)
    && (v.kind == "string" <==> !v.value.JBool? && !v.value.JNumber?)
  }

  /** The kind that CDP names for each value, and which fields become properties. */
  lemma FieldKinds(fields: map<string, Json>, k: string)
    ensures var n := Head(fields);
      && (n.role.Some? ==> n.role.value.kind == "role") && n.name.kind == "computedString"
      && (n.description.Some? ==> n.description.value.kind == "computedString")
      && (n.value.Some? ==> KindFits(n.value.value)) && (k in n.properties ==> KindFits(n.properties[k]))
      && (k in n.properties <==>
            && k in fields && !fields[k].JNull? && k != "role" && k != "name" && k != "value" && k != "description"
            && k != "children" && k != "foundObject")
  {
    assert "boolean"[0] != "number"[0] && "boolean"[0] != "string"[0] && "number"[0] != "string"[0];
  }

  // ---------------------------------------------------------------- flattening

  /** The tree with each node's fields as CDP has them. */
  function Adapted(t: AXTree): Tree<AXFields>
    decreases t, 0
  {
    Tree(Head(t.data), AdaptedAll(t.children))
  }

  function AdaptedAll(ts: seq<AXTree>): (r: seq<Tree<AXFields>>)
    ensures |r| == |ts|
    decreases ts, 1
  {
    if ts == [] then [] else AdaptedAll(ts[..|ts| - 1]) + [Adapted(ts[|ts| - 1])]
  }

  function Itoas(ids: seq<nat>): (r: seq<string>)
    ensures |r| == |ids|
  {
    seq(|ids|, k requires 0 <= k < |ids| => Itoa(ids[k]))
  }

  /** A node with its IDs written in decimal. */
  function Written(n: Flat<AXFields>): AXNode { AXNode(Itoa(n.id), n.data, Itoas(n.childIds)) }

  function WrittenAll(ns: seq<Flat<AXFields>>): (r: seq<AXNode>)
    ensures |r| == |ns|
  {
    seq(|ns|, k requires 0 <= k < |ns| => Written(ns[k]))
  }

  lemma WrittenAppend(a: seq<Flat<AXFields>>, b: seq<Flat<AXFields>>)
    ensures WrittenAll(a + b) == WrittenAll(a) + WrittenAll(b)
  {}

  /** What the first k children add to the list. */
  function ChildNodes(ts: seq<AXTree>, k: nat, start: nat): seq<AXNode>
    requires k <= |ts|
  {
    WrittenAll(FlattenAll(AdaptedAll(ts[..k]), start))
  }

  function ChildNames(ts: seq<AXTree>, k: nat, start: nat): seq<string>
    requires k <= |ts|
  {
    Itoas(ChildIds(AdaptedAll(ts[..k]), start))
  }

  lemma OneMoreChild(ts: seq<AXTree>, k: nat, start: nat)
    requires k < |ts|
    ensures var at := start + |ChildNodes(ts, k, start)|;
      && ChildNodes(ts, k + 1, start) == ChildNodes(ts, k, start) + WrittenAll(Flatten(Adapted(ts[k]), at))
      && ChildNames(ts, k + 1, start) == ChildNames(ts, k, start) + [Itoa(at + 1)]
  {
    var init, more := AdaptedAll(ts[..k]), AdaptedAll(ts[..k + 1]);
    assert ts[..k + 1][..k] == ts[..k];
    assert more == init + [Adapted(ts[k])] && more[..k] == init;
    WrittenAppend(FlattenAll(init, start), Flatten(Adapted(ts[k]), start + SizeAll(init)));
  }

  lemma NoChildren(ts: seq<AXTree>, start: nat)
    ensures ChildNodes(ts, 0, start) == [] && ChildNames(ts, 0, start) == []
    ensures ChildNodes(ts, |ts|, start) == WrittenAll(FlattenAll(AdaptedAll(ts), start))
    ensures ChildNames(ts, |ts|, start) == Itoas(ChildIds(AdaptedAll(ts), start))
  {
    assert ts[..|ts|] == ts;
  }

  lemma NodeThenChildren(raw: AXTree, at: nat)
    ensures WrittenAll(Flatten(Adapted(raw), at)) ==
      [AXNode(Itoa(at + 1), Head(raw.data), Itoas(ChildIds(AdaptedAll(raw.children), at + 1)))]
      + WrittenAll(FlattenAll(AdaptedAll(raw.children), at + 1))
  {
    hide Itoas, Itoa, ChildIds, AdaptedAll, FlattenAll, Head;
    var t := Adapted(raw);
    var first := Flat(at + 1, t.data, ChildIds(t.children, at + 1));
    WrittenAppend([first], FlattenAll(t.children, at + 1));
    assert WrittenAll([first]) == [Written(first)];
  }

  /** appendAXNode: appends a node to the shared buffer, then its subtrees, then edits the node in place. */
  class AXBuffer {
    var nodes: seq<AXNode>

    constructor ()
      ensures nodes == []
    {
      nodes := [];
    }

    method AppendAXNode(raw: AXTree) returns (nodeID: string)
      modifies this
      ensures nodes == old(nodes) + WrittenAll(Flatten(Adapted(raw), |old(nodes)|))
      ensures nodeID == Itoa(|old(nodes)| + 1)
      decreases raw, |raw.children| + 1
    {
      hide WrittenAll, FlattenAll, Flatten, Itoas, Itoa, ChildIds, AdaptedAll, Adapted, Head;
      nodeID := Itoa(|nodes| + 1);
      var node := AXNode(nodeID, Head(raw.data), []);
      var nodeIndex := |nodes|;
      ghost var before := nodes;
      nodes := nodes + [node];
      var childIDs := AppendChildren(raw);
      node := node.(childIds := childIDs);
      NodeThenChildren(raw, nodeIndex);
      PutBack(before, nodes, nodes[nodeIndex], node, WrittenAll(FlattenAll(AdaptedAll(raw.children), nodeIndex + 1)));
      nodes := nodes[nodeIndex := node];
    }

    /** The loop over the children of one node. */
    method AppendChildren(raw: AXTree) returns (childIDs: seq<string>)
      modifies this
      ensures nodes == old(nodes) + WrittenAll(FlattenAll(AdaptedAll(raw.children), |old(nodes)|))
      ensures childIDs == Itoas(ChildIds(AdaptedAll(raw.children), |old(nodes)|))
      decreases raw, |raw.children|
    {
      hide ChildNodes, ChildNames, WrittenAll, FlattenAll, Flatten, Itoas, ChildIds, AdaptedAll, Adapted;
      var children := raw.children;
      ghost var start := |nodes|;
      NoChildren(children, start);
      childIDs := [];
      var k := 0;
      while k < |children|
        invariant 0 <= k <= |children|
        invariant nodes == old(nodes) + ChildNodes(children, k, start)
        invariant childIDs == ChildNames(children, k, start)
      {
        OneMoreChild(children, k, start);
        ghost var sofar := ChildNodes(children, k, start);
        ThreeParts(old(nodes), sofar, WrittenAll(Flatten(Adapted(children[k]), |nodes|)));
        var id := AppendAXNode(children[k]);
        childIDs := childIDs + [id];
        k := k + 1;
      }
    }
  }

  lemma ThreeParts<T>(a: seq<T>, b: seq<T>, c: seq<T>)
    ensures (a + b) + c == a + (b + c)
  {}

  lemma PutBack<T>(before: seq<T>, all: seq<T>, first: T, second: T, rest: seq<T>)
    requires all == before + [first] + rest
    ensures all[|before| := second] == before + ([second] + rest)
  {}

  // ---------------------------------------------------------------- and back

  function Read(n: AXNode): Flat<AXFields> {
    Flat(Atoi(n.nodeId), n.data, seq(|n.childIds|, k requires 0 <= k < |n.childIds| => Atoi(n.childIds[k])))
  }

  function ReadAll(ns: seq<AXNode>): (r: seq<Flat<AXFields>>)
    ensures |r| == |ns|
  {
    seq(|ns|, k requires 0 <= k < |ns| => Read(ns[k]))
  }

  lemma ReadWritten(n: Flat<AXFields>)
    ensures Read(Written(n)) == n
  {
    AtoiItoa(n.id);
    forall k | 0 <= k < |n.childIds| ensures Atoi(Itoa(n.childIds[k])) == n.childIds[k] { AtoiItoa(n.childIds[k]); }
  }

  /**
   The list that Accessibility.getFullAXTree answers with gives the tree back, each node with its
   fields as CDP has them.
   */
  lemma AXTreeInvertible(t: AXTree)
    ensures var answer := WrittenAll(Flatten(Adapted(t), 0)); Rebuild(ReadAll(answer), 0) == Adapted(t)
  {
    var ns := Flatten(Adapted(t), 0);
    forall k | 0 <= k < |ns| ensures ReadAll(WrittenAll(ns))[k] == ns[k] { ReadWritten(ns[k]); }
    assert ReadAll(WrittenAll(ns)) == ns;
    FlattenInvertible(Adapted(t));
  }

  // ---------------------------------------------------------------- what is kept of the fields

  function Text(v: Option<AXValue>): string {
    if v.Some? && v.value.value.JString? then v.value.value.s else ""
  }

  function Texted(s: string): Option<Json> { if s == "" then None else Some(JString(s)) }

  /** What a Juggler field would have to be for these. */
  function FieldOf(n: AXFields, k: string): Option<Json> {
    if k == "role" then Texted(Text(n.role))
    else if k == "name" then Texted(Text(Some(n.name)))
    else if k == "description" then Texted(Text(n.description))
    else if k == "value" then (if n.value.Some? then Some(n.value.value.value) else None)
    else if k in n.properties then Some(n.properties[k].value)
    else None
  }

  function FieldsOf(n: AXFields): map<string, Json> {
    map k | k in n.properties.Keys + SKIPPED && FieldOf(n, k).Some? :: FieldOf(n, k).value
  }

  lemma NormalizedTwice(role: string)
    ensures NormalizeAXRole(NormalizeAXRole(role)) == NormalizeAXRole(role)
    ensures NormalizeAXRole(role) == "" <==> role == ""
  {
    if NormalizeAXRole(role) != role { NormalNames(NormalizeAXRole(role)); }
  }

  lemma NotJuggler(key: string)
    requires || |key| == 6 || |key| == 7 || (|key| == 11 && key[1] == 'o') || (|key| == 10 && key[0] == 's')
             || (|key| == 8 && key[0] == 'c') || (|key| == 5 && key[0] == 'r')
    ensures key !in {"document", "pushbutton", "entry", "text leaf", "checkbutton", "radiobutton"}
  {
    assert "document"[0] == 'd' && "pushbutton"[0] == 'p' && "entry"[0] == 'e';
    assert "checkbutton"[1] == 'h' && "radiobutton"[1] == 'a';
  }

  /** The CDP names are not themselves Juggler names. */
  lemma NormalNames(name: string)
    requires name in {"RootWebArea", "button", "textbox", "StaticText", "checkbox", "radio"}
    ensures NormalizeAXRole(name) == name
  {
    NoSpaceAround(name);
    NotJuggler(ToLower(name));
  }

  lemma NoSpaceAround(name: string)
    requires name in {"RootWebArea", "button", "textbox", "StaticText", "checkbox", "radio"}
    ensures TrimRight(TrimLeft(name)) == name
  {
    assert !Space(name[0]) && !Space(name[|name| - 1]);
  }

  /** The fields that survive: a named text that is a non-empty string, any other field that is not null or left out. */
  predicate Survives(k: string, v: Json) {
    if k == "role" || k == "name" || k == "description" then v.JString? && v.s != ""
    else k != "children" && k != "foundObject" && !v.JNull?
  }

  /** A raw node with its role normalised and without the fields that do not survive. */
  function Normalised(f: map<string, Json>): map<string, Json> {
    map k | k in f && Survives(k, f[k]) :: if k == "role" then JString(NormalizeAXRole(f[k].s)) else f[k]
  }

  lemma FieldBack(f: map<string, Json>, k: string)
    ensures k in FieldsOf(Head(f)) <==> k in Normalised(f)
    ensures k in Normalised(f) ==> FieldsOf(Head(f))[k] == Normalised(f)[k]
  {
    hide NormalizeAXRole;
    NormalizedTwice(StringField(f, "role"));
    assert k in FieldsOf(Head(f)) <==> FieldOf(Head(f), k).Some?;
  }

  /** What CDP gets for a node gives the raw fields back, role normalised. */
  lemma FieldsComeBack(f: map<string, Json>)
    ensures FieldsOf(Head(f)) == Normalised(f)
  {
    forall k
      ensures k in FieldsOf(Head(f)) <==> k in Normalised(f)
      ensures k in Normalised(f) ==> FieldsOf(Head(f))[k] == Normalised(f)[k]
    { FieldBack(f, k); }
  }

  /** The raw node itself comes back exactly when every field survives and the role is a CDP name already. */
  lemma NormalisedIff(f: map<string, Json>)
    ensures Normalised(f) == f <==>
      forall k | k in f :: Survives(k, f[k]) && (k == "role" ==> NormalizeAXRole(f[k].s) == f[k].s)
  {
    hide NormalizeAXRole;
    if Normalised(f) == f {
      forall k | k in f ensures Survives(k, f[k]) && (k == "role" ==> NormalizeAXRole(f[k].s) == f[k].s) {
        assert k in Normalised(f) && Normalised(f)[k] == f[k];
      }
    }
  }

  lemma {:induction false} MappedBack(t: AXTree)
    ensures MapTree(FieldsOf, Adapted(t)) == MapTree(Normalised, t)
    decreases t, 0
  {
    FieldsComeBack(t.data);
    hide FieldsOf, Head, Normalised;
    MappedBackAll(t.children);
  }

  lemma {:induction false} MappedBackAll(ts: seq<AXTree>)
    ensures MapAll(FieldsOf, AdaptedAll(ts)) == MapAll(Normalised, ts)
    decreases ts, 1
  {
    hide FieldsOf, Head, Normalised;
    if ts != [] {
      var n := |ts| - 1;
      MappedBackAll(ts[..n]);
      MappedBack(ts[n]);
      assert AdaptedAll(ts)[..n] == AdaptedAll(ts[..n]);
    }
  }

  /**
   Rebuilding from the answer gives back the original tree: the same shape, and at each node the raw
   fields, with the role normalised and without those that the answer has no place for.
   */
  lemma OriginalTreeComesBack(t: AXTree)
    ensures var answer := WrittenAll(Flatten(Adapted(t), 0));
      MapTree(FieldsOf, Rebuild(ReadAll(answer), 0)) == MapTree(Normalised, t)
  {
    AXTreeInvertible(t);
    MappedBack(t);
  }
}
