/**
 The NUL framing of pkg/backend/juggler/transport.go. A payload is the JSON text of one message.
 */
module PipeFraming {
  import opened Common

  type Byte = b: int | 0 <= b < 256

  predicate NulFree(p: seq<Byte>) { 0 !in p }

  function Framed(p: seq<Byte>): seq<Byte> { p + [0] }

  function Wire(ps: seq<seq<Byte>>): seq<Byte> { if ps == [] then [] else Framed(ps[0]) + Wire(ps[1..]) }

  /** The place of the first NUL from place i on, the length if there is none. */
  function FirstNul(w: seq<Byte>, i: nat): (n: nat)
    requires i <= |w|
    ensures i <= n <= |w| && (n < |w| ==> w[n] == 0)
    ensures forall j | i <= j < n :: w[j] != 0
    decreases |w| - i
  {
    if i < |w| && w[i] != 0 then FirstNul(w, i + 1) else i
  }

  /** ReadBytes(0) and the cut of the NUL: a payload and what is left, or nothing if the stream ends first. */
  function Received(w: seq<Byte>): (Option<seq<Byte>>, seq<Byte>) {
    var n := FirstNul(w, 0);
    if n < |w| then (Some(w[..n]), w[n + 1..]) else (None, [])
  }

  /** A frame is received as its payload, and what follows it is left alone, exactly when the payload has no NUL. */
  lemma FrameIff(p: seq<Byte>, rest: seq<Byte>)
    ensures Received(Framed(p) + rest) == (Some(p), rest) <==> NulFree(p)
  {
    var w := Framed(p) + rest;
    var n := FirstNul(w, 0);
    assert w[|p|] == 0;
    assert forall i | 0 <= i < |p| :: w[i] == p[i];
    if NulFree(p) {
      assert n == |p| && w[..n] == p && w[n + 1..] == rest;
    } else {
      var i :| 0 <= i < |p| && p[i] == 0;
      assert w[i] == 0 && n <= i;
      assert |w[..n]| != |p|;
    }
  }

  function ReceivedAll(w: seq<Byte>): seq<seq<Byte>>
    decreases |w|
  {
    match Received(w)
    case (None, _) => []
    case (Some(p), rest) => [p] + ReceivedAll(rest)
  }

  /** Any payloads without NULs come back, all of them, in order, and the stream is then empty. */
  lemma {:induction false} WireRoundTrip(ps: seq<seq<Byte>>)
    requires forall p | p in ps :: NulFree(p)
    ensures ReceivedAll(Wire(ps)) == ps
  {
    if ps == [] {
      assert Received([]) == (None, []);
    } else {
      assert ps[0] in ps;
      FrameIff(ps[0], Wire(ps[1..]));
      WireRoundTrip(ps[1..]);
    }
  }

  lemma {:induction false} WireSnoc(ps: seq<seq<Byte>>, p: seq<Byte>)
    ensures Wire(ps + [p]) == Wire(ps) + Framed(p)
  {
    if ps == [] {
      assert ps + [p] == [p] && [p][1..] == [];
      assert Wire([p]) == Framed(p) + [];
    } else {
      WireSnoc(ps[1..], p);
      assert (ps + [p])[1..] == ps[1..] + [p];
      assert Framed(ps[0]) + (Wire(ps[1..]) + Framed(p)) == (Framed(ps[0]) + Wire(ps[1..])) + Framed(p);
    }
  }

  /** One direction of the pipe, between the writers of one side and the reader of the other. */
  class PipeTransport {
    var stream: seq<Byte>
    /** The payloads written and not yet read. */
    ghost var queue: seq<seq<Byte>>

    ghost predicate Valid()
      reads this
    {
      stream == Wire(queue) && forall p | p in queue :: NulFree(p)
    }

    constructor ()
      ensures Valid() && queue == []
    {
      stream, queue := [], [];
    }

    /** The whole frame is written under the write lock, so frames of different callers do not mix. */
    method Send(data: seq<Byte>)
      requires Valid() && NulFree(data)
      modifies this
      ensures Valid() && queue == old(queue) + [data]
    {
      WireSnoc(queue, data);
      stream := stream + (data + [0]);
      queue := queue + [data];
    }

    /** Reads byte by byte up to the NUL, then drops it. */
    method Receive() returns (data: Option<seq<Byte>>)
      requires Valid()
      modifies this
      ensures Valid()
      ensures if old(queue) == [] then data == None && queue == []
              else data == Some(old(queue)[0]) && queue == old(queue)[1..]
    {
      var read: seq<Byte> := [];
      var i := 0;
      while i < |stream| && stream[i] != 0
        invariant 0 <= i <= |stream| && read == stream[..i]
        invariant FirstNul(stream, i) == FirstNul(stream, 0)
      {
        read := read + [stream[i]];
        i := i + 1;
      }
      ghost var left := Wire(queue[if queue == [] then 0 else 1..]);
      if queue != [] {
        assert queue[0] in queue;
        FrameIff(queue[0], left);
      }
      if i == |stream| {
        stream := [];
        return None;
      }
      stream := stream[i + 1..];
      queue := queue[1..];
      return Some(read);
    }
  }
}

/**
 bidiValueToPlain (pkg/backend/bidi/client.go) against the serialisation of "The
 script.RemoteValue Type" in WebDriver BiDi.
 */
module BiDiValues {
  import opened Common

  /** Parsed JSON; an object keeps its members in order. */
  datatype Json =
    | JNull | JBool(b: bool) | JNumber(n: real) | JString(s: string)
    | JArray(items: seq<Json>) | JObject(fields: seq<(string, Json)>)

  datatype Plain =
    | PNull | PBool(b: bool) | PNumber(n: real) | PString(s: string)
    | PList(items: seq<Plain>) | PMap(entries: map<string, Plain>)

  /** A member of an object; the last of several counts. */
  function Field(fields: seq<(string, Json)>, name: string): (j: Option<Json>)
    ensures j.Some? ==> exists i :: 0 <= i < |fields| && fields[i] == (name, j.value)
  {
    if fields == [] then None
    else if fields[|fields| - 1].0 == name then Some(fields[|fields| - 1].1)
    else Field(fields[..|fields| - 1], name)
  }

  function StringOf(j: Json): string { if j.JString? then j.s else "" }

  /** A key is a string, or the value of a string's own serialisation. */
  function KeyOf(j: Json): string {
    var key := StringOf(j);
    if key != "" then key
    else if j.JObject? && Field(j.fields, "value").Some? then StringOf(Field(j.fields, "value").value)
    else ""
  }

  function BidiValueToPlain(raw: Json): Plain
    decreases raw, 1
  {
    if !raw.JObject? then PNull else
    var kind := Field(raw.fields, "type");
    if kind.None? || !kind.value.JString? then PNull else
    var value := Field(raw.fields, "value");
    match kind.value.s
    case "string" => PString(if value.Some? then StringOf(value.value) else "")
    case "number" => PNumber(if value.Some? && value.value.JNumber? then value.value.n else 0.0)
    case "boolean" => PBool(value.Some? && value.value.JBool? && value.value.b)
    case "array" | "nodelist" | "htmlcollection" =>
      PList(if value.Some? && value.value.JArray? then PlainAll(value.value.items) else [])
    case "object" | "map" =>
      if value.None? then PNull
      else if value.value.JNull? then PMap(map[])
      else if !value.value.JArray? then PNull
      else PMap(PlainPairs(value.value.items))
    case _ => PNull
  }

  function PlainAll(items: seq<Json>): (r: seq<Plain>)
    ensures |r| == |items|
    decreases items, 0
  {
    if items == [] then [] else
    var n := |items| - 1;
    PlainAll(items[..n]) + [BidiValueToPlain(items[n])]
  }

  /** What is not a pair is passed over; a repeated key is overwritten. */
  function PlainPairs(items: seq<Json>): map<string, Plain>
    decreases items, 0
  {
    if items == [] then map[] else
    var n := |items| - 1;
    var rest := PlainPairs(items[..n]);
    if items[n].JArray? && |items[n].items| == 2 then
      rest[KeyOf(items[n].items[0]) := BidiValueToPlain(items[n].items[1])]
    else rest
  }

  // ---------------------------------------------------------------- the serialisation

  datatype ListKind = ArrayKind | NodeListKind | HtmlCollectionKind

  /** A finite value of the remote side. An object has text keys, a map keys that are strings of their own. */
  datatype Remote =
    | Null
    | Undefined
    | Boolean(b: bool)
    | Number(n: real)
    | Text(s: string)
    | List(kind: ListKind, items: seq<Remote>)
    | Entries(isMap: bool, entries: seq<Entry>)

  datatype Entry = Entry(key: string, value: Remote)

  function Typed(kind: string, value: Json): Json { JObject([("type", JString(kind)), ("value", value)]) }

  function KindName(k: ListKind): string {
    match k case ArrayKind => "array" case NodeListKind => "nodelist" case HtmlCollectionKind => "htmlcollection"
  }

  function Serialise(r: Remote): Json
    decreases r, 1
  {
    match r
    case Null => JObject([("type", JString("null"))])
    case Undefined => JObject([("type", JString("undefined"))])
    case Boolean(b) => Typed("boolean", JBool(b))
    case Number(n) => Typed("number", JNumber(n))
    case Text(s) => Typed("string", JString(s))
    case List(kind, items) => Typed(KindName(kind), JArray(SerialiseAll(items)))
    case Entries(isMap, entries) => Typed(if isMap then "map" else "object", JArray(SerialiseEntries(isMap, entries)))
  }

  function SerialiseAll(items: seq<Remote>): (js: seq<Json>)
    ensures |js| == |items|
    decreases items, 0
  {
    if items == [] then [] else
    var n := |items| - 1;
    SerialiseAll(items[..n]) + [Serialise(items[n])]
  }

  function SerialiseKey(isMap: bool, key: string): Json {
    if isMap then Typed("string", JString(key)) else JString(key)
  }

  function SerialiseEntries(isMap: bool, entries: seq<Entry>): (js: seq<Json>)
    ensures |js| == |entries|
    decreases entries, 0
  {
    if entries == [] then [] else
    var n := |entries| - 1;
    SerialiseEntries(isMap, entries[..n]) + [JArray([SerialiseKey(isMap, entries[n].key), Serialise(entries[n].value)])]
  }

  /** The tree a remote value stands for: undefined and null are one, and so are the kinds of list. */
  function TreeOf(r: Remote): Plain
    decreases r, 1
  {
    match r
    case Null | Undefined => PNull
    case Boolean(b) => PBool(b)
    case Number(n) => PNumber(n)
    case Text(s) => PString(s)
    case List(_, items) => PList(TreesOf(items))
    case Entries(_, entries) => PMap(MapOf(entries))
  }

  function TreesOf(items: seq<Remote>): seq<Plain>
    decreases items, 0
  {
    if items == [] then [] else
    var n := |items| - 1;
    TreesOf(items[..n]) + [TreeOf(items[n])]
  }

  function MapOf(entries: seq<Entry>): map<string, Plain>
    decreases entries, 0
  {
    if entries == [] then map[] else
    var n := |entries| - 1;
    MapOf(entries[..n])[entries[n].key := TreeOf(entries[n].value)]
  }

  lemma TypedFields(kind: string, value: Json)
    ensures Field(Typed(kind, value).fields, "type") == Some(JString(kind))
        && Field(Typed(kind, value).fields, "value") == Some(value)
  {
    var fields := Typed(kind, value).fields;
    assert fields[..1] == [("type", JString(kind))];
    assert "type" != "value" by { assert "type"[0] != "value"[0]; }
  }

  lemma KeyComesBack(isMap: bool, key: string)
    ensures KeyOf(SerialiseKey(isMap, key)) == key
  {
    if isMap { TypedFields("string", JString(key)); }
  }

  /** The three kinds of list decode alike, and whatever is not one of the known kinds to nothing. */
  lemma DecodeByName(kind: string, items: seq<Json>, value: Json)
    ensures kind == "array" || kind == "nodelist" || kind == "htmlcollection" ==>
      BidiValueToPlain(Typed(kind, JArray(items))) == PList(PlainAll(items))
    ensures kind !in {"string", "number", "boolean", "array", "nodelist", "htmlcollection", "object", "map"} ==>
      BidiValueToPlain(Typed(kind, value)) == PNull
  {
    hide PlainAll, PlainPairs, Field;
    TypedFields(kind, JArray(items));
    TypedFields(kind, value);
  }

  /** What becomes of a kind without a value, and of an object without members. */
  lemma DecodeWithoutValue(kind: string)
    ensures BidiValueToPlain(JObject([("type", JString(kind))])) ==
      (if kind == "string" then PString("") else if kind == "number" then PNumber(0.0)
       else if kind == "boolean" then PBool(false)
       else if kind == "array" || kind == "nodelist" || kind == "htmlcollection" then PList([])
       else PNull)
    ensures kind == "object" || kind == "map" ==> BidiValueToPlain(Typed(kind, JNull)) == PMap(map[])
  {
    hide PlainAll, PlainPairs, Field;
    BareField(kind);
    TypedFields(kind, JNull);
  }

  /** What is no pair leaves no member. */
  lemma NoPairNoMember(items: seq<Json>, odd: Json)
    requires !(odd.JArray? && |odd.items| == 2)
    ensures PlainPairs(items + [odd]) == PlainPairs(items)
  {
    assert (items + [odd])[..|items|] == items;
  }

  lemma DecodeList(kind: ListKind, items: seq<Json>)
    ensures BidiValueToPlain(Typed(KindName(kind), JArray(items))) == PList(PlainAll(items))
  {
    hide PlainAll, PlainPairs, Field;
    TypedFields(KindName(kind), JArray(items));
  }

  lemma DecodeEntries(isMap: bool, items: seq<Json>)
    ensures BidiValueToPlain(Typed(if isMap then "map" else "object", JArray(items))) == PMap(PlainPairs(items))
  {
    hide PlainAll, PlainPairs, Field;
    TypedFields(if isMap then "map" else "object", JArray(items));
  }

  lemma DecodeText(s: string)
    ensures BidiValueToPlain(Typed("string", JString(s))) == PString(s)
  {
    hide PlainAll, PlainPairs, Field;
    TypedFields("string", JString(s));
  }

  lemma DecodeBoolean(b: bool)
    ensures BidiValueToPlain(Typed("boolean", JBool(b))) == PBool(b)
  {
    hide PlainAll, PlainPairs, Field;
    TypedFields("boolean", JBool(b));
  }

  lemma DecodeBare(kind: string)
    requires kind == "null" || kind == "undefined"
    ensures BidiValueToPlain(JObject([("type", JString(kind))])) == PNull
  {
    hide PlainAll, PlainPairs, Field;
    BareField(kind);
  }

  /** Decoding the serialisation of any finite value gives the tree it stands for. */
  lemma {:induction false} RemoteRoundTrip(r: Remote)
    ensures BidiValueToPlain(Serialise(r)) == TreeOf(r)
    decreases r, 1
  {
    hide BidiValueToPlain;
    match r
    case Null => DecodeBare("null");
    case Undefined => DecodeBare("undefined");
    case Boolean(b) => DecodeBoolean(b);
    case Number(n) => NumberOrZero(JNumber(n));
    case Text(s) => DecodeText(s);
    case List(kind, items) =>
      DecodeList(kind, SerialiseAll(items));
      ListRoundTrip(items);
    case Entries(isMap, entries) =>
      DecodeEntries(isMap, SerialiseEntries(isMap, entries));
      EntriesRoundTrip(isMap, entries);
  }

  lemma BareField(kind: string)
    ensures Field([("type", JString(kind))], "type") == Some(JString(kind))
        && Field([("type", JString(kind))], "value") == None
  {
    var fields := [("type", JString(kind))];
    assert fields[..0] == [];
    assert "type" != "value" by { assert "type"[0] != "value"[0]; }
  }

  lemma {:induction false} ListRoundTrip(items: seq<Remote>)
    ensures PlainAll(SerialiseAll(items)) == TreesOf(items)
    decreases items, 0
  {
    if items != [] {
      var n := |items| - 1;
      ListRoundTrip(items[..n]);
      RemoteRoundTrip(items[n]);
      assert SerialiseAll(items)[..n] == SerialiseAll(items[..n]);
    }
  }

  lemma {:induction false} EntriesRoundTrip(isMap: bool, entries: seq<Entry>)
    ensures PlainPairs(SerialiseEntries(isMap, entries)) == MapOf(entries)
    decreases entries, 0
  {
    if entries != [] {
      var n := |entries| - 1;
      EntriesRoundTrip(isMap, entries[..n]);
      RemoteRoundTrip(entries[n].value);
      KeyComesBack(isMap, entries[n].key);
      assert SerialiseEntries(isMap, entries)[..n] == SerialiseEntries(isMap, entries[..n]);
    }
  }

  /** Numbers that JSON cannot write travel as text, and that text is lost: they come back as zero. */
  lemma NumberOrZero(value: Json)
    ensures BidiValueToPlain(Typed("number", value)) == PNumber(if value.JNumber? then value.n else 0.0)
  {
    hide PlainAll, PlainPairs, Field;
    TypedFields("number", value);
  }
}
