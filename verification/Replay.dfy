/**
 Recording and replaying a CDP session (pkg/recording). A message stands for its JSON text, which
 is what the replay compares.
 */
module Replay {
  import opened Common

  datatype Entry<M> = Entry(number: int, direction: string, message: M)

  /** A frame that went over the connection, seen from the bridge. */
  datatype Frame<M> = Frame(direction: string, message: M)

  datatype Fault = Exhausted | ExpectedOutbound | Mismatch | WriteFailed

  function Frames<M>(es: seq<Entry<M>>): (fs: seq<Frame<M>>)
    ensures |fs| == |es|
  {
    if es == [] then [] else [Frame(es[0].direction, es[0].message)] + Frames(es[1..])
  }

  lemma {:induction false} FramesAt<M>(es: seq<Entry<M>>, i: nat)
    requires i < |es|
    ensures Frames(es)[i] == Frame(es[i].direction, es[i].message)
  {
    if i > 0 { FramesAt(es[1..], i - 1); }
  }

  lemma FramesPrefix<M>(es: seq<Entry<M>>, n: nat)
    requires n <= |es|
    ensures Frames(es[..n]) == Frames(es)[..n]
  {
    forall i | 0 <= i < n ensures Frames(es[..n])[i] == Frames(es)[i] { FramesAt(es[..n], i); FramesAt(es, i); }
  }

  // ---------------------------------------------------------------- recording

  class Recorder<M> {
    var number: int
    var file: seq<Entry<M>>

    constructor ()
      ensures number == 0 && file == []
    {
      number, file := 0, [];
    }

    /** The number is used up even when the entry cannot be written. */
    method Record(direction: string, message: M, ok: bool) returns (recorded: bool)
      modifies this
      ensures number == old(number) + 1 && recorded == ok
      ensures file == old(file) + if ok then [Entry(number, direction, message)] else []
    {
      number := number + 1;
      var entry := Entry(number, direction, message);
      if !ok { return false; }
      file := file + [entry];
      return true;
    }

    method RecordAll(frames: seq<Frame<M>>)
      requires number == |file| && forall i | 0 <= i < |file| :: file[i].number == i + 1
      modifies this
      ensures Frames(file) == Frames(old(file)) + frames
      ensures number == |file| && forall i | 0 <= i < |file| :: file[i].number == i + 1
    {
      var k := 0;
      while k < |frames|
        invariant 0 <= k <= |frames| && number == |file|
        invariant Frames(file) == Frames(old(file)) + frames[..k]
        invariant forall i | 0 <= i < |file| :: file[i].number == i + 1
      {
        FramesSnoc(file, Entry(number + 1, frames[k].direction, frames[k].message));
        var _ := Record(frames[k].direction, frames[k].message, true);
        assert frames[..k + 1] == frames[..k] + [frames[k]];
        k := k + 1;
      }
      assert frames[..k] == frames;
    }
  }

  lemma {:induction false} FramesSnoc<M>(es: seq<Entry<M>>, e: Entry<M>)
    ensures Frames(es + [e]) == Frames(es) + [Frame(e.direction, e.message)]
  {
    if es == [] {
      assert es + [e] == [e];
    } else {
      FramesSnoc(es[1..], e);
      assert (es + [e])[1..] == es[1..] + [e];
    }
  }

  /** Load: decodes entries to the end of the file, or fails with nothing at the first that does not decode. */
  method Load<M>(file: seq<Option<Entry<M>>>) returns (entries: Option<seq<Entry<M>>>)
    ensures entries.Some? <==> forall i | 0 <= i < |file| :: file[i].Some?
    ensures entries.Some?
        ==> |entries.value| == |file| && forall i | 0 <= i < |file| :: file[i] == Some(entries.value[i])
  {
    var es: seq<Entry<M>> := [];
    var k := 0;
    while k < |file|
      invariant 0 <= k <= |file| && |es| == k
      invariant forall i | 0 <= i < k :: file[i] == Some(es[i])
    {
      if file[k].None? { return None; }
      es := es + [file[k].value];
      k := k + 1;
    }
    return Some(es);
  }

  // ---------------------------------------------------------------- replaying

  /** The first place from `pos` on whose entry is not an outbound one. */
  function NextInput<M>(es: seq<Entry<M>>, pos: nat): (r: nat)
    requires pos <= |es|
    ensures pos <= r <= |es| && (r < |es| ==> es[r].direction != "out")
    ensures forall i | pos <= i < r :: es[i].direction == "out"
    decreases |es| - pos
  {
    if pos < |es| && es[pos].direction == "out" then NextInput(es, pos + 1) else pos
  }

  function Accept<M(==)>(es: seq<Entry<M>>, pos: nat, m: M): Option<Fault>
    requires pos <= |es|
  {
    if pos == |es| then Some(Exhausted)
    else if es[pos].direction != "in" then Some(ExpectedOutbound)
    else if es[pos].message != m then Some(Mismatch)
    else None
  }

  class ReplaySession<M(==)> {
    const entries: seq<Entry<M>>
    var pos: nat
    /** What has been written and accepted so far. */
    var transcript: seq<Frame<M>>

    constructor (entries: seq<Entry<M>>)
      ensures this.entries == entries && pos == 0 && transcript == [] && Valid()
    {
      this.entries, pos, transcript := entries, 0, [];
    }

    ghost predicate Valid()
      reads this
    {
      pos <= |entries| && transcript == Frames(entries[..pos])
    }

    lemma TranscriptGrows()
      requires Valid() && pos < |entries|
      ensures Frames(entries[..pos + 1]) == transcript + [Frame(entries[pos].direction, entries[pos].message)]
    {
      assert entries[..pos + 1] == entries[..pos] + [entries[pos]];
      FramesSnoc(entries[..pos], entries[pos]);
    }

    /** `writable` of the writes succeed. A failed write has moved on past its entry all the same. */
    method FlushOutboundUntilInput(writable: nat) returns (fault: Option<Fault>)
      requires Valid()
      modifies this
      ensures var next := NextInput(entries, old(pos));
        if next - old(pos) <= writable then fault == None && pos == next && Valid()
        else fault == Some(WriteFailed) && pos == old(pos) + writable + 1 && transcript == Frames(entries[..pos - 1])
    {
      var left := writable;
      while pos < |entries|
        invariant Valid() && old(pos) <= pos && left == writable - (pos - old(pos)) >= 0
        invariant NextInput(entries, pos) == NextInput(entries, old(pos))
        decreases |entries| - pos
      {
        var entry := entries[pos];
        if entry.direction != "out" { return None; }
        TranscriptGrows();
        pos := pos + 1;
        if left == 0 { return Some(WriteFailed); }
        left := left - 1;
        transcript := transcript + [Frame(entry.direction, entry.message)];
      }
      return None;
    }

    method AcceptInbound(m: M) returns (fault: Option<Fault>)
      requires Valid()
      modifies this
      ensures Valid() && fault == Accept(entries, old(pos), m)
      ensures pos == old(pos) + if fault.None? then 1 else 0
    {
      if pos >= |entries| { return Some(Exhausted); }
      var entry := entries[pos];
      if entry.direction != "in" { return Some(ExpectedOutbound); }
      if entry.message != m { return Some(Mismatch); }
      TranscriptGrows();
      pos := pos + 1;
      transcript := transcript + [Frame(entry.direction, entry.message)];
      return None;
    }

    /** What has passed when a session ends: all up to the position, but for an entry whose write failed. */
    ghost predicate Passed(fault: Option<Fault>)
      reads this
    {
      var n := if fault == Some(WriteFailed) then pos - 1 else pos;
      0 <= n <= |entries| && transcript == Frames(entries[..n])
    }

    /** One turn of the loop of handleWS; `rest` is what the client sends after `m`. */
    method Turn(m: M, ghost rest: seq<M>, writable: nat) returns (fault: Option<Fault>, left: nat)
      requires Valid() && NextInput(entries, pos) == pos
      modifies this
      ensures Passed(fault)
      ensures var end := ServedLimited(entries, old(pos), [m] + rest, writable);
        if fault.Some? then (pos, fault) == end
        else Valid() && NextInput(entries, pos) == pos && ServedLimited(entries, pos, rest, left) == end
    {
      hide Frames;
      left := writable;
      assert ([m] + rest)[1..] == rest;
      fault := AcceptInbound(m);
      if fault.Some? { return; }
      var before := pos;
      ServedAfterFlush(entries, before, rest, writable);
      fault := FlushOutboundUntilInput(writable);
      if fault.None? { left := writable - (pos - before); }
    }

    /**
     handleWS: frames from the client until one is refused, a write fails, or there are no more;
     `writable` writes succeed. At every end what has passed is a prefix of the recording.
     */
    method HandleWS(inputs: seq<M>, writable: nat) returns (fault: Option<Fault>)
      requires Valid() && pos == 0
      modifies this
      ensures (pos, fault) == ServedLimited(entries, 0, inputs, writable)
      ensures Passed(fault) && transcript <= Frames(entries)
    {
      FramesPrefixes();
      hide Frames;
      ServedAfterFlush(entries, 0, inputs, writable);
      fault := FlushOutboundUntilInput(writable);
      if fault.Some? { return; }
      var left: nat := writable - pos;
      var k := 0;
      assert inputs[0..] == inputs;
      while k < |inputs|
        invariant 0 <= k <= |inputs| && Valid() && fault == None && NextInput(entries, pos) == pos
        invariant ServedLimited(entries, pos, inputs[k..], left) == ServedLimited(entries, 0, inputs, writable)
      {
        assert inputs[k..] == [inputs[k]] + inputs[k + 1..];
        fault, left := Turn(inputs[k], inputs[k + 1..], left);
        if fault.Some? { return; }
        k := k + 1;
      }
    }

    lemma FramesPrefixes()
      ensures forall n: nat | n <= |entries| :: Frames(entries[..n]) <= Frames(entries)
    {
      forall n: nat | n <= |entries| ensures Frames(entries[..n]) <= Frames(entries) { FramesPrefix(entries, n); }
    }
  }

  /** The same with `writable` writes that succeed: where the session ends, a failed write included. */
  function ServedLimited<M(==)>(es: seq<Entry<M>>, pos: nat, inputs: seq<M>, writable: nat): (r: (nat, Option<Fault>))
    requires pos <= |es|
    ensures r.0 <= |es| && (r.1 == Some(WriteFailed) ==> r.0 > 0)
    decreases |inputs|
  {
    var at := NextInput(es, pos);
    if at - pos > writable then (pos + writable + 1, Some(WriteFailed))
    else if inputs == [] then (at, None)
    else
      var fault := Accept(es, at, inputs[0]);
      if fault.Some? then (at, fault) else ServedLimited(es, at + 1, inputs[1..], writable - (at - pos))
  }

  lemma ServedAfterFlush<M>(es: seq<Entry<M>>, pos: nat, inputs: seq<M>, writable: nat)
    requires pos <= |es|
    ensures var at := NextInput(es, pos);
      && NextInput(es, at) == at
      && (at - pos <= writable
          ==> ServedLimited(es, at, inputs, writable - (at - pos)) == ServedLimited(es, pos, inputs, writable))
  {}

  /** With enough writes to spare no write fails. */
  lemma {:induction false} EnoughWrites<M>(es: seq<Entry<M>>, pos: nat, inputs: seq<M>, writable: nat)
    requires pos <= |es| && writable >= |es| - pos
    ensures ServedLimited(es, pos, inputs, writable) == Served(es, pos, inputs)
    decreases |inputs|
  {
    var at := NextInput(es, pos);
    if inputs != [] && Accept(es, at, inputs[0]).None? {
      EnoughWrites(es, at + 1, inputs[1..], writable - (at - pos));
    }
  }

  /** Where a client that sends `inputs` gets to, and the fault that ends the session if one does. */
  function Served<M(==)>(es: seq<Entry<M>>, pos: nat, inputs: seq<M>): (r: (nat, Option<Fault>))
    requires pos <= |es|
    ensures r.0 <= |es|
    decreases |inputs|
  {
    var at := NextInput(es, pos);
    if inputs == [] then (at, None) else
    var fault := Accept(es, at, inputs[0]);
    if fault.Some? then (at, fault) else Served(es, at + 1, inputs[1..])
  }

  /** The recorded inbound messages, in order. */
  function Ins<M>(es: seq<Entry<M>>): seq<M> {
    if es == [] then [] else (if es[0].direction == "in" then [es[0].message] else []) + Ins(es[1..])
  }

  predicate TwoWay<M>(es: seq<Entry<M>>) {
    forall i | 0 <= i < |es| :: es[i].direction == "in" || es[i].direction == "out"
  }

  lemma {:induction false} InsSkip<M>(es: seq<Entry<M>>, pos: nat)
    requires pos <= |es|
    ensures Ins(es[pos..]) == Ins(es[NextInput(es, pos)..])
    decreases |es| - pos
  {
    if pos < |es| && es[pos].direction == "out" {
      assert es[pos..][1..] == es[pos + 1..];
      assert Ins(es[pos..]) == [] + Ins(es[pos + 1..]);
      InsSkip(es, pos + 1);
    }
  }

  lemma InsAt<M>(es: seq<Entry<M>>, pos: nat)
    requires pos <= |es| && TwoWay(es)
    ensures var at := NextInput(es, pos);
      if at == |es| then Ins(es[pos..]) == []
      else es[at].direction == "in" && Ins(es[pos..]) == [es[at].message] + Ins(es[at + 1..])
  {
    var at := NextInput(es, pos);
    InsSkip(es, pos);
    if at < |es| { assert es[at..][1..] == es[at + 1..]; } else { assert es[at..] == []; }
  }

  lemma PrefixCons<M>(s: seq<M>, x: M, rest: seq<M>)
    ensures s <= [x] + rest <==> s == [] || (s[0] == x && s[1..] <= rest)
    ensures s == [x] + rest <==> s != [] && s[0] == x && s[1..] == rest
  {
    if s != [] {
      assert s == [s[0]] + s[1..];
      if s <= [x] + rest {
        assert s[0] == x;
        forall i | 0 <= i < |s| - 1 ensures s[1..][i] == rest[i] { assert s[i + 1] == ([x] + rest)[i + 1]; }
      }
    }
  }

  lemma InsFront<M>(es: seq<Entry<M>>)
    requires es != []
    ensures Ins(es) == (if es[0].direction == "in" then [es[0].message] else []) + Ins(es[1..])
  {}

  lemma {:induction false} InsAppend<M>(a: seq<Entry<M>>, b: seq<Entry<M>>)
    ensures Ins(a + b) == Ins(a) + Ins(b)
  {
    if a == [] {
      assert a + b == b;
    } else {
      InsAppend(a[1..], b);
      InsFront(a);
      InsFront(a + b);
      hide Ins;
      assert (a + b)[1..] == a[1..] + b && (a + b)[0] == a[0];
      var first := if a[0].direction == "in" then [a[0].message] else [];
      assert (first + Ins(a[1..])) + Ins(b) == first + (Ins(a[1..]) + Ins(b));
    }
  }

  /** No inbound frame among those written on the way to the next input, and one in the entry accepted there. */
  lemma InsOfTurn<M>(es: seq<Entry<M>>, pos: nat, end: nat)
    requires pos <= |es| && NextInput(es, pos) <= end <= |es|
    ensures var at := NextInput(es, pos);
      && Ins(es[pos..end]) == Ins(es[at..end])
      && (at < end && es[at].direction == "in" ==> Ins(es[pos..end]) == [es[at].message] + Ins(es[at + 1..end]))
  {
    hide Ins, NextInput;
    var at := NextInput(es, pos);
    OutsHaveNoIns(es[pos..at]);
    assert es[pos..end] == es[pos..at] + es[at..end];
    InsAppend(es[pos..at], es[at..end]);
    if at < end {
      InsFront(es[at..end]);
      assert es[at..end][1..] == es[at + 1..end];
    }
  }

  lemma {:induction false} OutsHaveNoIns<M>(es: seq<Entry<M>>)
    requires forall i | 0 <= i < |es| :: es[i].direction == "out"
    ensures Ins(es) == []
  {
    if es != [] { OutsHaveNoIns(es[1..]); }
  }

  /**
   How far a session gets, whatever the recording. What it has accepted are the client's frames from
   the first on, and all outbound frames up to the next entry of another direction have been written.
   Without a fault every frame was accepted. Else the first frame that was not met the end of the
   recording, an entry of another direction, or an inbound entry with another message.
   */
  lemma {:induction false} ServedMeaning<M>(es: seq<Entry<M>>, pos: nat, inputs: seq<M>)
    requires pos <= |es|
    ensures var (end, fault) := Served(es, pos, inputs);
      && pos <= end <= |es| && (end < |es| ==> es[end].direction != "out")
      && var accepted := Ins(es[pos..end]);
         && accepted <= inputs
         && match fault
            case None => accepted == inputs
            case Some(Exhausted) => accepted != inputs && end == |es|
            case Some(ExpectedOutbound) => accepted != inputs && end < |es| && es[end].direction != "in"
            case Some(Mismatch) =>
              accepted < inputs && end < |es| && es[end].direction == "in" && es[end].message != inputs[|accepted|]
            case Some(WriteFailed) => false
    decreases |inputs|
  {
    var at := NextInput(es, pos);
    var end := Served(es, pos, inputs).0;
    if inputs == [] || Accept(es, at, inputs[0]).Some? {
      InsOfTurn(es, pos, at);
      assert es[at..at] == [];
    } else {
      ServedMeaning(es, at + 1, inputs[1..]);
      InsOfTurn(es, pos, end);
      assert inputs == [inputs[0]] + inputs[1..];
    }
  }

  function Outs<M>(es: seq<Entry<M>>): nat {
    if es == [] then 0 else Outs(es[..|es| - 1]) + if es[|es| - 1].direction == "out" then 1 else 0
  }

  lemma {:induction false} OutsAppend<M>(a: seq<Entry<M>>, b: seq<Entry<M>>)
    ensures Outs(a + b) == Outs(a) + Outs(b)
    decreases |b|
  {
    if b == [] {
      assert a + b == a;
    } else {
      var n := |b| - 1;
      OutsAppend(a, b[..n]);
      assert (a + b)[..|a| + n] == a + b[..n];
    }
  }

  lemma {:induction false} AllOut<M>(es: seq<Entry<M>>)
    requires forall i | 0 <= i < |es| :: es[i].direction == "out"
    ensures Outs(es) == |es|
  {
    if es != [] { AllOut(es[..|es| - 1]); }
  }

  lemma OutsOfTurn<M>(es: seq<Entry<M>>, pos: nat, at: nat, end: nat)
    requires pos <= at <= end <= |es| && forall i | pos <= i < at :: es[i].direction == "out"
    ensures Outs(es[pos..end]) == at - pos + Outs(es[at..end]) && Outs(es[end..end]) == 0
    ensures at < end && es[at].direction != "out" ==> Outs(es[at..end]) == Outs(es[at + 1..end])
  {
    assert es[pos..end] == es[pos..at] + es[at..end];
    OutsAppend(es[pos..at], es[at..end]);
    AllOut(es[pos..at]);
    if at < end {
      assert es[at..end] == [es[at]] + es[at + 1..end];
      OutsAppend([es[at]], es[at + 1..end]);
      assert [es[at]][..0] == [];
    }
  }

  /**
   Between a session that may write as it likes and one with so many writes that succeed: the second
   ends as the first if that has no more to write, and else at the first write too many.
   */
  ghost predicate EndsInTime<M>(es: seq<Entry<M>>, pos: nat, writable: nat, free: (nat, Option<Fault>),
      limited: (nat, Option<Fault>)) {
    && pos <= free.0 <= |es|
    && if Outs(es[pos..free.0]) <= writable then limited == free
       else limited.1 == Some(WriteFailed) && pos < limited.0 <= free.0 && es[limited.0 - 1].direction == "out"
            && Outs(es[pos..limited.0]) == writable + 1
  }

  lemma InTimeOn<M>(es: seq<Entry<M>>, pos: nat, at: nat, writable: nat, free: (nat, Option<Fault>),
      limited: (nat, Option<Fault>))
    requires pos <= at < |es| && at - pos <= writable && es[at].direction != "out"
    requires forall i | pos <= i < at :: es[i].direction == "out"
    requires EndsInTime(es, at + 1, writable - (at - pos), free, limited)
    ensures EndsInTime(es, pos, writable, free, limited)
  {
    hide Outs;
    OutsOfTurn(es, pos, at, free.0);
    if Outs(es[at + 1..free.0]) > writable - (at - pos) { OutsOfTurn(es, pos, at, limited.0); }
  }

  /** One turn of both sessions, when the first frame is accepted and the writes before it succeed. */
  lemma TurnOfBoth<M>(es: seq<Entry<M>>, pos: nat, inputs: seq<M>, writable: nat)
    requires pos <= |es| && inputs != []
    requires var at := NextInput(es, pos); at - pos <= writable && Accept(es, at, inputs[0]).None?
    ensures var at := NextInput(es, pos);
      && at < |es| && es[at].direction == "in"
      && Served(es, pos, inputs) == Served(es, at + 1, inputs[1..])
      && ServedLimited(es, pos, inputs, writable) == ServedLimited(es, at + 1, inputs[1..], writable - (at - pos))
  {}

  /** The last turn of both. */
  lemma LastOfBoth<M>(es: seq<Entry<M>>, pos: nat, inputs: seq<M>, writable: nat)
    requires pos <= |es| && (inputs == [] || Accept(es, NextInput(es, pos), inputs[0]).Some?)
    requires NextInput(es, pos) - pos <= writable
    ensures Served(es, pos, inputs) == ServedLimited(es, pos, inputs, writable)
    ensures Served(es, pos, inputs).0 == NextInput(es, pos)
  {}

  lemma FailsBefore<M>(es: seq<Entry<M>>, pos: nat, inputs: seq<M>, writable: nat)
    requires pos <= |es| && NextInput(es, pos) - pos > writable
    ensures EndsInTime(es, pos, writable, Served(es, pos, inputs), ServedLimited(es, pos, inputs, writable))
  {
    hide Outs, Served;
    EndIsFurther(es, pos, inputs);
    TooManyWrites(es, pos, NextInput(es, pos), Served(es, pos, inputs).0, writable);
  }

  lemma EndsHere<M>(es: seq<Entry<M>>, pos: nat, inputs: seq<M>, writable: nat)
    requires pos <= |es| && (inputs == [] || Accept(es, NextInput(es, pos), inputs[0]).Some?)
    requires NextInput(es, pos) - pos <= writable
    ensures EndsInTime(es, pos, writable, Served(es, pos, inputs), ServedLimited(es, pos, inputs, writable))
  {
    hide Outs, Served, ServedLimited;
    LastOfBoth(es, pos, inputs, writable);
    OutsOfTurn(es, pos, NextInput(es, pos), NextInput(es, pos));
  }

  lemma {:induction false} WritesIff<M>(es: seq<Entry<M>>, pos: nat, inputs: seq<M>, writable: nat)
    requires pos <= |es|
    ensures EndsInTime(es, pos, writable, Served(es, pos, inputs), ServedLimited(es, pos, inputs, writable))
    decreases |inputs|
  {
    hide Outs, Served, ServedLimited, EndsInTime;
    var at := NextInput(es, pos);
    if at - pos > writable {
      FailsBefore(es, pos, inputs, writable);
    } else if inputs == [] || Accept(es, at, inputs[0]).Some? {
      EndsHere(es, pos, inputs, writable);
    } else {
      TurnOfBoth(es, pos, inputs, writable);
      WritesIff(es, at + 1, inputs[1..], writable - (at - pos));
      InTimeOn(es, pos, at, writable, Served(es, pos, inputs), ServedLimited(es, pos, inputs, writable));
    }
  }

  lemma {:induction false} EndIsFurther<M>(es: seq<Entry<M>>, pos: nat, inputs: seq<M>)
    requires pos <= |es|
    ensures NextInput(es, pos) <= Served(es, pos, inputs).0
    decreases |inputs|
  {
    var at := NextInput(es, pos);
    if inputs != [] && Accept(es, at, inputs[0]).None? { EndIsFurther(es, at + 1, inputs[1..]); }
  }

  lemma TooManyWrites<M>(es: seq<Entry<M>>, pos: nat, at: nat, end: nat, writable: nat)
    requires pos <= at <= end <= |es| && forall i | pos <= i < at :: es[i].direction == "out"
    requires at - pos > writable
    ensures Outs(es[pos..end]) > writable && Outs(es[pos..pos + writable + 1]) == writable + 1
  {
    OutsOfTurn(es, pos, at, end);
    AllOut(es[pos..pos + writable + 1]);
  }

  /**
   For a two-way recording a session is free of faults exactly when the client keeps to the recorded
   inbound frames.
   */
  lemma {:induction false} ServedIff<M>(es: seq<Entry<M>>, pos: nat, inputs: seq<M>)
    requires pos <= |es| && TwoWay(es)
    ensures Served(es, pos, inputs).1.None? <==> inputs <= Ins(es[pos..])
    ensures inputs == Ins(es[pos..]) ==> Served(es, pos, inputs) == (|es|, None)
    ensures Served(es, pos, inputs).1 != Some(ExpectedOutbound)
    decreases |inputs|
  {
    hide Ins;
    var at := NextInput(es, pos);
    InsAt(es, pos);
    if at < |es| {
      PrefixCons(inputs, es[at].message, Ins(es[at + 1..]));
      if inputs != [] { ServedIff(es, at + 1, inputs[1..]); }
    }
  }

  /** A client that sends the recorded inbound frames in order gets the whole recording back and reaches its end. */
  lemma FullPlayback<M>(es: seq<Entry<M>>)
    requires TwoWay(es)
    ensures Served(es, 0, Ins(es)) == (|es|, None) && Frames(es[..|es|]) == Frames(es)
  {
    assert es[0..] == es && es[..|es|] == es;
    ServedIff(es, 0, Ins(es));
  }

  ghost predicate CanExpectOutbound<M(!new)>(es: seq<Entry<M>>, pos: nat)
    requires pos <= |es|
  {
    exists inputs :: Served(es, pos, inputs).1 == Some(ExpectedOutbound)
  }

  /**
   A client can meet the "expected outbound" fault exactly when the recording holds a direction that is
   neither way.
   */
  lemma ExpectedOutboundIff<M(!new)>(es: seq<Entry<M>>, any: M)
    ensures CanExpectOutbound(es, 0) <==> !TwoWay(es)
  {
    assert es[0..] == es;
    if TwoWay(es) {
      forall inputs ensures Served(es, 0, inputs).1 != Some(ExpectedOutbound) { ServedIff(es, 0, inputs); }
    } else {
      var i :| 0 <= i < |es| && es[i].direction != "in" && es[i].direction != "out";
      var inputs := ToTheOdd(es, 0, i, any);
      assert Served(es, 0, inputs).1 == Some(ExpectedOutbound);
    }
  }

  /** Inputs that lead from `pos` to the first odd direction. */
  lemma {:induction false} ToTheOdd<M>(es: seq<Entry<M>>, pos: nat, i: nat, any: M) returns (inputs: seq<M>)
    requires pos <= i < |es| && es[i].direction != "in" && es[i].direction != "out"
    ensures Served(es, pos, inputs).1 == Some(ExpectedOutbound)
    decreases |es| - pos
  {
    var at := NextInput(es, pos);
    if es[at].direction == "in" {
      var rest := ToTheOdd(es, at + 1, i, any);
      inputs := [es[at].message] + rest;
      assert inputs[1..] == rest;
    } else {
      inputs := [any];
    }
  }

  /**
   Recording frames, loading the file and replaying it to a client that sends the same inbound frames
   gives the same frames.
   */
  method RecordAndReplay<M(==)>(frames: seq<Frame<M>>, inputs: seq<M>)
    returns (transcript: seq<Frame<M>>, fault: Option<Fault>)
    requires forall i | 0 <= i < |frames| :: frames[i].direction == "in" || frames[i].direction == "out"
    requires inputs == Inbound(frames)
    ensures transcript == frames && fault == None
  {
    var recorder := new Recorder<M>();
    recorder.RecordAll(frames);
    var es := recorder.file;
    assert Frames(es) == frames;
    forall i | 0 <= i < |es| ensures es[i].direction == "in" || es[i].direction == "out" { FramesAt(es, i); }
    InboundOfFrames(es);
    var session := new ReplaySession(es);
    fault := session.HandleWS(inputs, |es|);
    EnoughWrites(es, 0, inputs, |es|);
    FullPlayback(es);
    transcript := session.transcript;
  }

  function Inbound<M>(frames: seq<Frame<M>>): seq<M> {
    if frames == [] then []
    else (if frames[0].direction == "in" then [frames[0].message] else []) + Inbound(frames[1..])
  }

  lemma {:induction false} InboundOfFrames<M>(es: seq<Entry<M>>)
    ensures Inbound(Frames(es)) == Ins(es)
  {
    if es != [] { InboundOfFrames(es[1..]); }
  }
}
