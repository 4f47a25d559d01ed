/**
 The pending-call protocol shared by pkg/backend/juggler/client.go and pkg/backend/bidi/client.go:
 callers, one read loop, and a table of one-slot channels.

 RpcProtocol is the protocol, one step for each lock region, channel operation and transport
 result, in any interleaving of any number of callers. RpcClient is the shared state as it stands.
 */
module RpcProtocol {
  import opened Common

  datatype Message = Message(id: int, name: string, body: string)

  predicate IsResponse(m: Message) { m.id != 0 && m.name == "" }

  datatype Return = Got(m: Message) | SendError | TimedOut | ClientClosed

  /** Where a caller is: its number taken, its channel entered, sent and waiting, on its way out, or back. */
  datatype Phase = Numbered | Entered | Waiting | Leaving(why: Return) | Returned(r: Return)

  /** A call, whether the table holds its channel, what the channel holds, and how often it was sent to. */
  datatype Call = Call(phase: Phase, pending: bool, box: seq<Message>, puts: nat)

  /** `held` is the channel the read loop has taken from the table, with the message to put into it. */
  datatype Rpc = Rpc(nextID: nat, calls: map<nat, Call>, held: Option<(nat, Message)>, done: bool)

  const START := Rpc(0, map[], None, false)

  datatype Step =
    | Number
    | Enter(id: nat)
    | SendOk(id: nat)
    | SendFails(id: nat)
    | Withdraw(id: nat)      // deletes the table entry on the way out
    | Receive(id: nat)
    | Expire(id: nat)        // the context is done first
    | Abort(id: nat)         // the client is done first
    | Close
    | Read(m: Message)       // the read loop, up to the end of its lock region
    | Put                    // the read loop's channel send

  function SetCall(s: Rpc, id: nat, c: Call): Rpc { s.(calls := s.calls[id := c]) }

  predicate InPhase(s: Rpc, id: nat, p: Phase) { id in s.calls && s.calls[id].phase == p }

  predicate Enabled(s: Rpc, e: Step) {
    match e
    case Enter(id) => InPhase(s, id, Numbered)
    case SendOk(id) => InPhase(s, id, Entered)
    case SendFails(id) => InPhase(s, id, Entered)
    case Withdraw(id) => id in s.calls && s.calls[id].phase.Leaving?
    case Receive(id) => InPhase(s, id, Waiting) && s.calls[id].box != []
    case Expire(id) => InPhase(s, id, Waiting)
    case Abort(id) => InPhase(s, id, Waiting) && s.done
    case Read(m) => s.held.None?
    case Put => s.held.Some? && s.held.value.0 in s.calls && s.calls[s.held.value.0].box == []
    case _ => true
  }

  /** A response to a call in the table is taken out with its channel; any other message changes nothing here. */
  predicate Takes(s: Rpc, m: Message) { IsResponse(m) && m.id > 0 && m.id in s.calls && s.calls[m.id].pending }

  function Next(s: Rpc, e: Step): Rpc
    requires Enabled(s, e)
  {
    match e
    case Number => Rpc(s.nextID + 1, s.calls[s.nextID + 1 := Call(Numbered, false, [], 0)], s.held, s.done)
    case Enter(id) => SetCall(s, id, s.calls[id].(phase := Entered, pending := true))
    case SendOk(id) => SetCall(s, id, s.calls[id].(phase := Waiting))
    case SendFails(id) => SetCall(s, id, s.calls[id].(phase := Leaving(SendError)))
    case Withdraw(id) => SetCall(s, id, s.calls[id].(phase := Returned(s.calls[id].phase.why), pending := false))
    case Receive(id) =>
      SetCall(s, id, s.calls[id].(phase := Returned(Got(s.calls[id].box[0])), box := s.calls[id].box[1..]))
    case Expire(id) => SetCall(s, id, s.calls[id].(phase := Leaving(TimedOut)))
    case Abort(id) => SetCall(s, id, s.calls[id].(phase := Returned(ClientClosed)))
    case Close => s.(done := true)
    case Read(m) =>
      if Takes(s, m) then SetCall(s, m.id, s.calls[m.id].(pending := false)).(held := Some((m.id, m))) else s
    case Put =>
      var (id, m) := s.held.value;
      SetCall(s, id, s.calls[id].(box := s.calls[id].box + [m], puts := s.calls[id].puts + 1)).(held := None)
  }

  // ---------------------------------------------------------------- the invariant

  predicate Holds(s: Rpc, id: nat) { s.held.Some? && s.held.value.0 == id }

  predicate Live(p: Phase) { p.Entered? || p.Waiting? }

  /**
   The chance to answer a call is in one place: the table, the read loop's hands, or used up. While
   the caller waits it is not lost.
   */
  predicate CallOk(s: Rpc, id: nat) {
    id in s.calls ==>
      && 0 < id <= s.nextID
      && var c := s.calls[id];
         && (if c.pending then 1 else 0) + (if Holds(s, id) then 1 else 0) + c.puts <= 1
         && |c.box| <= c.puts && (forall m | m in c.box :: m.id == id && IsResponse(m))
         && (Live(c.phase) ==> c.pending || Holds(s, id) || |c.box| == 1)
         && (c.phase.Numbered? ==> !c.pending && !Holds(s, id) && c.puts == 0)
         && (c.phase.Returned? ==>
               match c.phase.r
               case Got(m) => m.id == id && IsResponse(m) && c.box == [] && c.puts == 1
               case ClientClosed => s.done
               case _ => !c.pending)
         && (c.phase.Leaving? ==> c.phase.why.SendError? || c.phase.why.TimedOut?)
  }

  ghost predicate Inv(s: Rpc) {
    && (forall id: nat {:trigger CallOk(s, id)} :: CallOk(s, id))
    && (s.held.Some? ==> s.held.value.0 in s.calls && s.held.value.1.id == s.held.value.0 && IsResponse(s.held.value.1))
  }

  lemma InvNext(s: Rpc, e: Step)
    requires Inv(s) && Enabled(s, e)
    ensures Inv(Next(s, e))
  {
    forall id: nat ensures CallOk(Next(s, e), id) { CallOkNext(s, e, id); }
  }

  lemma CallOkNext(s: Rpc, e: Step, id: nat)
    requires Inv(s) && Enabled(s, e)
    ensures CallOk(Next(s, e), id)
  {
    assert CallOk(s, id);
    match e
    case Put => PutOk(s, id);
    case Read(m) =>
    case _ =>
  }

  lemma PutOk(s: Rpc, id: nat)
    requires Inv(s) && Enabled(s, Put)
    ensures CallOk(Next(s, Put), id)
  {
    assert CallOk(s, id);
    if Holds(s, id) { assert s.calls[id].box + [s.held.value.1] == [s.held.value.1]; }
  }

  ghost predicate Possible(s: Rpc, es: seq<Step>)
    decreases |es|
  {
    es == [] || (Enabled(s, es[0]) && Possible(Next(s, es[0]), es[1..]))
  }

  ghost function End(s: Rpc, es: seq<Step>): Rpc
    requires Possible(s, es)
    decreases |es|
  {
    if es == [] then s else End(Next(s, es[0]), es[1..])
  }

  lemma {:induction false} InvRun(s: Rpc, es: seq<Step>)
    requires Inv(s) && Possible(s, es)
    ensures Inv(End(s, es))
    decreases |es|
  {
    if es != [] {
      InvNext(s, es[0]);
      InvRun(Next(s, es[0]), es[1..]);
    }
  }

  // ---------------------------------------------------------------- what follows in every reachable state

  /** The read loop's channel send never blocks, and no channel is ever sent to twice. */
  lemma PutNeverBlocks(es: seq<Step>)
    requires Possible(START, es)
    ensures var s := End(START, es);
      && (s.held.Some? ==> Enabled(s, Put))
      && (forall id | id in s.calls :: s.calls[id].puts <= 1)
  {
    InvRun(START, es);
    var s := End(START, es);
    forall id | id in s.calls ensures s.calls[id].puts <= 1 { assert CallOk(s, id); }
    if s.held.Some? { assert CallOk(s, s.held.value.0); }
  }

  /** A call that returns a message returns the response to itself. */
  lemma ReturnsOwnResponse(es: seq<Step>, id: nat)
    requires Possible(START, es)
    requires var s := End(START, es); id in s.calls && s.calls[id].phase.Returned? && s.calls[id].phase.r.Got?
    ensures var m := End(START, es).calls[id].phase.r.m; m.id == id && IsResponse(m)
  {
    InvRun(START, es);
    assert CallOk(End(START, es), id);
  }

  /** The answer to `id` is on its way: in the read loop's hands or in the channel. */
  predicate OnItsWay(s: Rpc, id: nat, m: Message) {
    s.held == Some((id, m)) || (id in s.calls && s.calls[id].box == [m])
  }

  /**
   A response is dropped only if its call is over or already has an answer on its way: a caller
   that is still waiting without one is always in the table, for it entered it before sending.
   */
  lemma NoAnswerIsDropped(es: seq<Step>, id: nat, m: Message)
    requires Possible(START, es) && m.id == id && IsResponse(m)
    requires var s := End(START, es); id in s.calls && Live(s.calls[id].phase) && Enabled(s, Read(m))
    ensures var s := End(START, es); var s' := Next(s, Read(m));
      if Takes(s, m) then OnItsWay(s', id, m) else s' == s && exists m' :: OnItsWay(s, id, m')
  {
    InvRun(START, es);
    var s := End(START, es);
    assert CallOk(s, id);
    if !Takes(s, m) { assert OnItsWay(s, id, s.calls[id].box[0]); }
  }

  /**
   Once on its way an answer stays on its way until its caller receives it, times out or is told the
   client closed.
   */
  lemma AnswerIsKept(s: Rpc, e: Step, id: nat, m: Message)
    requires Inv(s) && Enabled(s, e) && id in s.calls && Live(s.calls[id].phase) && OnItsWay(s, id, m)
    ensures var s' := Next(s, e);
      && id in s'.calls && (Live(s'.calls[id].phase) ==> OnItsWay(s', id, m))
      && (e == Receive(id) ==> s'.calls[id].phase == Returned(Got(m)))
      && (!Live(s'.calls[id].phase) ==> e in {Receive(id), Expire(id), Abort(id), SendFails(id)})
  {
    assert CallOk(s, id);
    if e.Put? {
      assert CallOk(s, s.held.value.0) && s.calls[s.held.value.0].box + [s.held.value.1] == [s.held.value.1];
    }
  }

  /** Two calls never share a number, so no call is ever renumbered or reopened. */
  lemma {:induction false} CallsArePermanent(s: Rpc, es: seq<Step>, id: nat)
    requires Inv(s) && Possible(s, es) && id in s.calls
    ensures id in End(s, es).calls
    ensures s.calls[id].phase.Returned? ==> End(s, es).calls[id].phase == s.calls[id].phase
    decreases |es|
  {
    if es != [] {
      assert CallOk(s, id);
      InvNext(s, es[0]);
      CallsArePermanent(Next(s, es[0]), es[1..], id);
    }
  }

  /** An answered, failed or timed-out call leaves nothing in the table; one that ended with the client may. */
  lemma TableEntriesAreLive(es: seq<Step>, id: nat)
    requires Possible(START, es)
    requires var s := End(START, es); id in s.calls && s.calls[id].phase.Returned? && s.calls[id].pending
    ensures End(START, es).calls[id].phase.r.ClientClosed? && End(START, es).done
  {
    InvRun(START, es);
    assert CallOk(End(START, es), id);
  }

  // ---------------------------------------------------------------- why a call came back

  /** What a call returns or is about to return. */
  function Why(s: Rpc, id: nat): Option<Return> {
    if id !in s.calls then None
    else match s.calls[id].phase
      case Leaving(why) => Some(why)
      case Returned(r) => Some(r)
      case _ => None
  }

  ghost predicate Reason(s: Rpc, id: nat, r: Return) { Why(s, id) == Some(r) }

  lemma WhyNext(s: Rpc, e: Step, id: nat)
    requires Inv(s) && Enabled(s, e)
    ensures var s' := Next(s, e);
      && (Reason(s', id, TimedOut) <==> Reason(s, id, TimedOut) || e == Expire(id))
      && (Reason(s', id, SendError) <==> Reason(s, id, SendError) || e == SendFails(id))
      && (Reason(s', id, ClientClosed) <==> Reason(s, id, ClientClosed) || e == Abort(id))
      && (s'.done <==> s.done || e.Close?)
      && (id in s'.calls <==> id in s.calls || (e.Number? && id == s.nextID + 1))
      && s'.nextID == s.nextID + if e.Number? then 1 else 0
  {
    assert CallOk(s, id);
  }

  /**
   A call times out, fails to be sent or ends with the client exactly if the run has the step that
   does so to it; the client is done exactly if it was closed.
   */
  lemma {:induction false} ReturnsForAReason(s: Rpc, es: seq<Step>, id: nat)
    requires Inv(s) && Possible(s, es)
    ensures var s' := End(s, es);
      && (Reason(s', id, TimedOut) <==> Reason(s, id, TimedOut) || Expire(id) in es)
      && (Reason(s', id, SendError) <==> Reason(s, id, SendError) || SendFails(id) in es)
      && (Reason(s', id, ClientClosed) <==> Reason(s, id, ClientClosed) || Abort(id) in es)
      && (s'.done <==> s.done || Close in es)
    decreases |es|
  {
    hide Inv, Next, Enabled, Reason;
    if es != [] {
      assert es == [es[0]] + es[1..];
      InvNext(s, es[0]);
      WhyNext(s, es[0], id);
      ReturnsForAReason(Next(s, es[0]), es[1..], id);
    }
  }

  function Numbers(es: seq<Step>): nat { if es == [] then 0 else (if es[0].Number? then 1 else 0) + Numbers(es[1..]) }

  /** Calls are numbered from 1 on, without a gap. */
  lemma {:induction false} NumberedInOrder(s: Rpc, es: seq<Step>, id: nat)
    requires Inv(s) && Possible(s, es)
    ensures var s' := End(s, es);
      && s'.nextID == s.nextID + Numbers(es)
      && (id in s'.calls <==> id in s.calls || s.nextID < id <= s'.nextID)
    decreases |es|
  {
    hide Inv, Next, Enabled;
    if es != [] {
      InvNext(s, es[0]);
      WhyNext(s, es[0], id);
      NumberedInOrder(Next(s, es[0]), es[1..], id);
    }
  }

  /** A message is held, boxed or returned only if the read loop has read it. */
  ghost predicate Around(s: Rpc, m: Message) {
    || (s.held.Some? && s.held.value.1 == m)
    || exists id :: id in s.calls && (m in s.calls[id].box || s.calls[id].phase == Returned(Got(m)))
  }

  lemma AroundNext(s: Rpc, e: Step, m: Message)
    requires Inv(s) && Enabled(s, e) && Around(Next(s, e), m)
    ensures Around(s, m) || e == Read(m)
  {
    var s' := Next(s, e);
    if !(s'.held.Some? && s'.held.value.1 == m) {
      var id :| id in s'.calls && (m in s'.calls[id].box || s'.calls[id].phase == Returned(Got(m)));
      assert CallOk(s, id);
      if id in s.calls && e == Receive(id) { assert s.calls[id].box[0] in s.calls[id].box; }
    }
  }

  /** What a call returns was read in the run. */
  lemma {:induction false} ReturnedWasRead(s: Rpc, es: seq<Step>, m: Message)
    requires Inv(s) && Possible(s, es) && Around(End(s, es), m)
    ensures Around(s, m) || Read(m) in es
    decreases |es|
  {
    hide Inv, Next, Enabled, Around;
    if es != [] {
      assert es == [es[0]] + es[1..];
      InvNext(s, es[0]);
      ReturnedWasRead(Next(s, es[0]), es[1..], m);
      if Around(Next(s, es[0]), m) { AroundNext(s, es[0], m); }
    }
  }

  /** Left alone, the read loop and the caller bring the first response to a waiting call home. */
  lemma AnswerComesHome(s: Rpc, id: nat, m: Message)
    requires Inv(s) && InPhase(s, id, Waiting) && s.calls[id].pending && s.held.None? && m.id == id && IsResponse(m)
    ensures Possible(s, [Read(m), Put, Receive(id)])
    ensures InPhase(End(s, [Read(m), Put, Receive(id)]), id, Returned(Got(m)))
  {
    assert CallOk(s, id);
    var s1 := Next(s, Read(m));
    assert Takes(s, m) && Enabled(s1, Put);
    var s2 := Next(s1, Put);
    assert s2.calls[id].box == [m] && Enabled(s2, Receive(id));
    var s3 := Next(s2, Receive(id));
    assert [Receive(id)][1..] == [] && Possible(s3, []) && End(s3, []) == s3;
    assert Possible(s2, [Receive(id)]) && End(s2, [Receive(id)]) == s3;
    assert [Put, Receive(id)][1..] == [Receive(id)];
    assert Possible(s1, [Put, Receive(id)]) && End(s1, [Put, Receive(id)]) == s3;
    assert [Read(m), Put, Receive(id)][1..] == [Put, Receive(id)];
  }
}

module RpcClient {
  import opened Common
  import opened RpcProtocol

  /** A channel with one slot. */
  class Channel {
    var box: seq<Message>

    constructor ()
      ensures box == []
    {
      box := [];
    }

    method Send(m: Message)
      requires box == []
      modifies this
      ensures box == [m]
    {
      box := [m];
    }

    method Take() returns (m: Message)
      requires box != []
      modifies this
      ensures m == old(box[0]) && box == old(box[1..])
    {
      m := box[0];
      box := box[1..];
    }
  }

  class Client {
    var nextID: nat
    var pending: map<nat, Channel>
    var done: bool
    /** The channel of each call, for as long as anyone can reach it. */
    ghost var channels: map<nat, Channel>
    ghost var Model: Rpc

    ghost predicate Valid()
      reads this, channels.Values
    {
      && Model.nextID == nextID && Model.done == done && Inv(Model)
      && (forall id | id in Model.calls && !Model.calls[id].phase.Numbered? :: id in channels)
      && (forall id | id in channels :: id in Model.calls && channels[id].box == Model.calls[id].box)
      && (forall i, j | i in channels && j in channels && i != j :: channels[i] != channels[j])
      && (forall id :: id in pending <==> id in Model.calls && Model.calls[id].pending)
      && (forall id | id in pending :: id in channels && pending[id] == channels[id])
    }

    constructor ()
      ensures Valid() && Model == START && channels == map[]
    {
      nextID, pending, done := 0, map[], false;
      channels, Model := map[], START;
    }

    /** The atomic counter. */
    method TakeNumber() returns (id: nat)
      requires Valid()
      modifies this`nextID, this`Model
      ensures Valid() && Model == Next(old(Model), Number) && id == Model.nextID
    {
      InvNext(Model, Number);
      assert CallOk(Model, nextID + 1);
      nextID := nextID + 1;
      id := nextID;
      Model := Next(Model, Number);
    }

    /** Makes the channel and enters it, under the lock. */
    method EnterChannel(id: nat) returns (ch: Channel)
      requires Valid() && Enabled(Model, Enter(id))
      modifies this`pending, this`channels, this`Model
      ensures Valid() && Model == Next(old(Model), Enter(id))
      ensures fresh(ch) && channels == old(channels)[id := ch]
    {
      InvNext(Model, Enter(id));
      assert CallOk(Model, id);
      ch := new Channel();
      pending := pending[id := ch];
      channels := channels[id := ch];
      Model := Next(Model, Enter(id));
    }

    /** The delete on the way out, after a failed send or a timeout. */
    method WithdrawCall(id: nat)
      requires Valid() && Enabled(Model, Withdraw(id))
      modifies this`pending, this`Model
      ensures Valid() && Model == Next(old(Model), Withdraw(id))
    {
      InvNext(Model, Withdraw(id));
      pending := pending - {id};
      Model := Next(Model, Withdraw(id));
    }

    /** The read loop's lock region: a response takes its channel out of the table. */
    method TakeChannel(m: Message) returns (ch: Channel?)
      requires Valid() && Enabled(Model, Read(m))
      modifies this`pending, this`Model
      ensures Valid() && Model == Next(old(Model), Read(m))
      ensures ch != null <==> Takes(old(Model), m)
      ensures ch != null ==> m.id in channels && ch == channels[m.id] && Model.held == Some((m.id, m))
    {
      InvNext(Model, Read(m));
      ch := null;
      if IsResponse(m) && m.id > 0 && m.id in pending {
        ch := pending[m.id];
        pending := pending - {m.id};
      }
      Model := Next(Model, Read(m));
    }

    /** The send that follows: the slot is always free. */
    method PutMessage(ch: Channel, m: Message)
      requires Valid() && m.id >= 0 && m.id in channels && ch == channels[m.id] && Model.held == Some((m.id, m))
      modifies this`Model, ch
      ensures Enabled(old(Model), Put)
      ensures Valid() && Model == Next(old(Model), Put)
    {
      assert CallOk(Model, m.id);
      InvNext(Model, Put);
      ch.Send(m);
      Model := Next(Model, Put);
    }

    /** The caller's receive. */
    method ReceiveResponse(id: nat, ch: Channel) returns (m: Message)
      requires Valid() && id in channels && ch == channels[id] && Enabled(Model, Receive(id))
      modifies this`Model, ch
      ensures Valid() && Model == Next(old(Model), Receive(id)) && m.id == id && IsResponse(m)
    {
      assert CallOk(Model, id);
      InvNext(Model, Receive(id));
      m := ch.Take();
      Model := Next(Model, Receive(id));
    }
  }
}
