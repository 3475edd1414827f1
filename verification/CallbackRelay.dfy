/** The relay between a topic's channel and a hook callback, through two one-value slots. */
module CallbackRelay {
  import opened Options
  import opened DebugTopics

  /** A handled request on its way back, with what its handler answered and the number of requests lost before it. */
  datatype Reply = Reply(request: Request, answer: Answer, lostBefore: nat)

  /** The response the wire gets, next to the request the callback had handled. */
  datatype Collected = Collected(response: Response, reply: Reply)

  /** Where a response in the outbox comes from. */
  datatype Source = Callback | Mismatch | Retirement

  /** What happened: the requests accepted, given to the callback, refused for their type and unserved at a
      retirement; the responses collected; the requests lost; the responses written out, and of those and the
      outbox, where each comes from. */
  datatype History = History(
    accepted: seq<Request>, delivered: seq<Request>, mismatched: seq<Request>, unserved: seq<Request>,
    collected: seq<Collected>, lost: nat, written: seq<Response>, sources: seq<Source>)

  /** What the relay, the endpoints and the channel hold, and the history. */
  datatype Relay = Relay(
    channel: Channel, request: Option<Request>, reply: Option<Reply>, inFlight: seq<Request>, log: History)

  function Delivered(r: Relay): Relay
  {
    var c := r.channel;
    if r.request.Some? || c.inbox == [] then r
    else
      var queued := c.inbox[0];
      if queued.typed then
        r.(channel := c.(inbox := c.inbox[1..]), request := Some(queued),
           inFlight := r.inFlight + [queued], log := r.log.(delivered := r.log.delivered + [queued]))
      else
        r.(channel := Channel(c.inbox[1..], c.outbox + [Answering(queued, InternalError)], c.pending - 1),
           log := r.log.(mismatched := r.log.mismatched + [queued], sources := r.log.sources + [Mismatch]))
  }

  function CollectedOne(r: Relay): Relay
  {
    if r.reply.None? then r
    else if r.inFlight == [] then r.(reply := None)
    else
      var response := Answering(r.inFlight[0], r.reply.value.answer);
      r.(reply := None, inFlight := r.inFlight[1..],
         channel := r.channel.(outbox := r.channel.outbox + [response], pending := r.channel.pending - 1),
         log := r.log.(collected := r.log.collected + [Collected(response, r.reply.value)], sources := r.log.sources + [Callback]))
  }

  /** One relay run: deliver when the request slot is free, then collect. */
  function Relayed(r: Relay): Relay { CollectedOne(Delivered(r)) }

  /** How a hook entry with a request ends: the answer stored, dropped on a contended slot, or never made. */
  datatype EntryEnd = Stores(answer: Answer) | Drops | Panics

  /** One hook entry. Without a stored response the request is lost. */
  function Entered(r: Relay, end: EntryEnd): Relay
  {
    if r.request.None? then r
    else if !end.Stores? then r.(request := None, log := r.log.(lost := r.log.lost + 1))
    else r.(request := None, reply := Some(Reply(r.request.value, end.answer, r.log.lost)))
  }

  // The objects

  class CallbackRelaySystem {
    const channel: DebugTopicChannel
    var request: Option<Request>
    var reply: Option<(Request, Answer)>
    var inFlight: seq<Request>
    ghost var log: History
    ghost var lostBefore: nat

    constructor (channel: DebugTopicChannel)
      ensures this.channel == channel
      ensures View() == Relay(channel.View(), None, None, [], History([], [], [], [], [], 0, [], []))
    {
      this.channel := channel;
      request, reply, inFlight := None, None, [];
      log, lostBefore := History([], [], [], [], [], 0, [], []), 0;
    }

    ghost function View(): Relay
      reads this, channel
    {
      Relay(channel.View(), request, if reply.Some? then Some(Reply(reply.value.0, reply.value.1, lostBefore)) else None,
            inFlight, log)
    }

    method Deliver()
      modifies this, channel
      ensures View() == Delivered(old(View()))
      ensures old(request).Some? || old(channel.inbox) == [] ==> View() == old(View())
    {
      if request.Some? || channel.inbox == [] {
        return;
      }
      var queued := channel.inbox[0];
      channel.inbox := channel.inbox[1..];
      if queued.typed {
        request := Some(queued);
        inFlight := inFlight + [queued];
        log := log.(delivered := log.delivered + [queued]);
      } else {
        channel.Push(Answering(queued, InternalError));
        log := log.(mismatched := log.mismatched + [queued], sources := log.sources + [Mismatch]);
      }
    }

    /** Takes responses until the slot is empty, pairing each with the oldest delivered request. */
    method Collect()
      modifies this, channel
      ensures View() == CollectedOne(old(View()))
    {
      while reply.Some?
        invariant View() == old(View()) || (reply == None && View() == CollectedOne(old(View())))
        decreases if reply.Some? then 1 else 0
      {
        var taken := reply.value;
        reply := None;
        if inFlight == [] {
          break;
        }
        var oldest := inFlight[0];
        inFlight := inFlight[1..];
        channel.Push(Answering(oldest, taken.1));
        log := log.(collected := log.collected + [Collected(Answering(oldest, taken.1), Reply(taken.0, taken.1, lostBefore))],
                    sources := log.sources + [Callback]);
      }
    }

    method RunRelay()
      modifies this, channel
      ensures View() == Relayed(old(View()))
    {
      Deliver();
      Collect();
    }

    /** The callback side: at most one request per entry. */
    method HandlePending(end: EntryEnd) returns (handled: bool)
      modifies this
      ensures View() == Entered(old(View()), end)
      ensures handled == (old(request).Some? && end != EntryEnd.Panics)
      ensures request == None
      ensures old(request).Some? && end.Stores? ==> reply == Some((old(request).value, end.answer))
      ensures old(request).None? || !end.Stores? ==> reply == old(reply)
    {
      if request.None? {
        return false;
      }
      var taken := request.value;
      request := None;
      if !end.Stores? {
        log := log.(lost := log.lost + 1);
        return end == Drops;
      }
      reply := Some((taken, end.answer));
      lostBefore := log.lost;
      return true;
    }
  }

  // Runs

  datatype Op = Submit(request: Request) | RunRelay | Entry(end: EntryEnd) | Retire | Write

  function Step(r: Relay, op: Op): Relay
  {
    match op
    case Submit(q) =>
      r.(channel := Enqueued(r.channel, q),
         log := if r.channel.pending >= MAX_PENDING then r.log else r.log.(accepted := r.log.accepted + [q]))
    case RunRelay => Relayed(r)
    case Entry(end) => Entered(r, end)
    case Retire =>
      r.(channel := Retired(r.channel),
         log := r.log.(unserved := r.log.unserved + r.channel.inbox, sources := r.log.sources + Retirements(|r.channel.inbox|)))
    case Write => r.(channel := r.channel.(outbox := []), log := r.log.(written := r.log.written + r.channel.outbox))
  }

  function Retirements(n: nat): (r: seq<Source>)
    ensures |r| == n && forall k :: 0 <= k < n ==> r[k] == Retirement
  {
    seq(n, _ => Retirement)
  }

  function After(ops: seq<Op>): Relay
    decreases |ops|
  {
    if ops == [] then Relay(Channel([], [], 0), None, None, [], History([], [], [], [], [], 0, [], []))
    else Step(After(ops[..|ops| - 1]), ops[|ops| - 1])
  }

  function Count<T>(o: Option<T>): nat { if o.Some? then 1 else 0 }

  /** The `i`-th response carries the key of the `i`-th delivered request and answers the one `lostBefore` later. */
  predicate PairedAt(r: Relay, i: nat)
    requires i < |r.log.collected|
  {
    var got := r.log.collected[i];
    && i + got.reply.lostBefore < |r.log.delivered| && got.reply.lostBefore <= r.log.lost
    && (got.response.id, got.response.generation) == (r.log.delivered[i].id, r.log.delivered[i].generation)
    && got.reply.request == r.log.delivered[i + got.reply.lostBefore] && got.response.answer == got.reply.answer
  }

  predicate Inv(r: Relay)
  {
    && r.channel.pending == |r.channel.inbox| + |r.inFlight| && r.channel.pending <= MAX_PENDING
    && |r.log.collected| + Count(r.reply) + Count(r.request) + r.log.lost == |r.log.delivered|
    && r.inFlight == r.log.delivered[|r.log.collected|..]
    && Count(r.request) + Count(r.reply) <= 1
    && (r.request.Some? ==> r.request.value == r.log.delivered[|r.log.delivered| - 1])
    && (r.reply.Some? ==> ReplyOk(r, r.reply.value))
    && forall i :: 0 <= i < |r.log.collected| ==> PairedAt(r, i)
  }

  predicate ReplyOk(r: Relay, reply: Reply)
  {
    && reply.lostBefore <= r.log.lost && |r.log.collected| + reply.lostBefore < |r.log.delivered|
    && reply.request == r.log.delivered[|r.log.collected| + reply.lostBefore]
  }

  lemma DeliverKeeps(r: Relay)
    requires Inv(r)
    ensures var r1 := Delivered(r);
      && r1.channel.pending == |r1.channel.inbox| + |r1.inFlight| && r1.channel.pending <= MAX_PENDING
      && |r1.log.collected| + Count(r1.reply) + Count(r1.request) + r1.log.lost == |r1.log.delivered|
      && r1.inFlight == r1.log.delivered[|r1.log.collected|..]
      && (r1.request.Some? ==> r1.request.value == r1.log.delivered[|r1.log.delivered| - 1])
      && (r1.reply.Some? ==> ReplyOk(r1, r1.reply.value))
      && forall i :: 0 <= i < |r1.log.collected| ==> PairedAt(r1, i)
  {
    var r1 := Delivered(r);
    forall i | 0 <= i < |r1.log.collected| ensures PairedAt(r1, i) {
      assert PairedAt(r, i);
    }
  }

  lemma RelayKeeps(r: Relay)
    requires Inv(r)
    ensures Inv(Relayed(r))
  {
    hide PairedAt, Delivered;
    DeliverKeeps(r);
    var d := Delivered(r);
    var r1 := Relayed(r);
    if d.reply.Some? {
      assert d.inFlight != [];
      PairsLast(d);
    }
  }

  lemma PairsLast(d: Relay)
    requires d.reply.Some? && d.inFlight != [] && |d.log.collected| <= |d.log.delivered| && d.inFlight == d.log.delivered[|d.log.collected|..]
    requires ReplyOk(d, d.reply.value)
    requires forall i :: 0 <= i < |d.log.collected| ==> PairedAt(d, i)
    ensures var r1 := CollectedOne(d); forall i :: 0 <= i < |r1.log.collected| ==> PairedAt(r1, i)
  {
    var r1 := CollectedOne(d);
    forall i | 0 <= i < |r1.log.collected| ensures PairedAt(r1, i) {
      if i < |d.log.collected| {
        assert PairedAt(d, i);
      } else {
        assert d.inFlight[0] == d.log.delivered[|d.log.collected|];
      }
    }
  }

  lemma StepKeeps(r: Relay, op: Op)
    requires Inv(r)
    ensures Inv(Step(r, op))
  {
    match op
    case RunRelay => RelayKeeps(r);
    case _ =>
      var r1 := Step(r, op);
      forall i | 0 <= i < |r1.log.collected| ensures PairedAt(r1, i) {
        assert PairedAt(r, i);
      }
  }

  lemma {:induction false} RunKeeps(ops: seq<Op>)
    ensures Inv(After(ops))
    decreases |ops|
  {
    hide Step, Inv;
    if ops == [] {
      Starts();
    } else {
      RunKeeps(ops[..|ops| - 1]);
      StepKeeps(After(ops[..|ops| - 1]), ops[|ops| - 1]);
    }
  }

  lemma Starts()
    ensures Inv(After([]))
  {
  }

  /** In every run the counter is the queue plus what is in flight and never exceeds its bound, at most one slot
      is set, and what is in flight beyond the slots is exactly what callbacks have lost. */
  lemma {:induction false} RelayCounts(ops: seq<Op>)
    ensures var r := After(ops);
      && r.channel.pending == |r.channel.inbox| + |r.inFlight| <= MAX_PENDING
      && |r.inFlight| == Count(r.request) + Count(r.reply) + r.log.lost
      && Count(r.request) + Count(r.reply) <= 1
  {
    RunKeeps(ops);
  }

  /** The response collected as number `i` reports delivered request `i` and answers the one as many places later
      as requests had been lost before it was handled: it reports its own request exactly when none had been. */
  lemma {:induction false} RelayPairing(ops: seq<Op>, i: nat)
    requires i < |After(ops).log.collected|
    ensures var r := After(ops);
      var got := r.log.collected[i];
      var answered := i + got.reply.lostBefore;
      && answered < |r.log.delivered| && got.reply.request == r.log.delivered[answered]
      && (got.response.id, got.response.generation) == (r.log.delivered[i].id, r.log.delivered[i].generation)
      && got.response.answer == got.reply.answer && got.reply.lostBefore <= r.log.lost
      && (answered == i <==> got.reply.lostBefore == 0)
  {
    hide After;
    RunKeeps(ops);
    assert PairedAt(After(ops), i);
  }

  /** One lost request is enough for the next response to carry its key, and sixteen close the topic for good. */
  lemma LossMispairs(first: Request, second: Request, answer: Answer)
    requires first.typed && second.typed
    ensures var r := After([Submit(first), RunRelay, Entry(EntryEnd.Panics), Submit(second), RunRelay, Entry(Stores(answer)), RunRelay]);
      && |r.log.collected| == 1 && r.log.collected[0].reply.request == second
      && r.log.collected[0].response == Answering(first, answer)
      && r.inFlight == [second] && r.channel.pending == 1
  {
    var ops := [Submit(first), RunRelay, Entry(EntryEnd.Panics), Submit(second), RunRelay, Entry(Stores(answer)), RunRelay];
    var r0 := After([]);
    var r1, r2 := Step(r0, ops[0]), Step(Step(r0, ops[0]), ops[1]);
    var r3 := Step(r2, ops[2]);
    var r4 := Step(r3, ops[3]);
    var r5 := Step(r4, ops[4]);
    var r6 := Step(r5, ops[5]);
    assert After(ops[..1]) == r1 by { assert ops[..1][..0] == []; }
    assert After(ops[..2]) == r2 by { assert ops[..2][..1] == ops[..1]; }
    assert After(ops[..3]) == r3 by { assert ops[..3][..2] == ops[..2]; }
    assert After(ops[..4]) == r4 by { assert ops[..4][..3] == ops[..3]; }
    assert After(ops[..5]) == r5 by { assert ops[..5][..4] == ops[..4]; }
    assert After(ops[..6]) == r6 by { assert ops[..6][..5] == ops[..5]; }
    assert After(ops) == Step(r6, ops[6]) by { assert ops[..7] == ops; }
  }

  lemma {:induction false} LossesCloseTopic(ops: seq<Op>, q: Request)
    ensures var r := After(ops); r.log.lost >= MAX_PENDING ==> Step(r, Submit(q)) == r && r.log.lost == MAX_PENDING
  {
    RelayCounts(ops);
  }

  // What goes out

  /** The responses that come from `source`, in order. */
  function Pick(responses: seq<Response>, sources: seq<Source>, source: Source): seq<Response>
    requires |responses| == |sources|
    decreases |responses|
  {
    if responses == [] then []
    else
      var n := |responses| - 1;
      Pick(responses[..n], sources[..n], source) + (if sources[n] == source then [responses[n]] else [])
  }

  function Responses(collected: seq<Collected>): (r: seq<Response>)
    ensures |r| == |collected| && forall k :: 0 <= k < |r| ==> r[k] == collected[k].response
  {
    seq(|collected|, k requires 0 <= k < |collected| => collected[k].response)
  }

  function Answerings(requests: seq<Request>, answer: Answer): (r: seq<Response>)
    ensures |r| == |requests|
    ensures forall k :: 0 <= k < |r| ==> r[k] == Response(requests[k].id, requests[k].generation, answer)
  {
    seq(|requests|, k requires 0 <= k < |requests| => Response(requests[k].id, requests[k].generation, answer))
  }

  function Out(r: Relay): seq<Response> { r.log.written + r.channel.outbox }

  predicate OutOk(r: Relay)
  {
    && |r.log.sources| == |Out(r)|
    && Pick(Out(r), r.log.sources, Callback) == Responses(r.log.collected)
    && Pick(Out(r), r.log.sources, Mismatch) == Answerings(r.log.mismatched, InternalError)
    && Pick(Out(r), r.log.sources, Retirement) == Answerings(r.log.unserved, PluginUnavailable)
    && (forall k :: 0 <= k < |r.log.mismatched| ==> !r.log.mismatched[k].typed)
    && (forall k :: 0 <= k < |r.log.delivered| ==> r.log.delivered[k].typed)
  }

  predicate AllThere(r: Relay)
  {
    multiset(r.log.accepted) ==
    multiset(r.log.delivered) + multiset(r.log.mismatched) + multiset(r.log.unserved) + multiset(r.channel.inbox)
  }

  lemma {:induction false} PickAppend(a: seq<Response>, s: seq<Source>, b: seq<Response>, t: seq<Source>, source: Source)
    requires |a| == |s| && |b| == |t|
    ensures Pick(a + b, s + t, source) == Pick(a, s, source) + Pick(b, t, source)
    decreases |b|
  {
    if b == [] {
      assert a + b == a && s + t == s;
    } else {
      var n := |b| - 1;
      assert (a + b)[..|a + b| - 1] == a + b[..n] && (s + t)[..|s + t| - 1] == s + t[..n];
      PickAppend(a, s, b[..n], t[..n], source);
    }
  }

  lemma {:induction false} PickAll(b: seq<Response>, t: seq<Source>, of: Source, source: Source)
    requires |b| == |t| && forall k :: 0 <= k < |t| ==> t[k] == of
    ensures Pick(b, t, source) == if source == of then b else []
    decreases |b|
  {
    if b != [] {
      PickAll(b[..|b| - 1], t[..|b| - 1], of, source);
    }
  }

  /** One step sends `added`, all from one source. */
  lemma PickAdded(out: seq<Response>, sources: seq<Source>, added: seq<Response>, more: seq<Source>, of: Source)
    requires |out| == |sources| && |added| == |more| && forall k :: 0 <= k < |more| ==> more[k] == of
    ensures forall source: Source ::
      Pick(out + added, sources + more, source) == Pick(out, sources, source) + (if source == of then added else [])
  {
    forall source: Source
      ensures Pick(out + added, sources + more, source) == Pick(out, sources, source) + (if source == of then added else [])
    {
      PickAppend(out, sources, added, more, source);
      PickAll(added, more, of, source);
    }
  }

  lemma DeliverSends(r: Relay)
    requires OutOk(r) && AllThere(r)
    ensures OutOk(Delivered(r)) && AllThere(Delivered(r))
  {
    hide Pick;
    var r1, c := Delivered(r), r.channel;
    if r.request.None? && c.inbox != [] {
      assert c.inbox == [c.inbox[0]] + c.inbox[1..];
      if !c.inbox[0].typed {
        var added := [Answering(c.inbox[0], InternalError)];
        PickAdded(Out(r), r.log.sources, added, [Mismatch], Mismatch);
        assert Out(r1) == Out(r) + added;
        assert Answerings(r1.log.mismatched, InternalError) == Answerings(r.log.mismatched, InternalError) + added;
      }
    }
  }

  lemma CollectSends(r: Relay)
    requires OutOk(r) && AllThere(r)
    ensures OutOk(CollectedOne(r)) && AllThere(CollectedOne(r))
  {
    hide Pick;
    var r1 := CollectedOne(r);
    if r.reply.Some? && r.inFlight != [] {
      var added := [Answering(r.inFlight[0], r.reply.value.answer)];
      PickAdded(Out(r), r.log.sources, added, [Callback], Callback);
      assert Out(r1) == Out(r) + added;
      assert Responses(r1.log.collected) == Responses(r.log.collected) + added;
    }
  }

  lemma RetireSends(r: Relay)
    requires OutOk(r) && AllThere(r)
    ensures OutOk(Step(r, Op.Retire)) && AllThere(Step(r, Op.Retire))
  {
    hide Pick;
    var r1 := Step(r, Op.Retire);
    var added, more := Unavailable(r.channel.inbox), Retirements(|r.channel.inbox|);
    PickAdded(Out(r), r.log.sources, added, more, Retirement);
    assert Out(r1) == Out(r) + added;
    assert Answerings(r1.log.unserved, PluginUnavailable) == Answerings(r.log.unserved, PluginUnavailable) + added;
  }

  lemma SubmitSends(r: Relay, q: Request)
    requires OutOk(r) && AllThere(r)
    ensures OutOk(Step(r, Submit(q))) && AllThere(Step(r, Submit(q)))
  {
    hide Pick;
    assert Out(Step(r, Submit(q))) == Out(r);
  }

  lemma EntrySends(r: Relay, end: EntryEnd)
    requires OutOk(r) && AllThere(r)
    ensures OutOk(Step(r, Entry(end))) && AllThere(Step(r, Entry(end)))
  {
    hide Pick;
    assert Out(Step(r, Entry(end))) == Out(r);
  }

  lemma WriteSends(r: Relay)
    requires OutOk(r) && AllThere(r)
    ensures OutOk(Step(r, Op.Write)) && AllThere(Step(r, Op.Write))
  {
    hide Pick;
    assert Out(Step(r, Op.Write)) == Out(r);
  }

  lemma StepSends(r: Relay, op: Op)
    requires OutOk(r) && AllThere(r)
    ensures OutOk(Step(r, op)) && AllThere(Step(r, op))
  {
    hide OutOk, AllThere, Delivered, CollectedOne;
    match op
    case RunRelay =>
      DeliverSends(r);
      CollectSends(Delivered(r));
    case Retire => RetireSends(r);
    case Submit(q) => SubmitSends(r, q);
    case Entry(end) => EntrySends(r, end);
    case Write => WriteSends(r);
  }

  /** In every run: what has been written and what is in the outbox are, in order and with nothing else between, the
      collected responses, an internal error for every request of the wrong type, and an unavailable for every request
      a retirement found queued; and every request accepted was delivered, refused for its type, unserved, or is queued. */
  lemma {:induction false} RelaySends(ops: seq<Op>)
    ensures var r := After(ops);
      && |r.log.sources| == |Out(r)|
      && Pick(Out(r), r.log.sources, Callback) == Responses(r.log.collected)
      && Pick(Out(r), r.log.sources, Mismatch) == Answerings(r.log.mismatched, InternalError)
      && Pick(Out(r), r.log.sources, Retirement) == Answerings(r.log.unserved, PluginUnavailable)
      && (forall k :: 0 <= k < |r.log.mismatched| ==> !r.log.mismatched[k].typed)
      && (forall k :: 0 <= k < |r.log.delivered| ==> r.log.delivered[k].typed)
      && multiset(r.log.accepted) ==
         multiset(r.log.delivered) + multiset(r.log.mismatched) + multiset(r.log.unserved) + multiset(r.channel.inbox)
  {
    RunSends(ops);
  }

  lemma {:induction false} RunSends(ops: seq<Op>)
    ensures OutOk(After(ops)) && AllThere(After(ops))
    decreases |ops|
  {
    hide Step, OutOk, AllThere;
    if ops == [] {
      NothingSent();
    } else {
      RunSends(ops[..|ops| - 1]);
      StepSends(After(ops[..|ops| - 1]), ops[|ops| - 1]);
    }
  }

  lemma NothingSent()
    ensures OutOk(After([])) && AllThere(After([]))
  {
  }

  /** One relay run, whatever the relay holds: it takes at most one request, and only into a free slot; a wrong type is
      answered at once, before the waiting reply, which goes out under the key of the oldest request in flight. */
  lemma RelayRun(r: Relay)
    ensures var r1 := Relayed(r);
      var takes := r.request.None? && r.channel.inbox != [];
      var typed := takes && r.channel.inbox[0].typed;
      var flying := if typed then r.inFlight + [r.channel.inbox[0]] else r.inFlight;
      var replies := r.reply.Some? && flying != [];
      && r1.request == (if typed then Some(r.channel.inbox[0]) else r.request) && r1.reply == None
      && r1.channel.inbox == (if takes then r.channel.inbox[1..] else r.channel.inbox)
      && r1.inFlight == (if replies then flying[1..] else flying)
      && r1.channel.outbox == r.channel.outbox
           + (if takes && !typed then [Response(r.channel.inbox[0].id, r.channel.inbox[0].generation, InternalError)] else [])
           + (if replies then [Response(flying[0].id, flying[0].generation, r.reply.value.answer)] else [])
      && r1.channel.pending == r.channel.pending - (|r1.channel.outbox| - |r.channel.outbox|)
  {
  }

  /** A request that meets an idle relay and an attentive callback is answered with its own key and its handler's answer. */
  lemma RequestAnswered(q: Request, answer: Answer)
    ensures var r := After([Submit(q), RunRelay, Entry(Stores(answer)), RunRelay]);
      && r.channel.outbox == [Response(q.id, q.generation, if q.typed then answer else InternalError)]
      && r.channel.pending == 0 && r.channel.inbox == [] && r.inFlight == [] && r.log.lost == 0
  {
    var ops := [Submit(q), RunRelay, Entry(Stores(answer)), RunRelay];
    var r0 := After([]);
    var r1 := Step(r0, ops[0]);
    var r2 := Step(r1, ops[1]);
    var r3 := Step(r2, ops[2]);
    assert After(ops[..1]) == r1 by { assert ops[..1][..0] == []; }
    assert After(ops[..2]) == r2 by { assert ops[..2][..1] == ops[..1]; }
    assert After(ops[..3]) == r3 by { assert ops[..3][..2] == ops[..2]; }
    assert After(ops) == Step(r3, ops[3]) by { assert ops[..4] == ops; }
  }
}
