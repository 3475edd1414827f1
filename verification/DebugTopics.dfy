/** One debug topic's channel, and the handler system that serves a main-domain topic. */
module DebugTopics {
  const MAX_PENDING := 16

  /** `typed` is whether the payload downcasts to the topic's request type. */
  datatype Request = Request(id: nat, generation: nat, typed: bool)

  datatype Answer = Value | HandlerError | InternalError | PluginUnavailable

  datatype Response = Response(id: nat, generation: nat, answer: Answer)

  /** How a handler call ends. */
  datatype HandlerEnd = Returns | Fails | Panics

  function Answering(r: Request, answer: Answer): Response { Response(r.id, r.generation, answer) }

  function Keys(requests: seq<Request>): (keys: seq<(nat, nat)>)
    ensures |keys| == |requests|
  {
    seq(|requests|, i requires 0 <= i < |requests| => (requests[i].id, requests[i].generation))
  }

  function AnswerKeys(responses: seq<Response>): (keys: seq<(nat, nat)>)
    ensures |keys| == |responses|
  {
    seq(|responses|, i requires 0 <= i < |responses| => (responses[i].id, responses[i].generation))
  }

  /** `pending` as the counter it is: nothing in the type keeps it from going below zero. */
  datatype Channel = Channel(inbox: seq<Request>, outbox: seq<Response>, pending: int)

  function Enqueued(c: Channel, r: Request): Channel
  {
    if c.pending >= MAX_PENDING then c else c.(inbox := c.inbox + [r], pending := c.pending + 1)
  }

  /** The answers to `queue` in order, what is left of it, and whether the run failed: a panic answers its own
      request and gives the rest back. */
  function Serve(queue: seq<Request>, ends: nat -> HandlerEnd, i: nat): (seq<Response>, seq<Request>, bool)
    decreases |queue|
  {
    if queue == [] then ([], [], false)
    else
      var r := queue[0];
      if r.typed && ends(i) == Panics then ([Answering(r, PluginUnavailable)], queue[1..], true)
      else
        var answer := if !r.typed then InternalError else if ends(i) == Returns then Value else HandlerError;
        var (answers, left, failed) := Serve(queue[1..], ends, i + 1);
        ([Answering(r, answer)] + answers, left, failed)
  }

  function Served(c: Channel, ends: nat -> HandlerEnd): Channel
  {
    var (answers, left, _) := Serve(c.inbox, ends, 0);
    Channel(left, c.outbox + answers, c.pending - |answers|)
  }

  function Unavailable(queue: seq<Request>): (answers: seq<Response>)
    ensures |answers| == |queue|
  {
    seq(|queue|, i requires 0 <= i < |queue| => Answering(queue[i], PluginUnavailable))
  }

  function Retired(c: Channel): Channel
  {
    Channel([], c.outbox + Unavailable(c.inbox), c.pending - |c.inbox|)
  }

  // The channel as it runs

  class DebugTopicChannel {
    var inbox: seq<Request>
    var outbox: seq<Response>
    var pending: int

    constructor ()
      ensures View() == Channel([], [], 0)
    {
      inbox, outbox, pending := [], [], 0;
    }

    function View(): Channel
      reads this
    {
      Channel(inbox, outbox, pending)
    }

    method Enqueue(r: Request) returns (accepted: bool)
      modifies this
      ensures View() == Enqueued(old(View()), r)
      ensures accepted == (old(pending) < MAX_PENDING)
    {
      if pending >= MAX_PENDING {
        return false;
      }
      inbox := inbox + [r];
      pending := pending + 1;
      return true;
    }

    method Push(response: Response)
      modifies this
      ensures View() == old(View()).(outbox := old(outbox) + [response], pending := old(pending) - 1)
    {
      outbox := outbox + [response];
      pending := pending - 1;
    }

    /** One run of the owner's handler system; `ends` says how its calls end. */
    method RunHandler(ends: nat -> HandlerEnd) returns (failed: bool)
      modifies this
      ensures View() == Served(old(View()), ends) && failed == Serve(old(inbox), ends, 0).2
    {
      var requests := inbox;
      inbox := [];
      ghost var start, c := outbox, old(View());
      var i := 0;
      while i < |requests|
        invariant i <= |requests| && inbox == [] && start <= outbox
        invariant pending == c.pending - (|outbox| - |start|)
        invariant var (answers, left, f) := Serve(requests, ends, 0);
          var (answers1, left1, f1) := Serve(requests[i..], ends, i);
          start + answers == outbox + answers1 && left == left1 && f == f1
      {
        var queued := requests[i];
        i := i + 1;
        assert requests[i - 1..][1..] == requests[i..];
        if queued.typed && ends(i - 1) == Panics {
          inbox := requests[i..] + inbox;
          Push(Answering(queued, PluginUnavailable));
          return true;
        }
        var answer := if !queued.typed then InternalError else if ends(i - 1) == Returns then Value else HandlerError;
        ghost var before, rest := outbox, Serve(requests[i..], ends, i).0;
        Push(Answering(queued, answer));
        assert before + ([Answering(queued, answer)] + rest) == outbox + rest;
      }
      return false;
    }

    /** The owner is retired: whatever is still queued is answered `plugin_unavailable`. */
    method FailPendingRequests()
      modifies this
      ensures View() == Retired(old(View()))
    {
      var queued := inbox;
      inbox := [];
      for i := 0 to |queued|
        invariant inbox == [] && pending == old(pending) - i
        invariant outbox == old(outbox) + Unavailable(queued[..i])
      {
        Push(Answering(queued[i], PluginUnavailable));
        assert Unavailable(queued[..i + 1]) == Unavailable(queued[..i]) + [Answering(queued[i], PluginUnavailable)];
      }
      assert queued[..|queued|] == queued;
    }
  }

  // Runs

  datatype Op = Enqueue(request: Request) | Run(ends: nat -> HandlerEnd) | Retire | Write

  /** The channel, every request accepted so far, and every response written to the wire so far. */
  datatype Topic = Topic(channel: Channel, accepted: seq<Request>, written: seq<Response>)

  function Step(t: Topic, op: Op): Topic
  {
    var c := t.channel;
    match op
    case Enqueue(r) =>
      t.(channel := Enqueued(c, r), accepted := if c.pending >= MAX_PENDING then t.accepted else t.accepted + [r])
    case Run(ends) => t.(channel := Served(c, ends))
    case Retire => t.(channel := Retired(c))
    case Write => t.(channel := c.(outbox := []), written := t.written + c.outbox)
  }

  function After(ops: seq<Op>): Topic
    decreases |ops|
  {
    if ops == [] then Topic(Channel([], [], 0), [], []) else Step(After(ops[..|ops| - 1]), ops[|ops| - 1])
  }

  lemma {:induction false} ServeKeepsOrder(queue: seq<Request>, ends: nat -> HandlerEnd, i: nat)
    ensures var (answers, left, failed) := Serve(queue, ends, i);
      Keys(queue) == AnswerKeys(answers) + Keys(left) && (!failed ==> left == [])
    decreases |queue|
  {
    if queue != [] {
      ServeKeepsOrder(queue[1..], ends, i + 1);
      assert Keys(queue) == [(queue[0].id, queue[0].generation)] + Keys(queue[1..]);
    }
  }

  predicate Stops(q: Request, end: HandlerEnd) { q.typed && end == HandlerEnd.Panics }

  /** The one answer a request gets: its value exactly when it has the topic's type and its handler returned, the
      handler's error when that failed, an internal error when the type is wrong, unavailable when it panicked. */
  predicate RightAnswer(q: Request, a: Response, end: HandlerEnd)
  {
    && a.id == q.id && a.generation == q.generation
    && (a.answer == Value <==> q.typed && end == Returns)
    && (a.answer == HandlerError <==> q.typed && end == Fails)
    && (a.answer == InternalError <==> !q.typed)
    && (a.answer == PluginUnavailable <==> Stops(q, end))
  }

  /** A run answers the queue from the front, each request rightly, up to and including the first whose handler
      panics; the rest stays queued, and the run fails exactly when there was such a one. */
  lemma {:induction false} ServeAnswers(queue: seq<Request>, ends: nat -> HandlerEnd, i: nat)
    ensures var (answers, left, failed) := Serve(queue, ends, i);
      && |answers| <= |queue| && left == queue[|answers|..]
      && (forall k: nat :: k < |answers| ==> RightAnswer(queue[k], answers[k], ends(i + k)))
      && (forall k: nat :: k < |answers| - 1 ==> !Stops(queue[k], ends(i + k)))
      && (failed <==> answers != [] && Stops(queue[|answers| - 1], ends(i + (|answers| - 1))))
      && (!failed ==> |answers| == |queue|)
    decreases |queue|
  {
    hide RightAnswer, Stops, Serve;
    if queue == [] {
      NothingServed(ends, i);
    } else {
      FirstAnswer(queue, ends, i);
      if !Stops(queue[0], ends(i)) {
        ServeAnswers(queue[1..], ends, i + 1);
        var (answers, left, failed) := Serve(queue[1..], ends, i + 1);
        var all := Serve(queue, ends, i).0;
        forall k: nat | k < |all| ensures RightAnswer(queue[k], all[k], ends(i + k)) {
          if k > 0 {
            assert RightAnswer(queue[1..][k - 1], answers[k - 1], ends(i + 1 + (k - 1)));
          }
        }
        forall k: nat | k < |all| - 1 ensures !Stops(queue[k], ends(i + k)) {
          if k > 0 {
            assert !Stops(queue[1..][k - 1], ends(i + 1 + (k - 1)));
          }
        }
        if answers != [] {
          assert queue[1..][|answers| - 1] == queue[|all| - 1] && i + 1 + (|answers| - 1) == i + (|all| - 1);
        }
      }
    }
  }

  lemma NothingServed(ends: nat -> HandlerEnd, i: nat)
    ensures Serve([], ends, i) == ([], [], false)
  {
  }

  lemma FirstAnswer(queue: seq<Request>, ends: nat -> HandlerEnd, i: nat)
    requires queue != []
    ensures var (answers, left, failed) := Serve(queue, ends, i);
      && answers != [] && RightAnswer(queue[0], answers[0], ends(i + 0))
      && if Stops(queue[0], ends(i)) then |answers| == 1 && left == queue[1..] && failed
         else answers[1..] == Serve(queue[1..], ends, i + 1).0 && left == Serve(queue[1..], ends, i + 1).1
              && failed == Serve(queue[1..], ends, i + 1).2
  {
  }

  /** A retirement answers everything queued, in order, as unavailable. */
  lemma RetirementAnswers(c: Channel)
    ensures var r := Retired(c);
      && r.inbox == [] && |r.outbox| == |c.outbox| + |c.inbox| && r.outbox[..|c.outbox|] == c.outbox
      && forall k: nat :: k < |c.inbox| ==>
           r.outbox[|c.outbox| + k] == Response(c.inbox[k].id, c.inbox[k].generation, PluginUnavailable)
  {
  }

  /** After any sequence of enqueues, handler runs, panics, retirements and writes, the requests accepted are those
      answered, in order, followed by those queued; `pending` counts the queue and stays within its bound. */
  lemma {:induction false} FifoConserved(ops: seq<Op>)
    ensures var t := After(ops);
      && Keys(t.accepted) == AnswerKeys(t.written + t.channel.outbox) + Keys(t.channel.inbox)
      && t.channel.pending == |t.channel.inbox| <= MAX_PENDING
    decreases |ops|
  {
    if ops != [] {
      var before, op := After(ops[..|ops| - 1]), ops[|ops| - 1];
      FifoConserved(ops[..|ops| - 1]);
      StepConserves(before, op);
    }
  }

  lemma StepConserves(t: Topic, op: Op)
    requires Keys(t.accepted) == AnswerKeys(t.written + t.channel.outbox) + Keys(t.channel.inbox)
    requires t.channel.pending == |t.channel.inbox| <= MAX_PENDING
    ensures var t1 := Step(t, op);
      && Keys(t1.accepted) == AnswerKeys(t1.written + t1.channel.outbox) + Keys(t1.channel.inbox)
      && t1.channel.pending == |t1.channel.inbox| <= MAX_PENDING
  {
    hide Keys, AnswerKeys, Serve, Unavailable;
    var c, done := t.channel, t.written + t.channel.outbox;
    match op
    case Enqueue(r) =>
      KeysAppend(t.accepted, [r]);
      KeysAppend(c.inbox, [r]);
    case Run(ends) =>
      ServeKeepsOrder(c.inbox, ends, 0);
      var answers := Serve(c.inbox, ends, 0).0;
      AnswerKeysAppend(done, answers);
      assert t.written + (c.outbox + answers) == done + answers;
    case Retire =>
      UnavailableKeys(c.inbox);
      AnswerKeysAppend(done, Unavailable(c.inbox));
      assert t.written + (c.outbox + Unavailable(c.inbox)) == done + Unavailable(c.inbox);
    case Write =>
      assert t.written + c.outbox + [] == done;
  }

  lemma KeysAppend(a: seq<Request>, b: seq<Request>)
    ensures Keys(a + b) == Keys(a) + Keys(b)
  {
  }

  lemma AnswerKeysAppend(a: seq<Response>, b: seq<Response>)
    ensures AnswerKeys(a + b) == AnswerKeys(a) + AnswerKeys(b)
  {
  }

  lemma UnavailableKeys(queue: seq<Request>)
    ensures AnswerKeys(Unavailable(queue)) == Keys(queue) && Keys([]) == []
  {
  }

  /** After a retirement every request ever accepted has been answered. */
  lemma RetirementAnswersAll(ops: seq<Op>)
    ensures var t := After(ops + [Retire]); Keys(t.accepted) == AnswerKeys(t.written + t.channel.outbox)
  {
    FifoConserved(ops + [Retire]);
    assert (ops + [Retire])[..|ops|] == ops;
    UnavailableKeys([]);
  }
}
