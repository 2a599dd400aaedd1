/** The gateway's request handler after admission: how each way an upstream exchange can end sets the
    logged status and error, moves the gauges, and gives the permit back in a finally block. */
module GatewayHandler {
  import opened Admission
  import opened AdmissionClasses

  /** What the upstream does with a plain POST, as far as the handler tells it apart. */
  datatype PostReply = Answered(code: nat) | PostTimedOut | PostUnreachable

  /** How an iterated stream ends, as far as the handler tells it apart: an error status (of at least 400), one
      of the two upstream failures, a cancellation, or its natural end. */
  datatype StreamReply = Exhausted | ErrorStatus(code: nat) | StreamTimedOut | StreamUnreachable | Cancelled

  /** The place where an exception that the handler does not name surfaces, if anywhere; a cancellation and
      the closing of a generator are such exceptions too, except where the handler names them.  Exchanging
      is before the upstream's reply or failure has been noted, Replying after: an error body that cannot
      be decoded, or a client that goes away while it is told of an error. */
  datatype Surprise = Never | CountingUp | MovingGaugeUp | Exchanging | Replying | MovingGaugeDown | Accounting

  datatype Outcome = Outcome(status: nat, err: string)

  datatype Option<T> = None | Some(value: T)

  class ChatHandler {
    const limiter: GatewayLimiter
    var active: int
    var streaming: int
    var refused: nat

    constructor (limiter: GatewayLimiter)
      ensures this.limiter == limiter && active == streaming == 0 && refused == 0
    {
      this.limiter := limiter;
      active, streaming, refused := 0, 0, 0;
    }

    /** Asking for a slot on arrival.  A refusal is counted by the limiter and again by the handler, so
        the overload counter moves by two for every request that is answered 503 here. */
    method RequestSlot(id: nat, queueSize: int) returns (answer: Answer)
      modifies this, limiter, limiter.sem
      ensures (limiter.Model(), answer) == Arrive(old(limiter.Model()), id, GatewayCapacity(queueSize))
      ensures refused == old(refused) + if answer == Rejected then 1 else 0
      ensures limiter.rejectedOverload == old(limiter.rejectedOverload) + 2 * (refused - old(refused))
      ensures active == old(active) && streaming == old(streaming)
    {
      answer := limiter.AcquireSlot(id, queueSize);
      if answer == Rejected {
        refused := refused + 1;
        limiter.rejectedOverload := limiter.rejectedOverload + 1;
      }
    }

    /** The same after waiting in the queue. */
    method ResumeSlot(id: nat) returns (answer: Answer)
      requires Find(limiter.sem.waiters, id) < |limiter.sem.waiters|
      requires limiter.sem.waiters[Find(limiter.sem.waiters, id)].fut != Waiting
      modifies this, limiter, limiter.sem
      ensures (limiter.Model(), answer) == Resume(old(limiter.Model()), id)
      ensures refused == old(refused) + if answer == GaveUp then 1 else 0
      ensures limiter.rejectedOverload == old(limiter.rejectedOverload) + 2 * (refused - old(refused))
      ensures active == old(active) && streaming == old(streaming)
    {
      answer := limiter.FinishSlot(id);
      if answer == GaveUp {
        refused := refused + 1;
        limiter.rejectedOverload := limiter.rejectedOverload + 1;
      }
    }

    /** A non-streaming exchange: whatever the upstream replies and wherever something else goes wrong, the
        finally block releases the permit, exactly once.  The gauge of active requests comes back down
        unless something goes wrong between the two moves.  A log names an error exactly when its
        status is at least 400. */
    method Post(reply: PostReply, surprise: Surprise) returns (logged: Option<Outcome>)
      modifies this, limiter, limiter.sem
      ensures limiter.Model() == Release(old(limiter.Model()))
      ensures active == old(active) + if surprise == Exchanging || surprise == Replying || surprise == MovingGaugeDown then 1 else 0
      ensures streaming == old(streaming) && refused == old(refused)
      ensures logged.Some? <==> surprise == Never
      ensures logged.Some? ==>
        && (logged.value.err != "" <==> logged.value.status >= 400)
        && (reply.Answered? ==> logged.value.status == reply.code)
        && (logged.value.err == "upstream_timeout" <==> reply.PostTimedOut?)
        && (logged.value.err == "upstream_unavailable" <==> reply.PostUnreachable?)
    {
      logged := TryPost(reply, surprise);
      limiter.ReleaseSlot();
    }

    /** The body of the try statement; it stops where an exception leaves it. */
    method TryPost(reply: PostReply, surprise: Surprise) returns (logged: Option<Outcome>)
      modifies this`active
      ensures active == old(active) + if surprise == Exchanging || surprise == Replying || surprise == MovingGaugeDown then 1 else 0
      ensures logged.Some? <==> surprise == Never
      ensures logged.Some? ==>
        && (logged.value.err != "" <==> logged.value.status >= 400)
        && (reply.Answered? ==> logged.value.status == reply.code)
        && (logged.value.err == "upstream_timeout" <==> reply.PostTimedOut?)
        && (logged.value.err == "upstream_unavailable" <==> reply.PostUnreachable?)
    {
      logged := None;
      if surprise == CountingUp || surprise == MovingGaugeUp {
        return;
      }
      active := active + 1;
      var status, err := 200, "";
      if surprise == Exchanging {
        return;
      }
      match reply {
        case Answered(code) =>
          status := code;
          if code >= 400 {
            err := "upstream_http";
          }
        case PostTimedOut => status, err := 504, "upstream_timeout";
        case PostUnreachable => status, err := 502, "upstream_unavailable";
      }
      if surprise == Replying || surprise == MovingGaugeDown {
        return;
      }
      active := active - 1;
      if surprise == Accounting {
        return;
      }
      return Some(Outcome(status, err));
    }

    /** A streaming exchange from its first iteration on.  The exchange is inside one try statement and the
        accounting inside another, so that from there on nothing keeps the permit from being released,
        exactly once; only what comes before the first of them could. */
    method Stream(reply: StreamReply, surprise: Surprise) returns (logged: Option<Outcome>)
      modifies this, limiter, limiter.sem
      ensures limiter.Model() == if surprise == CountingUp || surprise == MovingGaugeUp then old(limiter.Model())
                                 else Release(old(limiter.Model()))
      ensures active - old(active) == streaming - old(streaming) == if surprise == MovingGaugeDown then 1 else 0
      ensures refused == old(refused)
      ensures logged.Some? <==> surprise == Never || surprise == Exchanging || surprise == Replying
      ensures logged.Some? && surprise != Exchanging && (reply.ErrorStatus? ==> reply.code >= 400) ==>
        && (logged.value.err != "" <==> logged.value.status >= 400)
        && (reply.ErrorStatus? ==> logged.value == Outcome(reply.code, "upstream_http"))
        && (logged.value.err == "upstream_timeout" <==> reply.StreamTimedOut?)
        && (logged.value.err == "upstream_unavailable" <==> reply.StreamUnreachable?)
        && (logged.value.err == "client_disconnected" <==> reply.Cancelled?)
      ensures surprise == Exchanging ==> logged.value == Outcome(200, "")
    {
      logged := None;
      if surprise == CountingUp || surprise == MovingGaugeUp {
        return;
      }
      active, streaming := active + 1, streaming + 1;
      var status, err := 200, "";
      if surprise != Exchanging {
        match reply {
          case Exhausted =>
          case ErrorStatus(code) => status, err := code, "upstream_http";
          case Cancelled => status, err := 499, "client_disconnected";
          case StreamTimedOut => status, err := 504, "upstream_timeout";
          case StreamUnreachable => status, err := 502, "upstream_unavailable";
        }
      }
      logged := Account(Outcome(status, err), surprise);
      limiter.ReleaseSlot();
    }

    /** The first part of the generator's finally block. */
    method Account(outcome: Outcome, surprise: Surprise) returns (logged: Option<Outcome>)
      modifies this`active, this`streaming
      ensures active - old(active) == streaming - old(streaming) == if surprise == MovingGaugeDown then 0 else -1
      ensures logged == if surprise == MovingGaugeDown || surprise == Accounting then None else Some(outcome)
    {
      if surprise == MovingGaugeDown {
        return None;
      }
      streaming, active := streaming - 1, active - 1;
      if surprise == Accounting {
        return None;
      }
      return Some(outcome);
    }
  }
}
