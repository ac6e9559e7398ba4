/**
 The Phoenix channel client over a transport that may deliver anything, at any
 time, and fail at any call. Times are in milliseconds.
 */
module Phoenix {
  import opened Common
  import opened Text
  import opened PhoenixFrames
  import opened PhoenixReplies

  const REPLY_TIMEOUT := 10_000
  const HEARTBEAT_AFTER := 15_000
  const MIN_SLICE := 50

  class PhoenixClient {
    // The transport: what it will deliver, and what it does with each frame sent.
    const script: seq<Arrival>
    const refuses: seq<Sent> -> Option<string>
    const took: seq<Sent> -> nat
    var next: nat
    var sent: seq<Sent>
    var now: nat

    var topic: Option<string>
    var joinRef: Option<string>
    var nextRef: nat
    var pending: seq<Broadcast>
    var heartbeatRef: Option<string>
    var lastSend: nat

    /** How many arrivals had been read when the topic was joined. */
    ghost var joinedAt: nat
    /** Every broadcast given to the caller, in order. */
    ghost var handed: seq<Broadcast>
    /** The heartbeats answered, in order. */
    ghost var acked: seq<string>

    /** Nothing accepted is lost, repeated or reordered. */
    ghost predicate NothingLost()
      reads this`next, this`joinedAt, this`handed, this`pending, this`topic
    {
      next <= |script| && joinedAt <= next && handed + pending == Accepted(script, next, topic, joinedAt)
    }

    ghost predicate RefsFresh()
      reads this`sent, this`nextRef
    {
      |sent| == nextRef && RefsCountUp(sent)
    }

    ghost predicate Valid()
      reads this
    {
      && NothingLost() && RefsFresh() && OneHeartbeat(sent, acked, heartbeatRef, script, next)
      && topic.Some? == joinRef.Some? && lastSend <= now
    }

    constructor (script: seq<Arrival>, refuses: seq<Sent> -> Option<string>, took: seq<Sent> -> nat, start: nat)
      ensures Valid() && handed == [] && pending == [] && sent == [] && topic == None && next == 0
      ensures this.script == script && this.refuses == refuses && this.took == took
    {
      this.script, this.refuses, this.took := script, refuses, took;
      next, sent, now := 0, [], start;
      topic, joinRef, nextRef, pending, heartbeatRef, lastSend := None, None, 0, [], None, start;
      joinedAt, handed, acked := 0, [], [];
    }

    method TakeRef() returns (msgRef: string)
      modifies this`nextRef
      ensures nextRef == old(nextRef) + 1 && msgRef == Decimal(nextRef)
    {
      nextRef := nextRef + 1;
      msgRef := Decimal(nextRef);
    }

    method SendFrame(joinRef: Option<string>, msgRef: string, topic: string, event: string, payload: Json)
      returns (error: Option<Error>)
      requires lastSend <= now
      modifies this`sent, this`now, this`lastSend
      ensures sent == old(sent) + [Sent(joinRef, msgRef, topic, event, payload, error.None?)]
      ensures lastSend <= now && old(now) <= now
      ensures error.None? ==> lastSend == now
    {
      var refusal := refuses(sent + [Sent(joinRef, msgRef, topic, event, payload, true)]);
      sent := sent + [Sent(joinRef, msgRef, topic, event, payload, refusal.None?)];
      now := now + took(sent);
      if refusal.Some? {
        return Some(TransportFailed(refusal.value));
      }
      lastSend := now;
      return None;
    }

    /** Read one frame within `slice`, or let that much time pass. */
    method ReadFrame(slice: nat) returns (frame: Option<Result<Frame, Error>>)
      requires next <= |script|
      modifies this`next, this`now
      ensures old(now) <= now
      ensures frame.None? ==> next == old(next) && now == old(now) + slice
      ensures frame.Some? ==> next == old(next) + 1 <= |script| && frame.value == ParseFrame(script[old(next)].wire)
    {
      if next < |script| && script[next].at <= now + slice {
        if now < script[next].at {
          now := script[next].at;
        }
        frame := Some(ParseFrame(script[next].wire));
        next := next + 1;
      } else {
        now := now + slice;
        frame := None;
      }
    }

    method Classify(frame: Frame) returns (r: Result<Classified, Error>)
      modifies this`heartbeatRef, this`acked
      ensures var beat := frame.event == "phx_reply" && frame.msgRef.Some? && frame.msgRef == old(heartbeatRef);
              && heartbeatRef == (if beat then None else old(heartbeatRef))
              && acked == old(acked) + (if beat then [frame.msgRef.value] else [])
              && r == if beat then Ok(Consumed) else Sorted(frame, topic)
    {
      match frame.event {
        case "phx_reply" =>
          if frame.msgRef.Some? && heartbeatRef == frame.msgRef {
            heartbeatRef := None;
            acked := acked + [frame.msgRef.value];
            return Ok(Consumed);
          }
          if frame.msgRef.None? {
            return Err(Protocol("phx_reply has no ref"));
          }
          return Ok(Reply(frame.msgRef.value, Response(frame.payload)));
        case "phx_error" => return Err(Protocol("channel errored"));
        case "phx_close" => return Err(Closed);
        case _ =>
          if topic.Some? && topic.value != frame.topic {
            return Ok(Consumed);
          }
          return Ok(Heard(Broadcast(frame.event, frame.payload)));
      }
    }

    /** The frame just sent names a join, so its reference is no heartbeat's. */
    lemma NotTheHeartbeat(wanted: string)
      requires RefsFresh() && OneHeartbeat(sent, acked, heartbeatRef, script, next)
      requires nextRef > 0 && wanted == Decimal(nextRef) && sent[nextRef - 1].joinRef.Some?
      ensures heartbeatRef != Some(wanted)
    {
      if heartbeatRef.Some? {
        var k: nat :| k < |sent| && sent[k].msgRef == heartbeatRef.value && sent[k].joinRef.None?;
        RefsAreFresh(sent, k, nextRef - 1);
      }
    }

    /** Read one frame within `slice` and sort it, as both read loops do. */
    method Receive(slice: nat) returns (got: Option<Result<Classified, Error>>)
      requires Valid()
      modifies this`next, this`now, this`heartbeatRef, this`acked
      ensures RefsFresh() && OneHeartbeat(sent, acked, heartbeatRef, script, next) && old(now) <= now
      ensures got.None? ==> Valid() && next == old(next) && now == old(now) + slice && heartbeatRef == old(heartbeatRef)
      ensures got.Some? ==>
                next == old(next) + 1 <= |script| && Received(script[old(next)].wire, topic, old(heartbeatRef), got.value)
      ensures got.Some? ==>
                var heard := if got.value.Ok? && got.value.value.Heard? then [got.value.value.broadcast] else [];
                joinedAt <= next && Accepted(script, next, topic, joinedAt) == handed + pending + heard
    {
      hide ParseFrame, Answers, FaultOf, Accepts, Sorted, BroadcastOf, RefsCountUp, Received, Accepted, Heartbeats;
      ghost var beat, before := heartbeatRef, next;
      var frame := ReadFrame(slice);
      if frame.None? {
        return None;
      }
      ghost var wire := script[before].wire;
      ReceivedOtherwise(wire, topic, beat);
      AnsweredStill(before, wire);
      if frame.value.Err? {
        got := Some(Err(frame.value.error));
      } else {
        var c := Classify(frame.value.value);
        got := Some(c);
      }
      AcceptedNext(script, before, topic, joinedAt, beat, got.value);
    }

    lemma AnsweredStill(before: nat, wire: Wire)
      requires before < |script| && wire == script[before].wire
      ensures forall msgRef :: Answered(script, before, msgRef) ==> Answered(script, before + 1, msgRef)
      ensures forall msgRef :: Answers(wire, msgRef) ==> Answered(script, before + 1, msgRef)
    {
      hide Answers;
    }

    /** Wait for the reply to the frame just sent, keeping the broadcasts that come first. */
    method AwaitReply(wanted: string) returns (r: Result<Json, Error>)
      requires Valid() && nextRef > 0 && wanted == Decimal(nextRef) && sent[nextRef - 1].joinRef.Some?
      modifies this`next, this`now, this`pending, this`heartbeatRef, this`acked
      ensures Valid()
      ensures old(next) <= next && Outcome(script, old(next), next, wanted, r)
      ensures r == Err(Timeout) || (old(next) < next && EndsWith(script[next - 1].wire, wanted, r))
      ensures r == Err(Timeout) ==> now >= old(now) + 10_000
      ensures old(pending) <= pending
    {
      hide ParseFrame, Accepts, BroadcastOf, Decimal, Accepted, OneHeartbeat, RefsCountUp, Response, EndsWith;
      var deadline := now + REPLY_TIMEOUT;
      while true
        invariant Valid() && old(next) <= next && old(now) <= now && old(pending) <= pending
        invariant AllPassedOver(script, old(next), next, wanted)
        decreases |script| - next
      {
        var remaining := if now < deadline then deadline - now else 0;
        if remaining == 0 {
          return Err(Timeout);
        }
        NotTheHeartbeat(wanted);
        var got := Receive(remaining);
        if got.None? {
          return Err(Timeout);
        }
        NoFaultIsTimeout(script[next - 1].wire);
        if got.value.Err? {
          OutcomeMeans(script, old(next), next, wanted, Err(got.value.error));
          return Err(got.value.error);
        }
        match got.value.value {
          case Reply(msgRef, response) =>
            if msgRef == wanted {
              OutcomeMeans(script, old(next), next, wanted, response);
              return response;
            }
          case Heard(broadcast) => pending := pending + [broadcast];
          case Consumed =>
        }
      }
    }

    /** Send a frame under a fresh reference: one that names `join`, or else the join itself. */
    method SendRequest(join: Option<string>, topic: string, event: string, payload: Json)
      returns (msgRef: string, error: Option<Error>)
      requires Valid()
      modifies this`now, this`sent, this`nextRef, this`lastSend
      ensures Valid() && nextRef == old(nextRef) + 1 && msgRef == Decimal(nextRef)
      ensures sent == old(sent) + [Sent(if join.Some? then join else Some(msgRef), msgRef, topic, event, payload, error.None?)]
    {
      hide Decimal, Accepted, RefsCountUp, OneHeartbeat;
      ghost var before := sent;
      msgRef := TakeRef();
      error := SendFrame(if join.Some? then join else Some(msgRef), msgRef, topic, event, payload);
      RefsGrow(before, sent[|before|]);
      OtherFrameSent(before, sent[|before|], acked, heartbeatRef, script, next);
    }

    /** Join the one topic this client may own. */
    method Join(topic: string, params: Json) returns (r: Result<Json, Error>)
      requires Valid()
      modifies this
      ensures Valid() && handed == old(handed) && old(next) <= next
      ensures old(this.topic).Some? ==> r == Err(Protocol("client has already joined a topic")) && unchanged(this)
      ensures old(this.topic).None? ==>
                && nextRef == old(nextRef) + 1
                && var msgRef := Decimal(nextRef);
                   && |sent| == nextRef && sent[..old(nextRef)] == old(sent)
                   && sent[old(nextRef)].(delivered := true) == Sent(Some(msgRef), msgRef, topic, "phx_join", params, true)
                   && (if sent[old(nextRef)].delivered then
                         && Outcome(script, old(next), next, msgRef, r)
                         && (r == Err(Timeout) || (old(next) < next && EndsWith(script[next - 1].wire, msgRef, r)))
                       else r.Err? && next == old(next))
                   && this.topic == (if r.Ok? then Some(topic) else None)
                   && this.joinRef == (if r.Ok? then Some(msgRef) else None)
    {
      hide Decimal, Accepted, RefsCountUp, OneHeartbeat, Outcome, EndsWith;
      if this.topic.Some? {
        return Err(Protocol("client has already joined a topic"));
      }
      var msgRef, error := SendRequest(None, topic, "phx_join", params);
      if error.Some? {
        return Err(error.value);
      }
      r := AwaitReply(msgRef);
      if r.Ok? {
        JoiningKeepsAccepted(script, next, Some(topic), next, joinedAt);
        this.topic := Some(topic);
        joinRef := Some(msgRef);
        joinedAt := next;
      }
    }

    /** Push an event and wait for what the channel answers. */
    method Push(event: string, payload: Json) returns (r: Result<Json, Error>)
      requires Valid()
      modifies this`next, this`now, this`sent, this`nextRef, this`lastSend, this`pending, this`heartbeatRef, this`acked
      ensures Valid() && old(next) <= next
      ensures topic.None? ==>
                r == Err(Protocol("push before join")) && sent == old(sent) && next == old(next) && pending == old(pending)
      ensures topic.Some? ==>
                && nextRef == old(nextRef) + 1
                && var msgRef := Decimal(nextRef);
                   && |sent| == nextRef && sent[..old(nextRef)] == old(sent)
                   && sent[old(nextRef)].(delivered := true) == Sent(joinRef, msgRef, topic.value, event, payload, true)
                   && if sent[old(nextRef)].delivered then
                        && Outcome(script, old(next), next, msgRef, r)
                        && (r == Err(Timeout) || (old(next) < next && EndsWith(script[next - 1].wire, msgRef, r)))
                      else r.Err? && next == old(next)
    {
      hide Decimal, Accepted, RefsCountUp, OneHeartbeat, Outcome, EndsWith;
      if topic.None? {
        return Err(Protocol("push before join"));
      }
      var msgRef, error := SendRequest(joinRef, topic.value, event, payload);
      if error.Some? {
        return Err(error.value);
      }
      r := AwaitReply(msgRef);
    }

    /** Send a heartbeat, unless one is unanswered or something was sent lately. */
    method Beat() returns (error: Option<Error>)
      requires Valid()
      modifies this`now, this`sent, this`nextRef, this`lastSend, this`heartbeatRef
      ensures Valid() && old(now) <= now
      ensures sent == old(sent) <==> old(heartbeatRef).Some? || old(now) < old(lastSend) + 15_000
      ensures OnlyHeartbeats(old(sent), sent)
      ensures error.Some? ==> sent != old(sent) && !sent[|sent| - 1].delivered
    {
      hide Decimal, Accepted, RefsCountUp, OneHeartbeat;
      error := None;
      if heartbeatRef.None? && now - lastSend >= HEARTBEAT_AFTER {
        ghost var before := sent;
        var msgRef := TakeRef();
        error := SendFrame(None, msgRef, "phoenix", "heartbeat", Object(map[]));
        RefsGrow(before, sent[|before|]);
        if error.None? {
          HeartbeatSent(before, sent[|before|], acked, script, next);
          heartbeatRef := Some(msgRef);
        } else {
          OtherFrameSent(before, sent[|before|], acked, heartbeatRef, script, next);
        }
      }
    }

    /** The next broadcast, or none once `wait` has passed. */
    method NextBroadcast(wait: nat) returns (r: Result<Option<Broadcast>, Error>)
      requires Valid()
      modifies this`next, this`now, this`sent, this`nextRef, this`lastSend
      modifies this`pending, this`heartbeatRef, this`acked, this`handed
      ensures Valid() && old(next) <= next
      ensures handed == old(handed) + (if r.Ok? && r.value.Some? then [r.value.value] else [])
      ensures old(pending) != [] ==>
                r == Ok(Some(old(pending)[0])) && pending == old(pending)[1..] && next == old(next) && sent == old(sent)
      ensures old(pending) == [] ==> pending == []
      ensures r == Ok(None) ==> old(pending) == [] && now >= old(now) + wait
      ensures r.Ok? && r.value.Some? && old(pending) == [] ==>
                old(next) < next && Carries(script[next - 1].wire, topic, r.value.value)
      ensures r.Err? ==>
                || (sent != [] && !sent[|sent| - 1].delivered)
                || (old(next) < next && Breaks(script[next - 1].wire, r.error))
      ensures OnlyHeartbeats(old(sent), sent)
    {
      hide ParseFrame, Accepts, Answers, BroadcastOf, Accepted, FaultOf, RefsFresh, OneHeartbeat, Carries, Breaks;
      if pending != [] {
        var message := pending[0];
        handed := handed + [message];
        pending := pending[1..];
        return Ok(Some(message));
      }
      var deadline := now + wait;
      while true
        invariant Valid() && pending == [] && handed == old(handed) && old(next) <= next && old(now) <= now
        invariant OnlyHeartbeats(old(sent), sent)
        decreases |script| - next, deadline - now
      {
        var error := Beat();
        if error.Some? {
          return Err(error.value);
        }
        var remaining := if now < deadline then deadline - now else 0;
        if remaining == 0 {
          return Ok(None);
        }
        var quiet := now - lastSend;
        var heartbeatWait := if quiet < HEARTBEAT_AFTER then HEARTBEAT_AFTER - quiet else 0;
        var least := if heartbeatWait < MIN_SLICE then MIN_SLICE else heartbeatWait;
        var slice := if remaining < least then remaining else least;
        var got := Receive(slice);
        if got.Some? {
          if got.value.Err? {
            FaultBreaks(script[next - 1].wire, got.value.error);
            return Err(got.value.error);
          }
          if got.value.value.Heard? {
            AcceptedCarries(script[next - 1].wire, topic);
            handed := handed + [got.value.value.broadcast];
            return Ok(Some(got.value.value.broadcast));
          }
        }
      }
    }
  }
}
