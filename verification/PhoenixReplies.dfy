/** Frames and replies by their fields: what a JSON array on the wire means to the client. */
module PhoenixReplies {
  import opened Common
  import opened PhoenixFrames

  // ---------------------------------------------------------------------------
  // Frames
  // ---------------------------------------------------------------------------

  /** The wire brings an array of five: a join reference, a reference or anything else, topic, event and payload. */
  predicate IsFrame(wire: Wire, msgRef: Option<string>, topic: string, event: string, payload: Json) {
    && wire.Message? && wire.value.Array? && |wire.value.items| == 5
    && (if msgRef == None then !wire.value.items[1].Text? else wire.value.items[1] == Text(msgRef.value))
    && wire.value.items[2] == Text(topic) && wire.value.items[3] == Text(event) && wire.value.items[4] == payload
  }

  lemma FrameIs(wire: Wire)
    ensures forall msgRef, topic, event, payload ::
              ParseFrame(wire) == Ok(Frame(msgRef, topic, event, payload)) <==> IsFrame(wire, msgRef, topic, event, payload)
  {}

  /** What is wrong with what the wire brings, if it is no frame. */
  lemma NoFrameIs(wire: Wire)
    ensures ParseFrame(wire) == Err(Closed) <==> wire == End
    ensures forall reason :: ParseFrame(wire) == Err(TransportFailed(reason)) <==> wire == Failure(reason)
    ensures forall reason :: ParseFrame(wire) == Err(NotJson(reason)) <==> wire == Garbage(reason)
    ensures ParseFrame(wire).Err? && wire.Message? ==> ParseFrame(wire).error.Protocol?
  {}

  /** The array a client sends. */
  function Encoded(s: Sent): Json {
    Array([if s.joinRef == None then Null else Text(s.joinRef.value), Text(s.msgRef), Text(s.topic), Text(s.event), s.payload])
  }

  /** What one client sends reads back as the same reference, topic, event and payload. */
  lemma SentIsRead(s: Sent)
    ensures ParseFrame(Message(Encoded(s))) == Ok(Frame(Some(s.msgRef), s.topic, s.event, s.payload))
  {}

  // ---------------------------------------------------------------------------
  // Replies
  // ---------------------------------------------------------------------------

  /** The payload is an object that says `ok`, and `v` is its response, or null if it has none. */
  predicate SaysOk(payload: Json, v: Json) {
    && payload.Object? && "status" in payload.fields && payload.fields["status"] == Text("ok")
    && v == if "response" in payload.fields then payload.fields["response"] else Null
  }

  /** The payload says something else, or nothing: `status` is what it says, `v` its response. */
  predicate SaysNo(payload: Json, status: string, v: Json) {
    && status != "ok"
    && (if payload.Object? && "status" in payload.fields && payload.fields["status"].Text?
        then payload.fields["status"] == Text(status) else status == "")
    && v == if payload.Object? && "response" in payload.fields then payload.fields["response"] else Null
  }

  lemma ResponseIs(payload: Json)
    ensures forall v :: Response(payload) == Ok(v) <==> SaysOk(payload, v)
    ensures forall status, v :: Response(payload) == Err(Rejected(status, v)) <==> SaysNo(payload, status, v)
  {}

  /** A reply to `msgRef` that says `ok`, or one that does not. */
  ghost predicate RepliesOk(wire: Wire, msgRef: string, v: Json) {
    exists topic, payload :: IsFrame(wire, Some(msgRef), topic, "phx_reply", payload) && SaysOk(payload, v)
  }

  ghost predicate RepliesNo(wire: Wire, msgRef: string, status: string, v: Json) {
    exists topic, payload :: IsFrame(wire, Some(msgRef), topic, "phx_reply", payload) && SaysNo(payload, status, v)
  }

  /** The frame that makes the read loops fail with `e`, whoever waits. */
  ghost predicate Breaks(wire: Wire, e: Error) {
    || (e == Closed && (wire == End || exists msgRef, topic, payload :: IsFrame(wire, msgRef, topic, "phx_close", payload)))
    || (e.TransportFailed? && wire == Failure(e.reason))
    || (e.NotJson? && wire == Garbage(e.reason))
    || (e.Protocol? && wire.Message?
        && forall msgRef, topic, event, payload :: IsFrame(wire, msgRef, topic, event, payload) ==>
             event == "phx_error" || (event == "phx_reply" && msgRef == None))
  }

  lemma FaultBreaks(wire: Wire, e: Error)
    requires FaultOf(wire) == Some(e)
    ensures Breaks(wire, e)
  {
    FrameIs(wire);
    NoFrameIs(wire);
    if ParseFrame(wire).Ok? {
      var frame := ParseFrame(wire).value;
      assert IsFrame(wire, frame.msgRef, frame.topic, frame.event, frame.payload);
    }
  }

  /**
   How a request's wait ends, by the fields of the last frame read: with `ok` and the response, with a
   rejection, with a fault, or at the timeout.
   */
  ghost predicate EndsWith(wire: Wire, msgRef: string, r: Result<Json, Error>) {
    match r
    case Ok(v) => RepliesOk(wire, msgRef, v)
    case Err(Rejected(status, v)) => RepliesNo(wire, msgRef, status, v)
    case Err(Timeout) => false
    case Err(e) => Breaks(wire, e)
  }

  lemma OutcomeMeans(script: seq<Arrival>, from: nat, to: nat, msgRef: string, r: Result<Json, Error>)
    requires from <= to <= |script| && Outcome(script, from, to, msgRef, r)
    ensures r == Err(Timeout) || (from < to && EndsWith(script[to - 1].wire, msgRef, r))
  {
    hide ParseFrame, Response, AllPassedOver, FaultOf, IsFrame, Breaks;
    if r != Err(Timeout) {
      var last := script[to - 1].wire;
      FrameIs(last);
      if Answers(last, msgRef) {
        var frame := ParseFrame(last).value;
        ResponseIs(frame.payload);
        assert IsFrame(last, Some(msgRef), frame.topic, "phx_reply", frame.payload);
        assert r.Err? ==> r.error.Rejected? by { ResponseRejects(frame.payload); }
      } else {
        FaultBreaks(last, r.error);
        assert !r.error.Rejected? by { FaultIsNoRejection(last); }
      }
    }
  }

  lemma ResponseRejects(payload: Json)
    ensures Response(payload).Err? ==> Response(payload).error.Rejected?
  {}

  lemma FaultIsNoRejection(wire: Wire)
    ensures FaultOf(wire).Some? ==> !FaultOf(wire).value.Rejected?
  {}

  /** Frames that are passed over are no reply to `msgRef` and break nothing. */
  lemma PassedOverMeans(wire: Wire, msgRef: string)
    requires PassedOver(wire, msgRef)
    ensures exists own, topic, event, payload ::
              IsFrame(wire, own, topic, event, payload) && event != "phx_error" && event != "phx_close"
              && (event == "phx_reply" ==> own != None && own != Some(msgRef))
  {
    FrameIs(wire);
    var frame := ParseFrame(wire).value;
    assert IsFrame(wire, frame.msgRef, frame.topic, frame.event, frame.payload);
  }

  // ---------------------------------------------------------------------------
  // Broadcasts
  // ---------------------------------------------------------------------------

  /** The frame carries the broadcast to a client that has joined `topic`, or none yet. */
  ghost predicate Carries(wire: Wire, topic: Option<string>, b: Broadcast) {
    exists msgRef, of ::
      && IsFrame(wire, msgRef, of, b.event, b.payload) && (topic == None || topic == Some(of))
      && b.event != "phx_reply" && b.event != "phx_error" && b.event != "phx_close"
  }

  lemma AcceptedCarries(wire: Wire, topic: Option<string>)
    ensures Accepts(wire, topic) <==> exists b :: Carries(wire, topic, b)
    ensures Accepts(wire, topic) ==> forall b :: Carries(wire, topic, b) <==> b == BroadcastOf(wire)
  {
    hide ParseFrame, IsFrame;
    FrameIs(wire);
    if Accepts(wire, topic) {
      var frame := ParseFrame(wire).value;
      assert IsFrame(wire, frame.msgRef, frame.topic, frame.event, frame.payload);
      assert Carries(wire, topic, BroadcastOf(wire));
    }
    forall b | Carries(wire, topic, b) ensures Accepts(wire, topic) && b == BroadcastOf(wire) {
      var msgRef, of :| IsFrame(wire, msgRef, of, b.event, b.payload) && (topic == None || topic == Some(of));
    }
  }
}
