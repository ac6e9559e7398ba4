/** Phoenix V2 frames as the client reads them, and which of them are broadcasts for its caller. */
module PhoenixFrames {
  import opened Common
  import opened Text

  datatype Json = Null | Text(text: string) | Object(fields: map<string, Json>) | Array(items: seq<Json>) | Other(raw: string)

  datatype Error =
    | Closed
    | TransportFailed(reason: string)
    | NotJson(reason: string)
    | Protocol(reason: string)
    | Timeout
    | Rejected(status: string, response: Json)

  /** What one receive on the transport gives. */
  datatype Wire = Message(value: Json) | Garbage(reason: string) | End | Failure(reason: string)

  /** A receive that completes at time `at`. */
  datatype Arrival = Arrival(at: nat, wire: Wire)

  datatype Frame = Frame(msgRef: Option<string>, topic: string, event: string, payload: Json)

  datatype Broadcast = Broadcast(event: string, payload: Json)

  datatype Sent = Sent(joinRef: Option<string>, msgRef: string, topic: string, event: string, payload: Json, delivered: bool)

  function ParseFrame(wire: Wire): Result<Frame, Error> {
    match wire
    case Failure(reason) => Err(TransportFailed(reason))
    case End => Err(Closed)
    case Garbage(reason) => Err(NotJson(reason))
    case Message(value) =>
      if !value.Array? then Err(Protocol("frame is not an array"))
      else if |value.items| != 5 then Err(Protocol("frame has the wrong number of elements"))
      else if !value.items[3].Text? then Err(Protocol("frame event is not a string"))
      else if !value.items[2].Text? then Err(Protocol("frame topic is not a string"))
      else
        var msgRef := if value.items[1].Text? then Some(value.items[1].text) else None;
        Ok(Frame(msgRef, value.items[2].text, value.items[3].text, value.items[4]))
  }

  function Field(value: Json, key: string): Option<Json> {
    if value.Object? && key in value.fields then Some(value.fields[key]) else None
  }

  /** What a reply's payload answers. */
  function Response(payload: Json): Result<Json, Error> {
    var status := match Field(payload, "status") case Some(Text(text)) => text case _ => "";
    var response := match Field(payload, "response") case Some(value) => value case None => Null;
    if status == "ok" then Ok(response) else Err(Rejected(status, response))
  }

  // ---------------------------------------------------------------------------
  // What a frame is for
  // ---------------------------------------------------------------------------

  predicate IsReply(wire: Wire) {
    ParseFrame(wire).Ok? && ParseFrame(wire).value.event == "phx_reply"
  }

  /** A reply to the request sent as `msgRef`. */
  predicate Answers(wire: Wire, msgRef: string) {
    IsReply(wire) && ParseFrame(wire).value.msgRef == Some(msgRef)
  }

  /** The error a frame makes of the call that reads it. */
  function FaultOf(wire: Wire): Option<Error> {
    match ParseFrame(wire)
    case Err(e) => Some(e)
    case Ok(frame) =>
      if frame.event == "phx_reply" && frame.msgRef.None? then Some(Protocol("phx_reply has no ref"))
      else if frame.event == "phx_error" then Some(Protocol("channel errored"))
      else if frame.event == "phx_close" then Some(Closed)
      else None
  }

  /** Neither an answer to `msgRef` nor a fault. */
  predicate PassedOver(wire: Wire, msgRef: string) {
    !Answers(wire, msgRef) && FaultOf(wire).None?
  }

  /** Some frame among the first `n` arrivals answers `msgRef`. */
  ghost predicate Answered(script: seq<Arrival>, n: nat, msgRef: string)
    requires n <= |script|
  {
    exists i :: 0 <= i < n && Answers(script[i].wire, msgRef)
  }

  predicate AllPassedOver(script: seq<Arrival>, from: nat, to: nat, msgRef: string)
    requires from <= to <= |script|
  {
    forall i :: from <= i < to ==> PassedOver(script[i].wire, msgRef)
  }

  /** How waiting for `msgRef` over the arrivals `from` to `to` may end. */
  predicate Outcome(script: seq<Arrival>, from: nat, to: nat, msgRef: string, r: Result<Json, Error>)
    requires from <= to <= |script|
  {
    if r == Err(Timeout) then AllPassedOver(script, from, to, msgRef)
    else
      && from < to && AllPassedOver(script, from, to - 1, msgRef)
      && var last := script[to - 1].wire;
         if Answers(last, msgRef) then r == Response(ParseFrame(last).value.payload)
         else FaultOf(last).Some? && r == Err(FaultOf(last).value)
  }

  /** A broadcast for a client that has joined `topic`, or has not joined yet. */
  predicate Accepts(wire: Wire, topic: Option<string>) {
    && ParseFrame(wire).Ok?
    && var frame := ParseFrame(wire).value;
       && frame.event != "phx_reply" && frame.event != "phx_error" && frame.event != "phx_close"
       && (topic.None? || topic.value == frame.topic)
  }

  function BroadcastOf(wire: Wire): Broadcast
    requires ParseFrame(wire).Ok?
  {
    Broadcast(ParseFrame(wire).value.event, ParseFrame(wire).value.payload)
  }

  /** The topic in force when arrival `i` is read: the one joined, once it is. */
  function TopicAt(topic: Option<string>, joinedAt: nat, i: nat): Option<string> {
    if i < joinedAt then None else topic
  }

  /** The broadcasts among the first `n` arrivals, in arrival order. */
  function Accepted(script: seq<Arrival>, n: nat, topic: Option<string>, joinedAt: nat): seq<Broadcast>
    requires n <= |script|
  {
    if n == 0 then []
    else
      var before, wire := Accepted(script, n - 1, topic, joinedAt), script[n - 1].wire;
      if Accepts(wire, TopicAt(topic, joinedAt, n - 1)) then before + [BroadcastOf(wire)] else before
  }

  /** Each accepted arrival is there once, where the number accepted before it says. */
  lemma {:induction false} AcceptedKeepsOrder(script: seq<Arrival>, n: nat, topic: Option<string>, joinedAt: nat, i: nat)
    requires i < n <= |script|
    ensures Accepted(script, i, topic, joinedAt) <= Accepted(script, n, topic, joinedAt)
    ensures Accepts(script[i].wire, TopicAt(topic, joinedAt, i)) ==>
              var at := |Accepted(script, i, topic, joinedAt)|;
              && at < |Accepted(script, n, topic, joinedAt)|
              && Accepted(script, n, topic, joinedAt)[at] == BroadcastOf(script[i].wire)
  {
    hide Accepts, ParseFrame;
    if i < n - 1 {
      AcceptedKeepsOrder(script, n - 1, topic, joinedAt, i);
    }
  }

  /** Joining changes nothing about what was accepted before. */
  lemma {:induction false} JoiningKeepsAccepted(script: seq<Arrival>, n: nat, topic: Option<string>, joinedAt: nat, earlier: nat)
    requires n <= |script| && n <= joinedAt
    ensures Accepted(script, n, topic, joinedAt) == Accepted(script, n, None, earlier)
  {
    hide Accepts, ParseFrame;
    if n > 0 {
      JoiningKeepsAccepted(script, n - 1, topic, joinedAt, earlier);
    }
  }

  // ---------------------------------------------------------------------------
  // References
  // ---------------------------------------------------------------------------

  /** The `i`th frame sent carries the decimal of `i + 1`. */
  predicate RefsCountUp(sent: seq<Sent>) {
    forall i: nat :: i < |sent| ==> sent[i].msgRef == Decimal(i + 1)
  }

  /** No two frames ever carry the same reference, so no reply answers two requests. */
  lemma RefsAreFresh(sent: seq<Sent>, i: nat, j: nat)
    requires RefsCountUp(sent) && i < |sent| && j < |sent| && i != j
    ensures sent[i].msgRef != sent[j].msgRef
    ensures forall wire :: Answers(wire, sent[i].msgRef) ==> !Answers(wire, sent[j].msgRef)
  {
    if sent[i].msgRef == sent[j].msgRef {
      DecimalInjective(i + 1, j + 1);
    }
  }

  /** A reply to another request, however late, never ends the wait for this one. */
  lemma OtherRepliesPassOver(script: seq<Arrival>, from: nat, to: nat, sent: seq<Sent>, j: nat, k: nat, i: nat,
                             r: Result<Json, Error>)
    requires RefsCountUp(sent) && j < |sent| && k < |sent| && j != k
    requires from <= i < to <= |script| && Outcome(script, from, to, sent[j].msgRef, r)
    requires Answers(script[i].wire, sent[k].msgRef)
    ensures r == Err(Timeout) || i + 1 < to
    ensures PassedOver(script[i].wire, sent[j].msgRef)
  {
    hide RefsCountUp;
    RefsAreFresh(sent, j, k);
  }

  /** The references of the heartbeats that went out: only they name no join. */
  function Heartbeats(sent: seq<Sent>): seq<string> {
    if sent == [] then []
    else
      var before, last := Heartbeats(sent[..|sent| - 1]), sent[|sent| - 1];
      if last.joinRef.None? && last.delivered then before + [last.msgRef] else before
  }

  /** Every heartbeat that went out was answered, save `beat`, the one waited for. */
  ghost predicate OneHeartbeat(sent: seq<Sent>, acked: seq<string>, beat: Option<string>, script: seq<Arrival>, n: nat) {
    && Heartbeats(sent) == acked + (if beat.Some? then [beat.value] else [])
    && (beat.Some? ==> exists k: nat :: k < |sent| && sent[k].msgRef == beat.value && sent[k].joinRef.None?)
    && n <= |script| && forall k :: 0 <= k < |acked| ==> Answered(script, n, acked[k])
  }

  /** What was sent after `before` is heartbeats. */
  predicate OnlyHeartbeats(before: seq<Sent>, after: seq<Sent>) {
    && before <= after
    && forall k :: |before| <= k < |after| ==>
         && after[k].joinRef.None? && after[k].event == "heartbeat" && after[k].topic == "phoenix"
         && after[k].payload == Object(map[])
  }

  lemma RefsGrow(sent: seq<Sent>, frame: Sent)
    requires RefsCountUp(sent) && frame.msgRef == Decimal(|sent| + 1)
    ensures RefsCountUp(sent + [frame])
  {
    hide Decimal;
    var after := sent + [frame];
    forall i: nat | i < |after| ensures after[i].msgRef == Decimal(i + 1) {
      if i < |sent| {
        assert after[i] == sent[i];
      } else {
        assert i == |sent| && after[i] == frame;
      }
    }
  }

  lemma HeartbeatsGrow(sent: seq<Sent>, frame: Sent)
    ensures Heartbeats(sent + [frame]) == Heartbeats(sent) + (if frame.joinRef.None? && frame.delivered then [frame.msgRef] else [])
  {
    assert (sent + [frame])[..|sent|] == sent;
  }

  /** A request, and a heartbeat that did not go out, leave the heartbeats as they were. */
  lemma OtherFrameSent(sent: seq<Sent>, frame: Sent, acked: seq<string>, beat: Option<string>, script: seq<Arrival>, n: nat)
    requires OneHeartbeat(sent, acked, beat, script, n) && (frame.joinRef.Some? || !frame.delivered)
    ensures OneHeartbeat(sent + [frame], acked, beat, script, n)
  {
    hide Answered;
    HeartbeatsGrow(sent, frame);
    if beat.Some? {
      var k: nat :| k < |sent| && sent[k].msgRef == beat.value && sent[k].joinRef.None?;
      assert (sent + [frame])[k] == sent[k];
    }
  }

  lemma HeartbeatSent(sent: seq<Sent>, frame: Sent, acked: seq<string>, script: seq<Arrival>, n: nat)
    requires OneHeartbeat(sent, acked, None, script, n) && frame.joinRef.None? && frame.delivered
    ensures OneHeartbeat(sent + [frame], acked, Some(frame.msgRef), script, n)
  {
    hide Answered;
    HeartbeatsGrow(sent, frame);
    assert (sent + [frame])[|sent|] == frame;
  }

  // ---------------------------------------------------------------------------
  // Sorting frames
  // ---------------------------------------------------------------------------

  datatype Classified = Reply(msgRef: string, response: Result<Json, Error>) | Heard(broadcast: Broadcast) | Consumed

  /** What a frame that answers no heartbeat is. */
  function Sorted(frame: Frame, topic: Option<string>): Result<Classified, Error> {
    if frame.event == "phx_reply" then
      if frame.msgRef.None? then Err(Protocol("phx_reply has no ref"))
      else Ok(Reply(frame.msgRef.value, Response(frame.payload)))
    else if frame.event == "phx_error" then Err(Protocol("channel errored"))
    else if frame.event == "phx_close" then Err(Closed)
    else if topic.Some? && topic.value != frame.topic then Ok(Consumed)
    else Ok(Heard(Broadcast(frame.event, frame.payload)))
  }

  /** What reading `wire` with a heartbeat `beat` outstanding comes to. */
  predicate Received(wire: Wire, topic: Option<string>, beat: Option<string>, got: Result<Classified, Error>) {
    match got
    case Err(e) => FaultOf(wire) == Some(e)
    case Ok(Reply(msgRef, response)) =>
      FaultOf(wire).None? && Answers(wire, msgRef) && response == Response(ParseFrame(wire).value.payload)
    case Ok(Heard(broadcast)) =>
      FaultOf(wire).None? && !IsReply(wire) && Accepts(wire, topic) && broadcast == BroadcastOf(wire)
    case Ok(Consumed) =>
      FaultOf(wire).None? && !Accepts(wire, topic) && (IsReply(wire) ==> beat.Some? && Answers(wire, beat.value))
  }

  lemma NoFaultIsTimeout(wire: Wire)
    ensures FaultOf(wire) != Some(Timeout)
    ensures ParseFrame(wire).Ok? ==> Response(ParseFrame(wire).value.payload) != Err(Timeout)
    ensures forall msgRef :: Answers(wire, msgRef) ==> FaultOf(wire).None?
  {}

  lemma ReceivedOtherwise(wire: Wire, topic: Option<string>, beat: Option<string>)
    ensures match ParseFrame(wire)
            case Err(e) => Received(wire, topic, beat, Err(e))
            case Ok(frame) =>
              if frame.event == "phx_reply" && frame.msgRef.Some? && frame.msgRef == beat
              then Received(wire, topic, beat, Ok(Consumed)) && Answers(wire, beat.value)
              else Received(wire, topic, beat, Sorted(frame, topic))
  {}

  /** A frame that is no broadcast for the topic leaves the accepted ones as they are. */
  lemma AcceptedNext(script: seq<Arrival>, n: nat, topic: Option<string>, joinedAt: nat, beat: Option<string>,
                     got: Result<Classified, Error>)
    requires joinedAt <= n < |script| && Received(script[n].wire, topic, beat, got)
    ensures Accepted(script, n + 1, topic, joinedAt)
            == Accepted(script, n, topic, joinedAt) + (if got.Ok? && got.value.Heard? then [got.value.broadcast] else [])
  {
    hide Response;
  }
}
