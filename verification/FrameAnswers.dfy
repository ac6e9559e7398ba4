/**
 What a cryptor answers, said without its own operations: which number a sealed frame
 carries and when a seal fails, over any calls; and why an incoming frame is refused, in
 terms of everything released so far.
 */
module FrameAnswers {
  import opened Common
  import opened Crypto
  import opened ReplayWindows
  import opened FrameSpec
  import opened FrameDelivery

  // ---------------------------------------------------------------------------
  // Seals are numbered
  // ---------------------------------------------------------------------------

  /** How many seals there have been since the last reset, failed ones included, `before` coming in. */
  function SealsSince(before: nat, calls: seq<(Tracker, Call)>): nat
    decreases |calls|
  {
    if calls == [] then before
    else match calls[0].1
      case SealCall(_) => SealsSince(before + 1, calls[1..])
      case OpenCall(_, _) => SealsSince(before, calls[1..])
      case ResetCall => SealsSince(0, calls[1..])
  }

  /** What a seal answers when `n` went before it. */
  ghost predicate SealAnswer(localId: string, n: nat, t: Tracker, plain: Plain, answer: Result<Wire, FrameError>) {
    && (answer == Err(CounterExhausted) <==> n >= 4_294_967_296)
    && (answer == Err(NoRoomKey) <==> n < 4_294_967_296 && t.roomKey == None)
    && (answer.Ok? <==> n < 4_294_967_296 && t.roomKey != None && t.epoch < 4_294_967_296 && Utf8Length(localId) <= 255)
    && (answer.Err? ==> answer.error in {CounterExhausted, NoRoomKey, HeaderTooBig})
    && (answer.Ok? ==> answer.value.head == Some(Head(localId, t.epoch, n)))
    && (answer.Ok? ==> answer.value.body.Cipher? && answer.value.body.plain == plain)
  }

  /** The counter of a cryptor after `n` seals: it stops one past the last number. */
  ghost predicate Counts(c: Cryptor, n: nat) {
    c.counter == if n < 4_294_967_296 then n else 4_294_967_296
  }

  lemma OneCall(c: Cryptor, before: nat, t: Tracker, call: Call)
    requires Counts(c, before)
    ensures Respond(c, t, call).0.localId == c.localId
    ensures Counts(Respond(c, t, call).0, SealsSince(before, [(t, call)]))
    ensures call.SealCall? ==>
              Respond(c, t, call).1.Sealed? && SealAnswer(c.localId, before, t, call.plain, Respond(c, t, call).1.wire)
  {
    hide DeriveFrameKey, FrameAad, Utf8Length;
    assert [(t, call)][1..] == [];
  }

  lemma OneMore(before: nat, first: (Tracker, Call), rest: seq<(Tracker, Call)>)
    ensures SealsSince(before, [first] + rest) == SealsSince(SealsSince(before, [first]), rest)
  {
    assert [first][1..] == [] && ([first] + rest)[1..] == rest;
  }

  lemma {:induction false} NumberedFrom(c: Cryptor, before: nat, calls: seq<(Tracker, Call)>, k: nat)
    requires Counts(c, before) && k < |calls| && calls[k].1.SealCall?
    ensures
      && k < |Respondings(c, calls)| && Respondings(c, calls)[k].Sealed?
      && SealAnswer(c.localId, SealsSince(before, calls[..k]), calls[k].0, calls[k].1.plain, Respondings(c, calls)[k].wire)
    decreases k
  {
    hide SealAnswer, Counts, Respond;
    OneCall(c, before, calls[0].0, calls[0].1);
    if k == 0 {
      assert calls[..0] == [];
    } else {
      var before' := SealsSince(before, [calls[0]]);
      NumberedFrom(Respond(c, calls[0].0, calls[0].1).0, before', calls[1..], k - 1);
      assert calls[..k] == [calls[0]] + calls[1..][..k - 1];
      OneMore(before, calls[0], calls[1..][..k - 1]);
    }
  }

  /**
   Whatever is called between, a sealed frame carries the number of seals since the cryptor was made
   or reset, and a seal fails exactly when that number, the room key, the epoch or the id does not serve.
   */
  lemma SealsAreNumbered(roomId: string, localId: string, remoteId: Option<string>, size: nat, calls: seq<(Tracker, Call)>, k: nat)
    requires k < |calls| && calls[k].1.SealCall?
    ensures
      var answers := Respondings(NewCryptor(roomId, localId, remoteId, size), calls);
      && k < |answers| && answers[k].Sealed?
      && SealAnswer(localId, SealsSince(0, calls[..k]), calls[k].0, calls[k].1.plain, answers[k].wire)
  {
    hide SealAnswer, Respondings;
    NumberedFrom(NewCryptor(roomId, localId, remoteId, size), 0, calls, k);
  }

  // ---------------------------------------------------------------------------
  // Why a frame is refused
  // ---------------------------------------------------------------------------

  /** The frame's head names this epoch and a sender that is wanted here. */
  ghost predicate Addressed(net: Net, wire: Wire, expected: Option<string>) {
    && wire.head != None && wire.head.value.epoch == net.receiver.tracker.epoch && wire.head.value.senderId != ""
    && (expected == None || expected == Some(wire.head.value.senderId))
  }

  /** It was not released before, and is not too far behind what was. */
  ghost predicate IsNew(net: Net, head: Head) {
    Acceptable(ReleasedCounters(net.released, head.senderId, net.receiver.tracker.epoch), net.receiver.cryptor.windowSize, head.counter)
  }

  /** The body was sealed with this key, for the room, epoch, sender and counter that the head names. */
  ghost predicate Authentic(net: Net, key: GroupKey, head: Head, body: Body) {
    && body.Cipher? && body.key == DeriveFrameKey(key, head.epoch, head.senderId, head.counter)
    && body.aad == FrameAad(net.roomId, head.epoch, head.senderId, head.counter)
  }

  /** Why a frame is refused: the first reason that applies. */
  ghost predicate Refused(net: Net, wire: Wire, expected: Option<string>, error: FrameError) {
    var t, size := net.receiver.tracker, net.receiver.cryptor.windowSize;
    match error
    case BadHeader => wire.head == None
    case WrongEpoch => wire.head != None && wire.head.value.epoch != t.epoch
    case NoSender => wire.head != None && wire.head.value.epoch == t.epoch && wire.head.value.senderId == ""
    case WrongSender =>
      && wire.head != None && wire.head.value.epoch == t.epoch && wire.head.value.senderId != ""
      && expected != None && expected != Some(wire.head.value.senderId)
    case BadWindowSize => Addressed(net, wire, expected) && size == 0
    case Replay => Addressed(net, wire, expected) && size > 0 && !IsNew(net, wire.head.value)
    case NoRoomKey => Addressed(net, wire, expected) && size > 0 && IsNew(net, wire.head.value) && t.roomKey == None
    case TooShort =>
      && Addressed(net, wire, expected) && size > 0 && IsNew(net, wire.head.value) && t.roomKey != None
      && wire.body.Cipher? && wire.body.plain == []
    case NotAuthentic =>
      && Addressed(net, wire, expected) && size > 0 && IsNew(net, wire.head.value) && t.roomKey != None
      && (wire.body.Cipher? ==> wire.body.plain != [])
      && !Authentic(net, t.roomKey.value, wire.head.value, wire.body)
    case _ => false
  }

  /** Every refusal, after any run: it is given for its reason and for no other. */
  lemma RefusedExactly(net: Net, wire: Wire, expected: Option<string>, error: FrameError)
    requires Reachable(net)
    ensures Open(net.receiver.cryptor, net.receiver.tracker, wire, expected).1 == Err(error) <==> Refused(net, wire, expected, error)
  {
    hide DeriveFrameKey, FrameAad, SealedOk, Refines, Acceptable, Reachable;
    ReachableInv(net);
    if wire.head.Some? && net.receiver.cryptor.windowSize >= 1 {
      var h := wire.head.value;
      AnswersPerfectly(View(net.receiver.cryptor, h.senderId),
                       ReleasedCounters(net.released, h.senderId, net.receiver.tracker.epoch), h.counter);
    }
  }
}
