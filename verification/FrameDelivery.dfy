/**
 Frames across a hostile network: one sending cryptor per sender, one receiver,
 and a network that drops, duplicates, reorders, corrupts, and puts any header
 it likes in front of any body.
 */
module FrameDelivery {
  import opened Common
  import opened Crypto
  import opened ReplayWindows
  import opened FrameSpec

  datatype Party = Party(cryptor: Cryptor, tracker: Tracker)

  datatype Record = Record(sender: string, epoch: nat, counter: nat, plain: Plain)

  /** What was sealed, and the body that went out for it. */
  datatype SealedFrame = SealedFrame(record: Record, key: GroupKey, body: Body)

  datatype Net = Net(
    roomId: string,
    senders: map<string, Party>,
    receiver: Party,
    sealed: seq<SealedFrame>,
    released: seq<Record>)

  datatype Step =
    | Arrive(id: string)
    | Send(id: string, plain: Plain)
    | SenderMoves(id: string, epoch: nat)
    | SenderGetsKey(id: string, key: GroupKey)
    | ReceiverMoves(epoch: nat)
    | ReceiverGetsKey(key: GroupKey)
    | Deliver(wire: Wire, expected: Option<string>)

  ghost predicate Possible(net: Net, step: Step) {
    match step
    case Arrive(id) => id != "" && id !in net.senders
    case Send(id, _) => id in net.senders
    case SenderMoves(id, epoch) => id in net.senders && epoch > net.senders[id].tracker.epoch
    case SenderGetsKey(id, _) => id in net.senders
    case ReceiverMoves(epoch) => epoch > net.receiver.tracker.epoch
    case ReceiverGetsKey(_) => true
    case Deliver(wire, _) => wire.body.Noise? || exists f :: f in net.sealed && f.body == wire.body
  }

  /** Moving to a newer epoch drops the room key and resets the cryptor. */
  function Move(p: Party, epoch: nat): Party {
    Party(Reset(p.cryptor), Tracker(epoch, None))
  }

  function GetKey(p: Party, key: GroupKey): Party {
    p.(tracker := p.tracker.(roomKey := Some(key)))
  }

  function Apply(net: Net, step: Step): Net
    requires Possible(net, step)
  {
    match step
    case Arrive(id) =>
      net.(senders := net.senders[id := Party(NewCryptor(net.roomId, id, None, 256), Tracker(0, None))])
    case Send(id, plain) =>
      var p := net.senders[id];
      var r := Seal(p.cryptor, p.tracker, plain);
      var moved := net.(senders := net.senders[id := p.(cryptor := r.0)]);
      if r.1.Ok? then
        var record := Record(id, p.tracker.epoch, p.cryptor.counter, plain);
        assert p.tracker.roomKey.Some?;
        moved.(sealed := net.sealed + [SealedFrame(record, p.tracker.roomKey.value, r.1.value.body)])
      else moved
    case SenderMoves(id, epoch) => net.(senders := net.senders[id := Move(net.senders[id], epoch)])
    case SenderGetsKey(id, key) => net.(senders := net.senders[id := GetKey(net.senders[id], key)])
    case ReceiverMoves(epoch) => net.(receiver := Move(net.receiver, epoch))
    case ReceiverGetsKey(key) => net.(receiver := GetKey(net.receiver, key))
    case Deliver(wire, expected) =>
      var r := Open(net.receiver.cryptor, net.receiver.tracker, wire, expected);
      var moved := net.(receiver := net.receiver.(cryptor := r.0));
      if r.1.Ok? then
        assert wire.head.Some?;
        var h := wire.head.value;
        moved.(released := net.released + [Record(h.senderId, h.epoch, h.counter, r.1.value)])
      else moved
  }

  ghost predicate Legal(net: Net, steps: seq<Step>)
    decreases |steps|
  {
    steps == [] || (Possible(net, steps[0]) && Legal(Apply(net, steps[0]), steps[1..]))
  }

  ghost function After(net: Net, steps: seq<Step>): Net
    requires Legal(net, steps)
    decreases |steps|
  {
    if steps == [] then net else After(Apply(net, steps[0]), steps[1..])
  }

  function Initial(roomId: string, localId: string, remoteId: Option<string>, windowSize: nat): Net {
    Net(roomId, map[], Party(NewCryptor(roomId, localId, remoteId, windowSize), Tracker(0, None)), [], [])
  }

  // ---------------------------------------------------------------------------
  // Invariant
  // ---------------------------------------------------------------------------

  ghost predicate SameSlot(a: Record, b: Record) {
    a.sender == b.sender && a.epoch == b.epoch && a.counter == b.counter
  }

  function SlotBody(roomId: string, f: SealedFrame): Body {
    Cipher(DeriveFrameKey(f.key, f.record.epoch, f.record.sender, f.record.counter),
           FrameAad(roomId, f.record.epoch, f.record.sender, f.record.counter), f.record.plain)
  }

  /** A sealed frame's slot lies behind its sender. */
  ghost predicate Behind(r: Record, p: Party) {
    r.epoch < p.tracker.epoch || (r.epoch == p.tracker.epoch && r.counter < p.cryptor.counter)
  }

  ghost predicate SealedOk(net: Net) {
    && (forall id :: id in net.senders ==> net.senders[id].cryptor.localId == id && net.senders[id].cryptor.roomId == net.roomId)
    && (forall f :: f in net.sealed ==>
          f.body == SlotBody(net.roomId, f) && f.record.sender in net.senders && Behind(f.record, net.senders[f.record.sender]))
    && (forall i, j :: 0 <= i < j < |net.sealed| ==> !SameSlot(net.sealed[i].record, net.sealed[j].record))
  }

  /** The counters released for a sender in an epoch. */
  ghost function ReleasedCounters(released: seq<Record>, sender: string, epoch: nat): set<nat> {
    set r | r in released && r.sender == sender && r.epoch == epoch :: r.counter
  }

  ghost predicate ReleasedOk(net: Net) {
    && net.receiver.cryptor.roomId == net.roomId
    && (forall r :: r in net.released ==>
          r.epoch <= net.receiver.tracker.epoch && exists f :: f in net.sealed && f.record == r)
    && (forall i, j :: 0 <= i < j < |net.released| ==> !SameSlot(net.released[i], net.released[j]))
    && (if net.receiver.cryptor.windowSize < 1 then net.receiver.cryptor.windows == map[]
        else forall s :: Refines(View(net.receiver.cryptor, s), ReleasedCounters(net.released, s, net.receiver.tracker.epoch))
                         && View(net.receiver.cryptor, s).size == net.receiver.cryptor.windowSize)
  }

  ghost predicate Inv(net: Net) {
    SealedOk(net) && ReleasedOk(net)
  }

  /** Sealing spends a counter, so no frame sealed before sits in the new frame's slot. */
  lemma SendSealsAFreshSlot(net: Net, id: string, plain: Plain)
    requires SealedOk(net) && Possible(net, Send(id, plain))
    ensures SealedOk(Apply(net, Send(id, plain)))
  {
    hide DeriveFrameKey, FrameAad, Refines;
    var net' := Apply(net, Send(id, plain));
    if |net'.sealed| > |net.sealed| {
      var f := net'.sealed[|net.sealed|];
      assert f.body == SlotBody(net.roomId, f);
      forall g | g in net.sealed ensures !SameSlot(g.record, f.record) {
        assert Behind(g.record, net.senders[g.record.sender]);
      }
      forall g | g in net'.sealed ensures g in net.sealed || g == f {
      }
    }
  }

  lemma ReleasedIgnoresSenders(net: Net, net': Net)
    requires ReleasedOk(net) && net'.roomId == net.roomId && net'.receiver == net.receiver
    requires net'.released == net.released && net.sealed <= net'.sealed
    ensures ReleasedOk(net')
  {
    hide Refines, SameSlot;
    forall f | f in net.sealed ensures f in net'.sealed {
      assert net'.sealed[..|net.sealed|] == net.sealed;
    }
  }

  lemma SendKeeps(net: Net, id: string, plain: Plain)
    requires Inv(net) && Possible(net, Send(id, plain))
    ensures Inv(Apply(net, Send(id, plain)))
  {
    hide SealedOk, ReleasedOk, Seal;
    SendSealsAFreshSlot(net, id, plain);
    ReleasedIgnoresSenders(net, Apply(net, Send(id, plain)));
  }

  /** What a release tells: the frame is one that was sealed, in its own slot, and the slot was free. */
  lemma ReleaseIsAuthentic(net: Net, wire: Wire, expected: Option<string>)
    requires Inv(net) && Possible(net, Deliver(wire, expected))
    requires Open(net.receiver.cryptor, net.receiver.tracker, wire, expected).1.Ok?
    ensures
      var h := wire.head.value;
      var plain := Open(net.receiver.cryptor, net.receiver.tracker, wire, expected).1.value;
      && h.epoch == net.receiver.tracker.epoch
      && (exists f :: f in net.sealed && f.record == Record(h.senderId, h.epoch, h.counter, plain))
      && View(net.receiver.cryptor, h.senderId).WouldAccept(h.counter)
  {
    var h := wire.head.value;
    hide FrameAad, Refines;
    var f :| f in net.sealed && f.body == wire.body;
    var key := net.receiver.tracker.roomKey.value;
    assert f.body == SlotBody(net.roomId, f);
    FrameKeyInjective(f.key, f.record.epoch, f.record.sender, f.record.counter, key, h.epoch, h.senderId, h.counter);
    assert f.record == Record(h.senderId, h.epoch, h.counter, wire.body.plain);
  }

  lemma CountersGrow(released: seq<Record>, r: Record, sender: string, epoch: nat)
    ensures ReleasedCounters(released + [r], sender, epoch)
         == if r.sender == sender && r.epoch == epoch then ReleasedCounters(released, sender, epoch) + {r.counter}
            else ReleasedCounters(released, sender, epoch)
  {
    var grown := released + [r];
    assert grown[|released|] == r;
    forall x ensures x in grown <==> x in released || x == r {
    }
  }

  lemma DeliverKeeps(net: Net, wire: Wire, expected: Option<string>)
    requires Inv(net) && Possible(net, Deliver(wire, expected))
    ensures Inv(Apply(net, Deliver(wire, expected)))
  {
    hide DeriveFrameKey, FrameAad, Refines, SealedOk;
    var c, t := net.receiver.cryptor, net.receiver.tracker;
    var r := Open(c, t, wire, expected);
    var net' := Apply(net, Deliver(wire, expected));
    assert SealedOk(net') by { SealedIgnoresReceiver(net, net'); }
    if r.1.Err? {
      FailedOpenIndistinct(c, t, wire, expected);
      assert forall s :: View(r.0, s) == View(c, s);
    } else {
      ReleaseIsAuthentic(net, wire, expected);
      var h := wire.head.value;
      var record := Record(h.senderId, h.epoch, h.counter, r.1.value);
      forall s ensures Refines(View(r.0, s), ReleasedCounters(net'.released, s, t.epoch)) && View(r.0, s).size == c.windowSize {
        CountersGrow(net.released, record, s, t.epoch);
        AcceptRefines(View(c, h.senderId), ReleasedCounters(net.released, h.senderId, t.epoch), h.counter);
      }
      forall q | q in net.released ensures !SameSlot(q, record) {
        AnswersPerfectly(View(c, h.senderId), ReleasedCounters(net.released, h.senderId, t.epoch), h.counter);
      }
    }
  }

  lemma SealedIgnoresReceiver(net: Net, net': Net)
    requires SealedOk(net) && net' == net.(receiver := net'.receiver, released := net'.released)
    ensures SealedOk(net')
  {
    hide SlotBody;
  }

  lemma MoveKeeps(net: Net, epoch: nat)
    requires Inv(net) && Possible(net, ReceiverMoves(epoch))
    ensures Inv(Apply(net, ReceiverMoves(epoch)))
  {
    hide SlotBody;
    var net' := Apply(net, ReceiverMoves(epoch));
    forall s ensures ReleasedCounters(net'.released, s, epoch) == {} {
    }
  }

  lemma StepKeeps(net: Net, step: Step)
    requires Inv(net) && Possible(net, step)
    ensures Inv(Apply(net, step))
  {
    match step
    case Send(id, plain) => SendKeeps(net, id, plain);
    case Deliver(wire, expected) => DeliverKeeps(net, wire, expected);
    case ReceiverMoves(epoch) => MoveKeeps(net, epoch);
    case _ => hide SlotBody, Refines, ReleasedCounters;
  }

  lemma {:induction false} RunKeeps(net: Net, steps: seq<Step>)
    requires Inv(net) && Legal(net, steps)
    ensures Inv(After(net, steps))
    decreases |steps|
  {
    hide Inv, Possible, Apply;
    if steps != [] {
      StepKeeps(net, steps[0]);
      RunKeeps(Apply(net, steps[0]), steps[1..]);
    }
  }

  // ---------------------------------------------------------------------------
  // Theorems
  // ---------------------------------------------------------------------------

  ghost predicate Reachable(net: Net) {
    exists localId, remoteId, windowSize, steps ::
      && Legal(Initial(net.roomId, localId, remoteId, windowSize), steps)
      && After(Initial(net.roomId, localId, remoteId, windowSize), steps) == net
  }

  lemma ReachableInv(net: Net)
    requires Reachable(net)
    ensures Inv(net)
  {
    hide Legal, After;
    var localId, remoteId, windowSize, steps :|
      && Legal(Initial(net.roomId, localId, remoteId, windowSize), steps)
      && After(Initial(net.roomId, localId, remoteId, windowSize), steps) == net;
    var init := Initial(net.roomId, localId, remoteId, windowSize);
    forall s ensures ReleasedCounters([], s, 0) == {} {
    }
    assert Inv(init);
    RunKeeps(init, steps);
  }

  /**
   Over every run: what is released is what its named sender sealed in that epoch
   under that counter; nothing is released twice; and no sender ever seals two
   frames under one epoch and counter.
   */
  lemma AtMostOnceAuthentic(net: Net)
    requires Reachable(net)
    ensures forall r :: r in net.released ==> exists f :: f in net.sealed && f.record == r
    ensures forall i, j :: 0 <= i < j < |net.released| ==> !SameSlot(net.released[i], net.released[j])
    ensures forall i, j :: 0 <= i < j < |net.sealed| ==> !SameSlot(net.sealed[i].record, net.sealed[j].record)
  {
    hide Reachable;
    ReachableInv(net);
  }

  /**
   Exactly when a frame is released, in terms of perfect memory: everything the
   receiver has released for that sender in this epoch.
   */
  lemma ReleasedExactly(net: Net, wire: Wire, expected: Option<string>, plain: Plain)
    requires Reachable(net)
    ensures
      var t := net.receiver.tracker;
      Open(net.receiver.cryptor, t, wire, expected).1 == Ok(plain)
      <==>
      && wire.head.Some? && t.roomKey.Some? && plain != [] && net.receiver.cryptor.windowSize >= 1
      && var h := wire.head.value;
      && h.epoch == t.epoch && h.senderId != "" && (expected.None? || expected.value == h.senderId)
      && Acceptable(ReleasedCounters(net.released, h.senderId, t.epoch), net.receiver.cryptor.windowSize, h.counter)
      && wire.body == Cipher(DeriveFrameKey(t.roomKey.value, h.epoch, h.senderId, h.counter),
                             FrameAad(net.roomId, h.epoch, h.senderId, h.counter), plain)
  {
    hide DeriveFrameKey, FrameAad, SealedOk, Refines, Acceptable, Reachable;
    ReachableInv(net);
    if wire.head.Some? && net.receiver.cryptor.windowSize >= 1 {
      var h := wire.head.value;
      AnswersPerfectly(View(net.receiver.cryptor, h.senderId),
                       ReleasedCounters(net.released, h.senderId, net.receiver.tracker.epoch), h.counter);
    }
  }
}
