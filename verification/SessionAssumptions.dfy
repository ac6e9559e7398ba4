/**
 Exactly when sessions agree. Handlers must not be interrupted, the room's record
 must be kept, and either deliveries are prompt, or key sets come in order, every
 `start()` completes and every membership change bumps the epoch. The sessions that
 registered under the present record also agree across dropped records, if deliveries
 are prompt and every start draws a new private key. Where that fails there is a run
 whose sessions hold different keys in one epoch.
 */
module SessionAssumptions {
  import opened Common
  import opened Crypto
  import opened Utf16Order
  import opened SessionSpec
  import opened SessionSystem
  import opened SessionTheorems
  import opened SessionPrompt
  import opened SessionSettled
  import opened SessionConvergence
  import opened SessionRuns
  import SessionPublishing

  // ---------------------------------------------------------------------------
  // Two leaders in one epoch
  // ---------------------------------------------------------------------------

  /** `a`, joining an epoch in which `b` and `c` have drawn nothing. */
  function Late(e: nat): Session {
    Joiner(A, 1, e, BCA).(status := Registering)
  }

  /** `b` at epoch `e` with the key set in which it leads `c`. */
  function Leading(e: nat, status: Status): Session {
    Joiner(B, 2, e, BC).(status := status)
  }

  /** `a` joins, leads, and reaches only `b`. */
  lemma JoinsShared(rules: Rules, eager: bool) returns (sys: System)
    ensures Reachable(rules, sys, eager) && sys.roomId == "room"
    ensures
      var e := ThirdEpoch(eager);
      var fromA := SealFor(Late(e), Key(A, e), B);
      && sys.room == Room(eager, e, BCA, map[B := fromA], [fromA])
      && sys.live == {A, B, C} && sys.sessions.Keys == {A, B, C}
      && sys.sessions[B] == Joiner(B, 2, FirstEpoch(eager), KeySet([B], map[B := Pub(2)]))
      && sys.sessions[C] == Joiner(C, 3, SecondEpoch(eager), BC)
      && Announcement(SecondEpoch(eager), BC) in sys.announced && Announcement(e, BCA) in sys.announced
      && sys.earlier == []
  {
    Leaders();
    Letters();
    hide LeaderOf, Reachable, Start, SealFor;
    var s0 := TwoJoined(rules, eager);
    StartsLate(eager);
    sys := Joins(rules, s0, eager, A, 1, Env(0, {B}, true));
  }

  lemma StartsLate(eager: bool)
    ensures BC.Valid()
    ensures
      var e := ThirdEpoch(eager);
      var fromA := SealFor(Late(e), Key(A, e), B);
      var o := Start(NewSession("room", A), Room(eager, SecondEpoch(eager), BC, map[], []), 1, true, Env(0, {B}, true));
      o.room == Room(eager, e, BCA, map[B := fromA], [fromA])
  {
    Leaders();
    hide LeaderOf, Distribute, SealFor;
    RegisteredAreValid();
    var onlyB := Env(0, {B}, true);
    var room := Room(eager, SecondEpoch(eager), BC, map[], []);
    var joined := Register(room, A, Pub(1));
    var e := ThirdEpoch(eager);
    assert joined == Room(eager, e, BCA, map[], []) && BC.ids + [A] == BCA.ids;
    StartsLeading(room, A, 1, onlyB);
    SendsFirst(Late(e), joined, onlyB, B);
    SealedLabels(Late(e), Key(A, e), B);
  }

  /** What `a` alone has published. */
  function OneSealed(eager: bool, e: nat): Room {
    var fromA := SealFor(Late(e), Key(A, e), B);
    Room(eager, e, BCA, map[B := fromA], [fromA])
  }

  /** `b` handles, at epoch `e`, a key set that it leads. */
  lemma LeadsToo(s: Session, eager: bool, e: nat, epoch: nat, status: Status)
    requires s.id == B && BC.Valid() && AdoptKeySet(s, epoch, BC) == Leading(e, status)
    ensures
      OnKeySet(s, OneSealed(eager, e), epoch, BC, ALL)
        == Outcome(Install(WithLeaderKey(Leading(e, status), 0).(sealedSent := {C}), Key(B, e)),
                   Publish(OneSealed(eager, e), SealFor(Leading(e, status), Key(B, e), C)), false)
  {
    Leaders();
    hide LeaderOf, Distribute, SealFor, AdoptKeySet, OnKeySet;
    HearsLeading(s, OneSealed(eager, e), epoch, BC, ALL);
    SendsOne(Leading(e, status), OneSealed(eager, e), ALL, C);
  }

  /** Then both leaders have published. */
  lemma SecondLeader(rules: Rules, sys: System, eager: bool, epoch: nat, status: Status) returns (next: System)
    requires Reachable(rules, sys, eager) && sys.roomId == "room" && B in sys.sessions && B in sys.live && C in sys.sessions
    requires sys.room == OneSealed(eager, sys.room.epoch) && BC.Valid() && BCA.Valid()
    requires sys.sessions[B].id == B && AdoptKeySet(sys.sessions[B], epoch, BC) == Leading(sys.room.epoch, status)
    requires Possible(rules, sys, DeliverKeySet(B, Announcement(epoch, BC), ALL))
    ensures Reachable(rules, next, eager) && next.roomId == "room" && next.live == sys.live && next.earlier == sys.earlier
    ensures
      var e := sys.room.epoch;
      var fromA, fromB := SealFor(Late(e), Key(A, e), B), SealFor(Leading(e, status), Key(B, e), C);
      && next.room.sent == [fromA, fromB] && next.room.epoch == e && next.room.peers == BCA
      && B in next.sessions && next.sessions == sys.sessions[B := next.sessions[B]]
      && next.sessions[B] == Install(WithLeaderKey(Leading(e, status), 0).(sealedSent := {C}), Key(B, e))
  {
    hide LeaderOf, Reachable, OnKeySet, AdoptKeySet, Possible, SealFor;
    LeadsToo(sys.sessions[B], eager, sys.room.epoch, epoch, status);
    next := Hears(rules, sys, eager, B, Announcement(epoch, BC), ALL);
  }

  /** `c` opens what `b` sealed to it, and then `b` what `a` sealed. */
  lemma TwoKeys(rules: Rules, sys: System, eager: bool, status: Status) returns (next: System)
    requires Reachable(rules, sys, eager) && sys.roomId == "room" && !rules.prompt
    requires B in sys.sessions && C in sys.sessions && B in sys.live && C in sys.live
    requires
      var e := sys.room.epoch;
      var fromA, fromB := SealFor(Late(e), Key(A, e), B), SealFor(Leading(e, status), Key(B, e), C);
      && sys.room.sent == [fromA, fromB] && sys.room.peers == BCA && BCA.Valid()
      && sys.sessions[B] == Install(WithLeaderKey(Leading(e, status), 0).(sealedSent := {C}), Key(B, e))
      && sys.sessions[C] == Joiner(C, 3, sys.sessions[C].epoch, BC) && sys.sessions[C].epoch <= e
    ensures Reachable(rules, next, eager) && !Agree2(next) && next.live == sys.live && next.room.sent == sys.room.sent
    ensures Insider(next, B) && Insider(next, C) ==> !InsidersAgree(next)
  {
    Leaders();
    hide LeaderOf, Reachable, Agree2, InsidersAgree, SealFor, OpenSealed, RefreshKeySet, OnSealedKey;
    var e := sys.room.epoch;
    var fromA, fromB := SealFor(Late(e), Key(A, e), B), SealFor(Leading(e, status), Key(B, e), C);
    assert AllSent(sys)[|sys.earlier|] == fromA && AllSent(sys)[|sys.earlier| + 1] == fromB;
    SealedLabels(Leading(e, status), Key(B, e), C);
    SealedLabels(Late(e), Key(A, e), B);
    if sys.sessions[C].epoch == e {
      OpensNow(sys.sessions[C], sys.room, Leading(e, status), Key(B, e));
    } else {
      OpensLater(sys.sessions[C], sys.room, Leading(e, status), Key(B, e));
    }
    var mid := Receives(rules, sys, eager, C, fromB, ALL);
    assert mid.sessions[C].roomKey == Some(Key(B, e)) && mid.room == sys.room && mid.sessions[B] == sys.sessions[B];
    OpensStranger(mid.sessions[B], mid.room, Late(e), Key(A, e));
    next := Receives(rules, mid, eager, B, fromA, ALL);
    Disagree(next, B, C);
  }

  lemma RegisteredAreValid()
    ensures BC.Valid() && BCA.Valid()
  {
    assert A != B && B != C && A != C by { Leaders(); }
    PairIsValid(B, Pub(2), C, Pub(3));
    TripleIsValid(B, Pub(2), C, Pub(3), A, Pub(1));
  }

  // ---------------------------------------------------------------------------
  // Key sets out of order
  // ---------------------------------------------------------------------------

  /** All demands but the order of key sets. */
  function Unordered(relabels: bool): Rules {
    Rules(ordered := false, completes := true, relabels := relabels, atomic := true, prompt := false, keeps := true, anew := true)
  }

  /** `b` is told of `a`'s epoch, and then once more of the epoch in which it led `c` itself. */
  lemma OrderIsNeeded(relabels: bool) returns (sys: System)
    ensures Reachable(Unordered(relabels), sys, true) && !Agree2(sys) && !InsidersAgree(sys)
  {
    var rules := Unordered(relabels);
    Leaders();
    hide LeaderOf, Reachable, Distribute, Agree2, InsidersAgree, SealFor;
    var s0 := JoinsShared(rules, true);
    RegisteredAreValid();
    var s1 := Hears(rules, s0, true, B, Announcement(3, BCA), ALL);
    assert s1.sessions[B] == Joiner(B, 2, 3, BCA);
    assert AdoptKeySet(s1.sessions[B], 2, BC) == Leading(3, AwaitingKey);
    var s2 := SecondLeader(rules, s1, true, 2, AwaitingKey);
    sys := TwoKeys(rules, s2, true, AwaitingKey);
    KeptInsider(rules, sys, true, B);
    KeptInsider(rules, sys, true, C);
  }

  // ---------------------------------------------------------------------------
  // A server that bumps the epoch only when a blob is stored
  // ---------------------------------------------------------------------------

  /** All demands but promptness. */
  function Unhurried(relabels: bool): Rules {
    Rules(ordered := true, completes := true, relabels := relabels, atomic := true, prompt := false, keeps := true, anew := true)
  }

  /** `b` and `c` share epoch 0 with `a`; the key set without `a` reaches `b` late. */
  lemma EagerBumpIsNeeded(relabels: bool) returns (sys: System)
    ensures Reachable(Unhurried(relabels), sys, false) && !Agree2(sys) && !InsidersAgree(sys)
    ensures forall i, j :: 0 <= i < j < |sys.room.sent| ==>
              sys.room.sent[i].to != sys.room.sent[j].to || sys.room.sent[i].epoch != sys.room.sent[j].epoch
  {
    var rules := Unhurried(relabels);
    Leaders();
    hide LeaderOf, Reachable, Distribute, Agree2, InsidersAgree, SealFor;
    var s0 := JoinsShared(rules, false);
    RegisteredAreValid();
    assert AdoptKeySet(s0.sessions[B], 0, BC) == Leading(0, AwaitingKey);
    var s1 := SecondLeader(rules, s0, false, 0, AwaitingKey);
    SealedLabels(Late(0), Key(A, 0), B);
    SealedLabels(Leading(0, AwaitingKey), Key(B, 0), C);
    sys := TwoKeys(rules, s1, false, AwaitingKey);
    KeptInsider(rules, sys, false, B);
    KeptInsider(rules, sys, false, C);
  }

  // ---------------------------------------------------------------------------
  // A start() whose key-set request is refused after it registered
  // ---------------------------------------------------------------------------

  const AB := KeySet([A, B], map[A := Pub(1), B := Pub(2)])

  /** The registration goes through, the key set never comes: `start()` throws, and the session stays. */
  lemma JoinsUnanswered(rules: Rules, sys: System, id: PeerId, priv: nat) returns (next: System)
    requires Reachable(rules, sys, true) && !rules.completes && sys.roomId == "room"
    requires sys.room.peers.Valid() && sys.room.eager && id != "" && '|' !in id && id !in sys.live && id !in sys.room.peers.keys
    requires priv !in sys.books.drawn
    ensures Reachable(rules, next, true)
    ensures
      var keys := Registered(sys, id, priv);
      && next.room == Register(sys.room, id, Pub(priv)) && next.room.peers == keys && next.room.epoch == sys.room.epoch + 1
      && next.room.sent == sys.room.sent && next.room.sealed == map[] && next.room.eager
      && next.sessions == sys.sessions[id := Joiner(id, priv, sys.room.epoch + 1, EMPTY_KEYS).(status := Failed)]
      && next.live == sys.live + {id} && next.roomId == sys.roomId && next.earlier == sys.earlier
      && Announcement(next.room.epoch, keys) in next.announced
  {
    hide Reachable, OnKeySet;
    RegisterKeepsValid(sys.room, id, Pub(priv));
    next := Joins(rules, sys, true, id, priv, ALL.(refreshes := false));
  }

  /** `a` waits alone at epoch 1; `b` registered for epoch 2 but never got the key set. */
  lemma HalfStarted(rules: Rules) returns (sys: System)
    requires !rules.completes
    ensures Reachable(rules, sys, true) && sys.roomId == "room"
    ensures sys.room == Room(true, 2, AB, map[], []) && Announcement(2, AB) in sys.announced && sys.earlier == []
    ensures sys.live == {A, B} && sys.sessions.Keys == {A, B}
    ensures sys.sessions[A] == Joiner(A, 1, 1, KeySet([A], map[A := Pub(1)]))
    ensures sys.sessions[B] == Joiner(B, 2, 2, EMPTY_KEYS).(status := Failed)
  {
    Leaders();
    Letters();
    hide LeaderOf, Reachable, Register;
    var s0 := Begin(rules, true);
    assert s0.room.peers.ids == [];
    var s1 := JoinsAndWaits(rules, s0, true, A, 1, ALL);
    assert s1.room.peers.ids == [A] && [A] + [B] == [A, B];
    sys := JoinsUnanswered(rules, s1, B, 2);
    assert sys.room.peers.keys == AB.keys;
  }

  /** All demands but that a started session is told its key set. */
  function Incomplete(relabels: bool): Rules {
    Rules(ordered := true, completes := false, relabels := relabels, atomic := true, prompt := false, keeps := true, anew := true)
  }

  lemma CompletionIsNeeded(relabels: bool) returns (sys: System)
    ensures Reachable(Incomplete(relabels), sys, true) && !Agree2(sys) && !InsidersAgree(sys)
  {
    var rules := Incomplete(relabels);
    Leaders();
    hide LeaderOf, Reachable, Distribute, Agree2, InsidersAgree, SealFor, OpenSealed, Insider;
    var s0 := HalfStarted(rules);
    // epoch 2: a seals its key to b
    var t0 := AdoptKeySet(s0.sessions[A], 2, AB);
    SendsOne(t0, s0.room, ALL, B);
    var s1 := Hears(rules, s0, true, A, Announcement(2, AB), ALL);
    var envelope := SealFor(t0, Key(A, 2), B);
    assert s1.room.sent == [envelope];
    SealedLabels(t0, Key(A, 2), B);
    // epoch 3: a draws the next key
    var s2 := Then(rules, s1, true, Rotate);
    DistributesAll(AdoptKeySet(s2.sessions[A], 3, AB), s2.room, ALL);
    var s3 := Hears(rules, s2, true, A, Announcement(3, AB), ALL);
    assert s3.sessions[A].roomKey == Some(Key(A, 3)) && s3.sessions[A].epoch == 3;
    assert s3.room.sent[0] == envelope;
    // b fetches the key set of epoch 3 and then opens the blob of epoch 2
    var b := s3.sessions[B];
    assert b == s0.sessions[B];
    var refreshed := AdoptKeySet(b, 3, AB).(status := AwaitingKey);
    assert RefreshKeySet(b, s3.room, ALL) == Outcome(refreshed, s3.room, false);
    OpensSealed(refreshed, s3.room, t0, Key(A, 2));
    assert OnSealedKey(b, s3.room, envelope, false, ALL) == OpenSealed(refreshed, s3.room, envelope);
    sys := Receives(rules, s3, true, B, envelope, ALL);
    KeptInsider(rules, sys, true, A);
    KeptInsider(rules, sys, true, B);
    Disagree(sys, A, B);
  }

  // ---------------------------------------------------------------------------
  // Handlers that interleave
  // ---------------------------------------------------------------------------

  /** All demands but that handlers are not interrupted. */
  function Interruptible(relabels: bool): Rules {
    Rules(ordered := true, completes := true, relabels := relabels, atomic := false, prompt := true, keeps := true, anew := true)
  }

  /** `b` as it leads `c` in the epoch `c` joined. */
  function Leading2(eager: bool): Session {
    AdoptKeySet(Joiner(B, 2, FirstEpoch(eager), KeySet([B], map[B := Pub(2)])), SecondEpoch(eager), BC)
  }

  /** The leader of two gets through its only publish, and is interrupted there. */
  lemma PausesAfterOne(s: Session, room: Room, epoch: nat, keys: KeySet, env: Env, peer: PeerId)
    requires keys.Valid() && s.keypair.Some? && s.leaderKey.None? && s.roomKey.None? && s.sealedSent == {}
    requires epoch == room.epoch >= s.epoch && Pair(keys.ids, s.id, peer) && LeaderOf(keys.ids) == Some(s.id) && peer in env.accepts
    requires keys == room.peers && room.sealed == map[]
    ensures
      var t := AdoptKeySet(s, epoch, keys);
      var key := GroupKey(s.id, epoch, env.draw);
      && peer in t.keySet.keys
      && Published(s, room, epoch, keys, env)
         == Some((Outcome(WithLeaderKey(t, env.draw).(sealedSent := {peer}), Publish(room, SealFor(t, key, peer)), false), key))
  {
    hide DerivePairwise, SealGroupKey, LeaderOf, PublishFrom;
    var t := AdoptKeySet(s, epoch, keys);
    var m := WithLeaderKey(t, env.draw);
    assert s.id in keys.ids && peer in keys.ids;
    PublishesOne(m, room, m.leaderKey.value.key, env.accepts, peer);
    assert t.epoch == epoch && t.roomKey.None? && t.sealedSent == {};
  }

  /** `b`, leading `c`, has published its key for `c` and is interrupted before it sets it. */
  lemma Interrupted(rules: Rules, eager: bool) returns (sys: System)
    requires !rules.atomic
    ensures Reachable(rules, sys, eager) && sys.roomId == "room"
    ensures
      var e := SecondEpoch(eager);
      && sys.room.eager == eager && sys.room.epoch == e && sys.room.peers == BC && sys.room.sealed != map[]
      && sys.live == {B, C} && B in sys.sessions && B in sys.suspended && sys.suspended[B] == Key(B, e)
      && sys.sessions[B] == WithLeaderKey(Leading2(eager), 0).(sealedSent := {C}) && sys.books.drawn == {2, 3}
  {
    hide LeaderOf, Reachable, SealFor, Published;
    Leaders();
    var s0 := TwoJoined(rules, eager);
    var e := SecondEpoch(eager);
    PausesAfterOne(s0.sessions[B], s0.room, e, BC, ALL, C);
    SealedLabels(Leading2(eager), Key(B, e), C);
    sys := Then(rules, s0, eager, DeliverAndPause(B, Announcement(e, BC), ALL));
    assert C in sys.room.sealed;
  }

  /** `x` is suspended with an old key; `a` joins and leads the next epoch; `x` is told, and then resumes. */
  lemma ResumesLate(rules: Rules, sys: System, eager: bool, x: PeerId, key: GroupKey) returns (next: System)
    requires Reachable(rules, sys, eager) && sys.roomId == "room" && sys.room.peers == BC && sys.room.eager == eager
    requires !rules.atomic && rules.keeps && sys.room.sealed != map[] && 1 !in sys.books.drawn && A !in sys.live
    requires x != A && x in sys.live && x in sys.sessions && x in sys.suspended && sys.suspended[x] == key && key.minter != A
    requires sys.sessions[x].id == x && sys.sessions[x].epoch <= sys.room.epoch
    ensures Reachable(rules, next, eager) && !Agree2(next) && !InsidersAgree(next)
  {
    hide LeaderOf, Reachable, Distribute, Agree2, InsidersAgree, Insider, OnKeySet, Register;
    var s1 := TakesOver(rules, sys, eager);
    var e := s1.room.epoch;
    KeySetTouches(s1.sessions[x], s1.room, e, BCA, ALL);
    OnKeySetKeepsRoom(s1.sessions[x], s1.room, e, BCA, ALL);
    var s2 := Hears(rules, s1, eager, x, Announcement(e, BCA), ALL);
    assert s2.sessions[x].epoch == e && s2.suspended == s1.suspended && s2.sessions[A] == s1.sessions[A];
    next := Then(rules, s2, eager, Resume(x));
    KeptInsider(rules, next, eager, A);
    KeptInsider(rules, next, eager, x);
    Disagree(next, A, x);
  }

  /** `b` is interrupted between the publishes of a distribution and the setting of the key. */
  lemma AtomicityIsNeeded(relabels: bool, eager: bool) returns (sys: System)
    ensures Reachable(Interruptible(relabels), sys, eager) && !Agree2(sys) && !InsidersAgree(sys)
  {
    hide Reachable, Agree2, InsidersAgree, LeaderOf;
    Leaders();
    var s0 := Interrupted(Interruptible(relabels), eager);
    sys := ResumesLate(Interruptible(relabels), s0, eager, B, Key(B, SecondEpoch(eager)));
  }

  /** `c` is interrupted between opening its blob and setting the key. */
  lemma AtomicOpeningIsNeeded(relabels: bool, eager: bool) returns (sys: System)
    ensures Reachable(Interruptible(relabels), sys, eager) && !Agree2(sys) && !InsidersAgree(sys)
  {
    hide Reachable, Agree2, InsidersAgree, LeaderOf, SealFor, OpenSealed, RefreshKeySet, OnSealedKey;
    Leaders();
    Letters();
    var rules := Interruptible(relabels);
    var e := SecondEpoch(eager);
    var s0 := Paired(rules, eager);
    var envelope := SealFor(Leading2(eager), Key(B, e), C);
    SealedLabels(Leading2(eager), Key(B, e), C);
    assert AllSent(s0)[|s0.earlier|] == envelope;
    OpensNow(s0.sessions[C], s0.room, Leading2(eager), Key(B, e));
    var s1 := Then(rules, s0, eager, OpenAndPause(C, envelope, ALL));
    sys := ResumesLate(rules, s1, eager, C, Key(B, e));
  }

  // ---------------------------------------------------------------------------
  // A server that forgets an emptied room
  // ---------------------------------------------------------------------------

  /** All demands but that the record of an emptied room is kept. */
  function Forgetful(relabels: bool): Rules {
    Rules(ordered := true, completes := true, relabels := relabels, atomic := true, prompt := true, keeps := false, anew := true)
  }

  /** `b` leads `c` and holds their key. */
  lemma Paired(rules: Rules, eager: bool) returns (sys: System)
    ensures Reachable(rules, sys, eager) && sys.roomId == "room"
    ensures
      var e := SecondEpoch(eager);
      && sys.room.eager == eager && sys.room.peers == BC && BC.Valid() && sys.room.epoch == e && sys.live == {B, C}
      && sys.room.sealed != map[] && sys.earlier == [] && sys.books == Books({2, 3}, {B, C})
      && B in sys.sessions && C in sys.sessions
      && sys.room.sent == [SealFor(Leading2(eager), Key(B, e), C)]
      && sys.sessions[B].roomKey == Some(Key(B, e)) && sys.sessions[B].epoch == e
      && sys.sessions[C] == Joiner(C, 3, e, BC)
  {
    hide LeaderOf, Reachable, SealFor, Distribute;
    Leaders();
    var s0 := TwoJoined(rules, eager);
    var e := SecondEpoch(eager);
    SendsOne(Leading2(eager), s0.room, ALL, C);
    SealedLabels(Leading2(eager), Key(B, e), C);
    sys := Hears(rules, s0, eager, B, Announcement(e, BC), ALL);
    assert C in sys.room.sealed;
  }

  /** The server removes `b` and `c` and drops the empty room; the sessions are not told. */
  lemma Emptied(rules: Rules, s1: System, eager: bool) returns (sys: System)
    requires !rules.keeps && Reachable(rules, s1, eager) && s1.room.peers == BC && BC.Valid() && s1.room.eager == eager
    ensures Reachable(rules, sys, eager) && sys.roomId == s1.roomId && sys.live == s1.live && sys.sessions == s1.sessions
    ensures sys.room == Room(eager, 0, EMPTY_KEYS, map[], []) && sys.earlier == AllSent(s1) && s1.announced <= sys.announced
    ensures sys.books == Books(s1.books.drawn, {})
  {
    hide Reachable, LeaderOf, Without;
    assert B != C by { Leaders(); }
    DroppedOne(s1.room);
    OneLeft();
    var s2 := Drops(rules, s1, eager, B);
    DroppedAll(s2.room);
    var s3 := Drops(rules, s2, eager, C);
    sys := Restarts(rules, s3, eager);
  }

  lemma OneLeft()
    ensures KeySet([C], map[C := Pub(3)]).Valid() && EMPTY_KEYS.Valid()
  {}

  lemma DroppedOne(room: Room)
    requires room.peers == BC && B != C
    ensures Remove(room, B).peers == KeySet([C], map[C := Pub(3)])
  {
    var x, y := B, C;
    LeavesOne(x, y);
    assert map[x := Pub(2), y := Pub(3)] - {x} == map[y := Pub(3)];
  }

  lemma LeavesOne(x: PeerId, y: PeerId)
    requires x != y
    ensures Without([x, y], x) == [y]
  {
    assert [x, y][1..] == [y] && [y][1..] == [];
    assert Without([y], x) == [y] + Without([], x);
  }

  lemma DroppedAll(room: Room)
    requires room.peers == KeySet([C], map[C := Pub(3)])
    ensures Remove(room, C).peers == EMPTY_KEYS
  {
    assert [C][1..] == [] && Without([C], C) == [];
    assert map[C := Pub(3)] - {C} == map[];
  }

  const AC := KeySet([A, C], map[A := Pub(11), C := Pub(13)])

  /** `c` leaves, and is back in the new room, which `a` leads; `b` never left. */
  lemma JoinedAnew(relabels: bool, eager: bool) returns (sys: System)
    ensures Reachable(Forgetful(relabels), sys, eager) && sys.roomId == "room" && AC.Valid()
    ensures
      var e := SecondEpoch(eager);
      && sys.room == Room(eager, e, AC, map[], []) && {A, C} <= sys.live && Announcement(e, AC) in sys.announced
      && A in sys.sessions && sys.sessions[A] == Joiner(A, 11, FirstEpoch(eager), KeySet([A], map[A := Pub(11)]))
      && B in sys.sessions && sys.sessions[B].roomKey == Some(Key(B, e)) && sys.sessions[B].epoch == e
  {
    var rules := Forgetful(relabels);
    Leaders();
    Letters();
    hide LeaderOf, Reachable, Distribute, SealFor;
    var paired := Paired(rules, eager);
    var s0 := Emptied(rules, paired, eager);
    NobodyIsValid();
    var s1 := Departs(rules, s0, eager, C);
    sys := TwoJoin(rules, s1, eager, A, 11, C, 13);
  }

  /**
   Two peers lead a new room to the epoch in which `b`, which never left, still holds the old
   room's key.
   */
  lemma KeepingIsNeeded(relabels: bool, eager: bool) returns (sys: System)
    ensures Reachable(Forgetful(relabels), sys, eager) && !Agree2(sys)
  {
    var rules := Forgetful(relabels);
    Leaders();
    hide LeaderOf, Reachable, Distribute, Agree2, OnKeySet;
    var s0 := JoinedAnew(relabels, eager);
    var e := SecondEpoch(eager);
    HearsLeading(s0.sessions[A], s0.room, e, AC, ALL);
    DistributesAll(AdoptKeySet(s0.sessions[A], e, AC), s0.room, ALL);
    sys := Hears(rules, s0, eager, A, Announcement(e, AC), ALL);
    assert sys.sessions[A].roomKey == Some(Key(A, e)) && sys.sessions[A].epoch == e;
    assert sys.sessions[B] == s0.sessions[B];
    Disagree(sys, A, B);
  }

  function Couple(p: nat, q: nat): KeySet {
    KeySet([B, C], map[B := Pub(p), C := Pub(q)])
  }

  /** `b` and `c` are back in a new room, in which they come to an epoch number they had before. */
  lemma BothBack(rules: Rules, eager: bool, p: nat, q: nat) returns (sys: System)
    requires !rules.keeps && p != q && (rules.anew ==> p !in {2, 3} && q !in {2, 3})
    ensures Reachable(rules, sys, eager) && sys.roomId == "room" && sys.live == {B, C} && sys.books.admitted == {B, C}
    ensures
      var e := SecondEpoch(eager);
      var keys := Couple(p, q);
      && sys.room == Room(eager, e, keys, map[], []) && keys.Valid() && B in sys.sessions && C in sys.sessions
      && Announcement(e, keys) in sys.announced && sys.earlier == [SealFor(Leading2(eager), Key(B, e), C)]
      && sys.sessions[B] == Joiner(B, p, FirstEpoch(eager), KeySet([B], map[B := Pub(p)]))
      && sys.sessions[C] == Joiner(C, q, e, keys)
  {
    Leaders();
    Letters();
    hide LeaderOf, Reachable, Distribute, SealFor;
    var paired := Paired(rules, eager);
    var s0 := Emptied(rules, paired, eager);
    NobodyIsValid();
    var s1 := Departs(rules, s0, eager, C);
    var s2 := Departs(rules, s1, eager, B);
    sys := TwoJoin(rules, s2, eager, B, p, C, q);
  }

  /** `b` leads again, with another draw. */
  lemma LeadsAgain(rules: Rules, eager: bool, p: nat, q: nat) returns (sys: System)
    requires !rules.keeps && p != q && (rules.anew ==> p !in {2, 3} && q !in {2, 3})
    ensures Reachable(rules, sys, eager) && sys.roomId == "room" && sys.live == {B, C} && sys.books.admitted == {B, C}
    ensures
      var e := SecondEpoch(eager);
      var keys := Couple(p, q);
      && sys.room.epoch == e && sys.room.peers == keys && keys.Valid() && B in sys.sessions && C in sys.sessions
      && sys.earlier == [SealFor(Leading2(eager), Key(B, e), C)]
      && (exists again :: Again(again, p, e, keys) && sys.room.sent == [SealFor(again, GroupKey(B, e, 1), C)])
      && sys.sessions[B].roomKey == Some(GroupKey(B, e, 1)) && sys.sessions[B].epoch == e
      && sys.sessions[C] == Joiner(C, q, e, keys)
  {
    Leaders();
    hide LeaderOf, Reachable, Distribute, SealFor, OnKeySet;
    var e := SecondEpoch(eager);
    var keys := Couple(p, q);
    var s0 := BothBack(rules, eager, p, q);
    var again := AdoptKeySet(s0.sessions[B], e, keys);
    HearsLeading(s0.sessions[B], s0.room, e, keys, ALL.(draw := 1));
    SendsOne(again, s0.room, ALL.(draw := 1), C);
    SealedLabels(again, GroupKey(B, e, 1), C);
    sys := Hears(rules, s0, eager, B, Announcement(e, keys), ALL.(draw := 1));
    assert Again(again, p, e, keys) && sys.room.sent == [SealFor(again, GroupKey(B, e, 1), C)];
  }

  predicate Again(s: Session, p: nat, e: nat, keys: KeySet) {
    s.id == B && s.roomId == "room" && s.keypair == Some(p) && s.epoch == e && s.keySet == keys && C in keys.keys
  }

  /** The same peer, in the old room and in the new one, publishes two keys under one epoch number. */
  lemma KeepingIsNeededBySenders(relabels: bool, eager: bool) returns (sys: System)
    ensures Reachable(Forgetful(relabels), sys, eager) && !SessionPublishing.OneKeyPerSender(AllSent(sys))
  {
    hide LeaderOf, Reachable, SealFor;
    sys := LeadsAgain(Forgetful(relabels), eager, 12, 13);
    var e := SecondEpoch(eager);
    var keys := Couple(12, 13);
    var again :| Again(again, 12, e, keys) && sys.room.sent == [SealFor(again, GroupKey(B, e, 1), C)];
    SealedLabels(Leading2(eager), Key(B, e), C);
    SealedLabels(again, GroupKey(B, e, 1), C);
    assert AllSent(sys)[0] == sys.earlier[0] && AllSent(sys)[1] == sys.room.sent[0];
  }

  /** All demands but a kept record and new keypairs. */
  function Stale(relabels: bool): Rules {
    Rules(ordered := true, completes := true, relabels := relabels, atomic := true, prompt := true, keeps := false, anew := false)
  }

  /** With the keypairs of the old room, `c` opens a blob of the old room in the new one. */
  lemma NewKeypairsAreNeeded(relabels: bool, eager: bool) returns (sys: System)
    ensures Reachable(Stale(relabels), sys, eager) && !InsidersAgree(sys)
  {
    Leaders();
    Letters();
    hide LeaderOf, Reachable, SealFor, OnSealedKey, InsidersAgree, Agree2;
    var rules := Stale(relabels);
    var s0 := LeadsAgain(rules, eager, 2, 3);
    var e := SecondEpoch(eager);
    var former := s0.earlier[0];
    SealedLabels(Leading2(eager), Key(B, e), C);
    OpensNow(s0.sessions[C], s0.room, Leading2(eager), Key(B, e));
    assert AllSent(s0)[0] == former;
    sys := Receives(rules, s0, eager, C, former, ALL);
    Disagree(sys, B, C);
  }

  // ---------------------------------------------------------------------------
  // Key sets that outlive their record
  // ---------------------------------------------------------------------------

  /** All demands but promptness and a kept record. */
  function Outdated(relabels: bool): Rules {
    Rules(ordered := true, completes := true, relabels := relabels, atomic := true, prompt := false, keeps := false, anew := true)
  }

  const BDC := KeySet([B, D, C], map[B := Pub(12), D := Pub(14), C := Pub(13)])
  const BDCA := KeySet([B, D, C, A], map[B := Pub(12), D := Pub(14), C := Pub(13), A := Pub(11)])

  /** In an earlier record the key set of `b` and `c` was announced for epoch 4; nobody is left. */
  lemma AnnouncedOnce(rules: Rules) returns (sys: System)
    requires !rules.keeps
    ensures Reachable(rules, sys, true) && sys.roomId == "room" && sys.live == {}
    ensures sys.room == Room(true, 0, EMPTY_KEYS, map[], []) && Announcement(4, BC) in sys.announced && sys.books == Books({2, 3}, {})
  {
    Leaders();
    hide LeaderOf, Reachable;
    var s0 := TwoJoined(rules, true);
    RegisteredAreValid();
    NobodyIsValid();
    var s1 := Rotates(rules, s0, true);
    var s2 := Rotates(rules, s1, true);
    var s3 := Emptied(rules, s2, true);
    var s4 := Departs(rules, s3, true, B);
    sys := Departs(rules, s4, true, C);
  }

  /** `b`, `d` and `c` join a new room. */
  lemma ThreeAgain(rules: Rules) returns (sys: System)
    requires !rules.keeps
    ensures Reachable(rules, sys, true) && sys.roomId == "room" && sys.live == {B, C, D} && sys.books == Books({2, 3, 12, 13, 14}, {B, C, D})
    ensures sys.room == Room(true, 3, BDC, map[], []) && BDC.Valid() && Announcement(4, BC) in sys.announced
    ensures B in sys.sessions && sys.sessions[B] == Joiner(B, 12, 1, KeySet([B], map[B := Pub(12)]))
    ensures D in sys.sessions && sys.sessions[D] == Joiner(D, 14, 2, KeySet([B, D], map[B := Pub(12), D := Pub(14)]))
  {
    Leaders();
    Letters();
    hide LeaderOf, Reachable, Register;
    var s0 := AnnouncedOnce(rules);
    var s1 := TwoJoin(rules, s0, true, B, 12, D, 14);
    var keys := KeySet([B, D], map[B := Pub(12), D := Pub(14)]);
    assert s1.room.peers == keys && keys.ids + [C] == BDC.ids;
    sys := JoinsAndWaits(rules, s1, true, C, 13, ALL);
    assert sys.room.peers == BDC;
    assert sys.room == Room(true, 3, BDC, sys.room.sealed, sys.room.sent);
  }

  /** The leader of four serves the first two and is refused the third. */
  lemma SendsTwo(s: Session, room: Room, env: Env)
    requires s.id == A && s.keySet == BDCA == room.peers && BDCA.Valid() && s.keypair.Some? && s.epoch == room.epoch
    requires s.sealedSent == {} && s.leaderKey.None? && env.accepts == {B, D} && room.sealed == map[]
    ensures
      var key := GroupKey(A, s.epoch, env.draw);
      var toB, toD := SealFor(s, key, B), SealFor(s, key, D);
      Distribute(s, room, env)
        == Outcome(WithLeaderKey(s, env.draw).(sealedSent := {B, D}), Publish(Publish(room, toB), toD), true)
  {
    Leaders();
    hide SealFor, PublishFrom, LeaderOf;
    var m := WithLeaderKey(s, env.draw);
    var key := m.leaderKey.value.key;
    var toB, toD := SealFor(m, key, B), SealFor(m, key, D);
    SealedAlike(m, s, key, B);
    SealedAlike(m, s, key, D);
    var one, room1 := m.(sealedSent := m.sealedSent + {B}), Publish(room, toB);
    SealedAlike(one, m, key, D);
    SealedLabels(m, key, B);
    SealedLabels(m, key, D);
    TakesNext(m, room, key, 0, env.accepts);
    TakesNext(one, room1, key, 1, env.accepts);
    assert one.sealedSent + {D} == {B, D};
    StopsAt(m.(sealedSent := {B, D}), Publish(room1, toD), key, 2, env.accepts);
  }

  lemma SealedAlike(s: Session, t: Session, key: GroupKey, peer: PeerId)
    requires t.keypair.Some? && peer in t.keySet.keys
    requires s == t.(sealedSent := s.sealedSent, leaderKey := s.leaderKey)
    ensures SealFor(s, key, peer) == SealFor(t, key, peer)
  {}

  lemma TakesNext(s: Session, room: Room, key: GroupKey, i: nat, accepts: set<PeerId>)
    requires s.keypair.Some? && s.keySet.Valid() && i < |s.keySet.ids| && s.epoch == room.epoch && s.id in room.peers.keys
    requires
      var peer := s.keySet.ids[i];
      peer != s.id && peer !in s.sealedSent && peer in accepts && peer in room.peers.keys && peer !in room.sealed
    ensures
      var peer := s.keySet.ids[i];
      PublishFrom(s, room, key, i, accepts)
        == PublishFrom(s.(sealedSent := s.sealedSent + {peer}), Publish(room, SealFor(s, key, peer)), key, i + 1, accepts)
  {
    hide DerivePairwise, SealGroupKey;
  }

  lemma StopsAt(s: Session, room: Room, key: GroupKey, i: nat, accepts: set<PeerId>)
    requires s.keypair.Some? && s.keySet.Valid() && i < |s.keySet.ids|
    requires
      var peer := s.keySet.ids[i];
      peer != s.id && peer !in s.sealedSent && peer !in accepts
    ensures PublishFrom(s, room, key, i, accepts) == Outcome(s, room, true)
  {
    hide SealFor;
  }

  /** `a` joins and leads epoch 4, and serves `b` and `d`. */
  lemma ServesTwo(rules: Rules) returns (sys: System)
    requires !rules.keeps
    ensures Reachable(rules, sys, true) && sys.roomId == "room" && {B, D} <= sys.live && {B, D} <= sys.books.admitted
    ensures
      var lead := Joiner(A, 11, 4, BDCA).(status := Registering);
      var toB, toD := SealFor(lead, Key(A, 4), B), SealFor(lead, Key(A, 4), D);
      && sys.room == Room(true, 4, BDCA, map[B := toB, D := toD], [toB, toD]) && BDCA.Valid()
    ensures Announcement(4, BC) in sys.announced
    ensures B in sys.sessions && sys.sessions[B] == Joiner(B, 12, 1, KeySet([B], map[B := Pub(12)]))
    ensures D in sys.sessions && sys.sessions[D] == Joiner(D, 14, 2, KeySet([B, D], map[B := Pub(12), D := Pub(14)]))
  {
    Leaders();
    Letters();
    hide LeaderOf, Reachable, Start, SealFor;
    var s0 := ThreeAgain(rules);
    StartsFourth();
    sys := Joins(rules, s0, true, A, 11, Env(0, {B, D}, true));
  }

  lemma StartsFourth()
    requires BDC.Valid()
    ensures
      var lead := Joiner(A, 11, 4, BDCA).(status := Registering);
      var toB, toD := SealFor(lead, Key(A, 4), B), SealFor(lead, Key(A, 4), D);
      var o := Start(NewSession("room", A), Room(true, 3, BDC, map[], []), 11, true, Env(0, {B, D}, true));
      BDCA.Valid() && o.room == Room(true, 4, BDCA, map[B := toB, D := toD], [toB, toD])
  {
    Leaders();
    hide LeaderOf, Distribute, SealFor;
    var room := Room(true, 3, BDC, map[], []);
    var env := Env(0, {B, D}, true);
    RegisterKeepsValid(room, A, Pub(11));
    var joined := Register(room, A, Pub(11));
    assert joined == Room(true, 4, BDCA, map[], []) && BDC.ids + [A] == BDCA.ids;
    StartsLeading(room, A, 11, env);
    var lead := Newcomer(joined, A, 11);
    SendsTwo(lead, joined, env);
    SealedLabels(lead, Key(A, 4), B);
    SealedLabels(lead, Key(A, 4), D);
  }

  /** The old key set of epoch 4 makes `b` a second leader of the new epoch 4. */
  lemma OutdatedLeader(rules: Rules) returns (sys: System)
    requires !rules.keeps && !rules.prompt
    ensures Reachable(rules, sys, true) && sys.roomId == "room" && {B, D} <= sys.live && {B, D} <= sys.books.admitted
    ensures
      var lead := Joiner(A, 11, 4, BDCA).(status := Registering);
      && sys.room.epoch == 4 && sys.room.peers == BDCA && BDCA.Valid() && SealFor(lead, Key(A, 4), D) in sys.room.sent
    ensures B in sys.sessions && sys.sessions[B].epoch == 4 && sys.sessions[B].roomKey == Some(Key(B, 4))
    ensures D in sys.sessions && sys.sessions[D] == Joiner(D, 14, 2, KeySet([B, D], map[B := Pub(12), D := Pub(14)]))
  {
    Leaders();
    hide LeaderOf, Reachable, Distribute, SealFor;
    var s0 := ServesTwo(rules);
    var lead := Joiner(A, 11, 4, BDCA).(status := Registering);
    var toD := SealFor(lead, Key(A, 4), D);
    assert s0.room.sent[1] == toD;
    var b := AdoptKeySet(s0.sessions[B], 4, BC);
    SendsOne(b, s0.room, ALL, C);
    sys := Hears(rules, s0, true, B, Announcement(4, BC), ALL);
    assert sys.room.sent[1] == toD;
  }

  lemma PromptnessIsNeeded(relabels: bool) returns (sys: System)
    ensures Reachable(Outdated(relabels), sys, true) && !InsidersAgree(sys)
  {
    Leaders();
    Letters();
    hide LeaderOf, Reachable, SealFor, OnSealedKey, InsidersAgree, Agree2;
    var rules := Outdated(relabels);
    var s0 := OutdatedLeader(rules);
    var lead := Joiner(A, 11, 4, BDCA).(status := Registering);
    var toD := SealFor(lead, Key(A, 4), D);
    SealedLabels(lead, Key(A, 4), D);
    OpensLater(s0.sessions[D], s0.room, lead, Key(A, 4));
    assert toD in AllSent(s0) by { assert AllSent(s0)[|s0.earlier|..] == s0.room.sent; }
    sys := Receives(rules, s0, true, D, toD, ALL);
    Disagree(sys, B, D);
  }

  // ---------------------------------------------------------------------------
  // A member that is back from an earlier record
  // ---------------------------------------------------------------------------

  /** `x` is alone in a room that has rotated three times since. */
  lemma RotatedThrice(rules: Rules, eager: bool, x: PeerId) returns (sys: System)
    requires x != "" && '|' !in x
    ensures Reachable(rules, sys, eager) && sys.roomId == "room" && sys.live == {x} && sys.books.drawn == {2}
    ensures
      var keys := KeySet([x], map[x := Pub(2)]);
      && sys.room == Room(eager, FirstEpoch(eager) + 3, keys, map[], []) && keys.Valid() && sys.earlier == []
      && Current(sys) in sys.announced
      && sys.sessions.Keys == {x} && sys.sessions[x] == Joiner(x, 2, FirstEpoch(eager), keys)
  {
    hide LeaderOf, Reachable, Apply, Possible, Register;
    var s0 := Alone(rules, eager, x);
    var s1 := Rotates(rules, s0, eager);
    var s2 := Rotates(rules, s1, eager);
    sys := Rotates(rules, s2, eager);
  }

  lemma Alone(rules: Rules, eager: bool, x: PeerId) returns (sys: System)
    requires x != "" && '|' !in x
    ensures Reachable(rules, sys, eager) && sys.roomId == "room" && sys.live == {x} && sys.books.drawn == {2}
    ensures
      var keys := KeySet([x], map[x := Pub(2)]);
      && sys.room == Room(eager, FirstEpoch(eager), keys, map[], []) && keys.Valid() && sys.earlier == []
      && sys.sessions == map[x := Joiner(x, 2, FirstEpoch(eager), keys)]
  {
    hide LeaderOf, Reachable, Register;
    var s0 := Begin(rules, eager);
    assert s0.room.peers.ids == [] && [] + [x] == [x];
    sys := JoinsAndWaits(rules, s0, eager, x, 2, ALL);
    assert sys.room.peers == KeySet([x], map[x := Pub(2)]);
    assert sys.room == Room(eager, FirstEpoch(eager), sys.room.peers, map[], []);
  }

  /** `x` is told, leaves, and is back with a new keypair in a new room. */
  lemma Returns(rules: Rules, eager: bool, x: PeerId) returns (sys: System)
    requires !rules.keeps && x != "" && '|' !in x
    ensures Reachable(rules, sys, eager) && sys.roomId == "room" && sys.live == {x} && sys.books.drawn == {2, 12}
    ensures
      var keys := KeySet([x], map[x := Pub(12)]);
      && sys.room == Room(eager, FirstEpoch(eager), keys, map[], []) && keys.Valid() && sys.earlier == []
      && sys.sessions.Keys == {x} && sys.sessions[x] == Joiner(x, 12, FirstEpoch(eager) + 3, keys)
  {
    hide LeaderOf, Reachable, Distribute, Apply;
    var e := FirstEpoch(eager) + 3;
    var s0 := RotatedThrice(rules, eager, x);
    var s1 := Hears(rules, s0, eager, x, Current(s0), ALL);
    assert s1.sessions[x] == Joiner(x, 2, e, s0.room.peers);
    var s2 := Departs(rules, s1, eager, x);
    var s3 := Drops(rules, s2, eager, x);
    DroppedLast(s2.room, x);
    NobodyIsValid();
    var s4 := Restarts(rules, s3, eager);
    assert s4.sessions[x] == NewSession("room", x).(epoch := e) && s4.earlier == [];
    sys := BackAgain(rules, s4, eager, x, e);
  }

  lemma NobodyIsValid()
    ensures EMPTY_KEYS.Valid()
  {}

  lemma DroppedLast(room: Room, x: PeerId)
    requires room.peers == KeySet([x], map[x := Pub(2)])
    ensures Remove(room, x).peers == EMPTY_KEYS
  {
    assert [x][1..] == [] && Without([x], x) == [];
    assert map[x := Pub(2)] - {x} == map[];
  }

  /** `start()` of a session whose epoch is ahead, in an empty room. */
  lemma StartsAhead(eager: bool, x: PeerId, epoch: nat)
    requires epoch >= FirstEpoch(eager) && EMPTY_KEYS.Valid()
    ensures
      var keys := KeySet([x], map[x := Pub(12)]);
      && keys.Valid()
      && Start(NewSession("room", x).(epoch := epoch), Room(eager, 0, EMPTY_KEYS, map[], []), 12, true, ALL)
         == Outcome(Joiner(x, 12, epoch, keys), Room(eager, FirstEpoch(eager), keys, map[], []), false)
  {
    hide LeaderOf, Distribute;
    assert [] + [x] == [x];
  }

  lemma BackAgain(rules: Rules, sys: System, eager: bool, x: PeerId, epoch: nat) returns (next: System)
    requires Reachable(rules, sys, eager) && sys.roomId == "room" && sys.live == {} && x in sys.sessions && sys.sessions.Keys == {x}
    requires sys.room == Room(eager, 0, EMPTY_KEYS, map[], []) && sys.earlier == [] && sys.books.drawn == {2}
    requires epoch >= FirstEpoch(eager) && sys.sessions[x] == NewSession("room", x).(epoch := epoch)
    ensures Reachable(rules, next, eager) && next.roomId == "room" && next.live == {x} && next.books.drawn == {2, 12}
    ensures
      var keys := KeySet([x], map[x := Pub(12)]);
      && next.room == Room(eager, FirstEpoch(eager), keys, map[], []) && keys.Valid() && next.earlier == []
      && next.sessions.Keys == {x} && next.sessions[x] == Joiner(x, 12, epoch, keys)
  {
    hide Reachable, Start;
    NobodyIsValid();
    StartsAhead(eager, x, epoch);
    next := Then(rules, sys, eager, Join(x, 12, true, ALL));
  }

  /**
   The returning member is not the leader: the newcomer leads and publishes for it, but in an
   epoch that the member takes for an old one. No schedule of deliveries brings them together.
   */
  lemma ReturningMemberIsAhead(relabels: bool, eager: bool) returns (sys: System, envelope: Envelope)
    ensures Assembled(Forgetful(relabels), sys, eager) && sys.room.peers.Valid()
    ensures C in sys.sessions && C in sys.room.peers.keys
    ensures envelope in sys.room.sent && envelope.to == C && envelope.epoch == sys.room.epoch && sys.sessions[C].roomKey.None?
    ensures forall env :: OnSealedKey(sys.sessions[C], sys.room, envelope, false, env)
                          == SealedOutcome(sys.sessions[C], sys.room, StaleEpoch)
    ensures forall steps :: Legal(Forgetful(relabels), sys, steps) && AllQuiet(steps)
                            ==> !Converged(After(Forgetful(relabels), sys, steps))
  {
    Leaders();
    Letters();
    hide LeaderOf, Reachable, Distribute, SealFor, Register, Legal, After, Converged;
    var rules := Forgetful(relabels);
    var s0 := Returns(rules, eager, C);
    RegisterAdds(s0, B, 13);
    assert s0.room.peers.ids + [B] == [C, B];
    var joined := Register(s0.room, B, Pub(13));
    StartsLeading(s0.room, B, 13, ALL);
    var lead := Newcomer(joined, B, 13);
    SendsOne(lead, joined, ALL, C);
    envelope := SealFor(lead, Key(B, joined.epoch), C);
    SealedLabels(lead, Key(B, joined.epoch), C);
    sys := Joins(rules, s0, eager, B, 13, ALL);
    assert sys.room.sent == [envelope];
    assert sys.sessions[C].epoch > sys.room.epoch;
    assert Together(sys);
    ConvergesExactly(rules, sys, eager);
  }

  lemma RegisterAdds(sys: System, id: PeerId, priv: nat)
    requires sys.room.sealed == map[] && sys.room.sent == [] && id !in sys.room.peers.keys
    requires sys.room.epoch == FirstEpoch(sys.room.eager)
    ensures
      var joined := Register(sys.room, id, Pub(priv));
      && joined == Room(sys.room.eager, SecondEpoch(sys.room.eager), Registered(sys, id, priv), map[], [])
  {}

  /** The returning member leads: the server refuses what it publishes, and nobody else will. */
  lemma ReturningLeaderIsAhead(relabels: bool, eager: bool) returns (sys: System)
    ensures Assembled(Forgetful(relabels), sys, eager) && sys.room.peers.Valid()
    ensures B in sys.sessions && LeaderOf(sys.room.peers.ids) == Some(B)
    ensures forall env :: OnKeySet(sys.sessions[B], sys.room, sys.room.epoch, sys.room.peers, env).room == sys.room
    ensures forall steps :: Legal(Forgetful(relabels), sys, steps) && AllQuiet(steps)
                            ==> !Converged(After(Forgetful(relabels), sys, steps))
  {
    Leaders();
    Letters();
    hide LeaderOf, Reachable, OnKeySet, Register, Legal, After, Converged;
    var rules := Forgetful(relabels);
    var s0 := Returns(rules, eager, B);
    assert s0.room.peers.ids + [C] == [B, C];
    RegisterAdds(s0, C, 13);
    sys := JoinsAndWaits(rules, s0, eager, C, 13, ALL);
    assert sys.sessions[B].epoch > sys.room.epoch;
    assert Together(sys);
    forall env ensures OnKeySet(sys.sessions[B], sys.room, sys.room.epoch, sys.room.peers, env).room == sys.room {
      PublishesNothing(sys.sessions[B], sys.room, env);
    }
    ConvergesExactly(rules, sys, eager);
  }

  /** Whatever a session ahead of the room publishes is refused. */
  lemma PublishesNothing(s: Session, room: Room, env: Env)
    requires s.epoch > room.epoch && room.peers.Valid() && s.keypair.Some?
    ensures OnKeySet(s, room, room.epoch, room.peers, env).room == room
  {
    hide LeaderOf;
    var m := WithLeaderKey(AdoptKeySet(s, room.epoch, room.peers), env.draw);
    LoopPublishesNothing(m, room, m.leaderKey.value.key, 0, env.accepts);
  }

  lemma {:induction false} LoopPublishesNothing(s: Session, room: Room, key: GroupKey, i: nat, accepts: set<PeerId>)
    requires s.epoch > room.epoch && s.keySet.Valid() && s.keypair.Some? && i <= |s.keySet.ids|
    ensures PublishFrom(s, room, key, i, accepts).room == room
    decreases |s.keySet.ids| - i
  {
    hide DerivePairwise, SealGroupKey;
    if i < |s.keySet.ids| {
      LoopPublishesNothing(s, room, key, i + 1, accepts);
    }
  }

  // ---------------------------------------------------------------------------
  // Looser rules admit every run
  // ---------------------------------------------------------------------------

  /** Whatever `loose` demands, `tight` demands too. */
  predicate Admits(tight: Rules, loose: Rules) {
    && tight.relabels == loose.relabels
    && (loose.ordered ==> tight.ordered) && (loose.completes ==> tight.completes) && (loose.anew ==> tight.anew)
    && (loose.atomic ==> tight.atomic) && (loose.prompt ==> tight.prompt) && (loose.keeps ==> tight.keeps)
  }

  lemma LooserApplies(tight: Rules, loose: Rules, sys: System, step: Step)
    requires Admits(tight, loose) && Possible(tight, sys, step)
    ensures Possible(loose, sys, step) && Apply(loose, sys, step) == Apply(tight, sys, step)
  {
    hide Published, Unlocked, OnKeySet, OnSealedKey, Start;
  }

  lemma {:induction false} LooserRuns(tight: Rules, loose: Rules, sys: System, steps: seq<Step>)
    requires Admits(tight, loose) && Legal(tight, sys, steps)
    ensures Legal(loose, sys, steps) && After(loose, sys, steps) == After(tight, sys, steps)
    decreases |steps|
  {
    hide Possible, Apply;
    if steps != [] {
      LooserApplies(tight, loose, sys, steps[0]);
      LooserRuns(tight, loose, Apply(tight, sys, steps[0]), steps[1..]);
    }
  }

  lemma LooserReaches(tight: Rules, loose: Rules, sys: System, eager: bool)
    requires Admits(tight, loose) && Reachable(tight, sys, eager)
    ensures Reachable(loose, sys, eager)
  {
    hide Legal, After, Initial;
    var steps :| Legal(tight, Initial(sys.roomId, eager), steps) && After(tight, Initial(sys.roomId, eager), steps) == sys
                 && (tight.relabels ==> '|' !in sys.roomId);
    LooserRuns(tight, loose, Initial(sys.roomId, eager), steps);
  }

  // ---------------------------------------------------------------------------
  // While the record lasts
  // ---------------------------------------------------------------------------

  lemma StepWithoutRestart(rules: Rules, sys: System, step: Step)
    requires Possible(rules, sys, step) && step != Restart
    ensures Possible(rules.(keeps := true), sys, step) && Apply(rules.(keeps := true), sys, step) == Apply(rules, sys, step)
  {
    hide Published, Unlocked, OnKeySet, OnSealedKey, Start;
  }

  lemma {:induction false} RunWithoutRestart(rules: Rules, sys: System, steps: seq<Step>)
    requires Legal(rules, sys, steps) && Restart !in steps
    ensures Legal(rules.(keeps := true), sys, steps) && After(rules.(keeps := true), sys, steps) == After(rules, sys, steps)
    decreases |steps|
  {
    hide Possible, Apply;
    if steps != [] {
      StepWithoutRestart(rules, sys, steps[0]);
      RunWithoutRestart(rules, Apply(rules, sys, steps[0]), steps[1..]);
    }
  }

  /**
   A server that drops the record of an emptied room, as long as it has not: no member is ahead of
   the room, one sender's blobs of an epoch seal one key, each for another peer, and, where
   handlers are not interrupted and deliveries prompt (or, with a server that bumps on every
   change, key sets ordered and starts complete), all sessions agree.
   */
  lemma WhileTheRecordLasts(rules: Rules, roomId: string, eager: bool, steps: seq<Step>)
    requires Legal(rules, Initial(roomId, eager), steps) && Restart !in steps && (rules.relabels ==> '|' !in roomId)
    ensures
      var sys := After(rules, Initial(roomId, eager), steps);
      && Level(sys) && SessionPublishing.OneKeyPerSender(sys.room.sent)
      && (Granted(rules.(keeps := true), eager) ==> Agree2(sys))
  {
    hide Legal, After, Agree2;
    var kept := rules.(keeps := true);
    var sys := After(rules, Initial(roomId, eager), steps);
    RunWithoutRestart(rules, Initial(roomId, eager), steps);
    RoomIdStays(rules, Initial(roomId, eager), steps);
    assert Reachable(kept, sys, eager);
    hide Reachable;
    KeptIsLevel(kept, sys, eager);
    SessionPublishing.SendersAreConsistent(kept, sys, eager);
    if Granted(kept, eager) {
      KeptAgree(kept, sys, eager);
    }
  }

  lemma {:induction false} RoomIdStays(rules: Rules, sys: System, steps: seq<Step>)
    requires Legal(rules, sys, steps)
    ensures After(rules, sys, steps).roomId == sys.roomId
    decreases |steps|
  {
    hide Possible, Apply;
    if steps != [] {
      RoomIdKept(rules, sys, steps[0]);
      RoomIdStays(rules, Apply(rules, sys, steps[0]), steps[1..]);
    }
  }

  lemma RoomIdKept(rules: Rules, sys: System, step: Step)
    requires Possible(rules, sys, step)
    ensures Apply(rules, sys, step).roomId == sys.roomId
  {
    hide Published, Unlocked, OnKeySet, OnSealedKey, Start, Relayed;
  }

  lemma KeptAgree(rules: Rules, sys: System, eager: bool)
    requires Granted(rules, eager) && rules.keeps && Reachable(rules, sys, eager)
    ensures Agree2(sys)
  {
    hide Reachable;
    if rules.prompt {
      KeptAgreement(rules, sys, eager);
    } else {
      Agreement(rules, sys);
    }
  }

  // ---------------------------------------------------------------------------
  // Exactly when
  // ---------------------------------------------------------------------------

  lemma DisagreementIsReached(rules: Rules, eager: bool) returns (sys: System)
    requires !Granted(rules, eager)
    ensures Reachable(rules, sys, eager) && !InsidersAgree(sys)
  {
    hide Reachable, InsidersAgree, Agree2;
    var tight: Rules;
    if !rules.atomic {
      tight := Interruptible(rules.relabels);
      sys := AtomicityIsNeeded(rules.relabels, eager);
    } else if rules.prompt {
      tight := Stale(rules.relabels);
      sys := NewKeypairsAreNeeded(rules.relabels, eager);
    } else if !eager {
      tight := Unhurried(rules.relabels);
      sys := EagerBumpIsNeeded(rules.relabels);
    } else if !rules.ordered {
      tight := Unordered(rules.relabels);
      sys := OrderIsNeeded(rules.relabels);
    } else if !rules.completes {
      tight := Incomplete(rules.relabels);
      sys := CompletionIsNeeded(rules.relabels);
    } else {
      tight := Outdated(rules.relabels);
      sys := PromptnessIsNeeded(rules.relabels);
    }
    LooserReaches(tight, rules, sys, eager);
  }

  /**
   For every choice of rules and both kinds of server: the sessions that registered under the
   room's present record agree in every reachable state exactly when handlers are not interrupted
   and either deliveries are prompt, with a kept record or new keypairs, or the record is kept, key
   sets are ordered, every start completes and the server bumps the epoch on every membership change.
   */
  lemma InsidersAgreeExactly(rules: Rules, eager: bool)
    ensures (forall sys :: Reachable(rules, sys, eager) ==> InsidersAgree(sys)) <==> Granted(rules, eager)
  {
    hide Reachable;
    if Granted(rules, eager) {
      forall sys | Reachable(rules, sys, eager) ensures InsidersAgree(sys) {
        if Prompt(rules) {
          PromptAgreement(rules, sys, eager);
        } else {
          Agreement(rules, sys);
        }
      }
    } else {
      hide InsidersAgree;
      var sys := DisagreementIsReached(rules, eager);
    }
  }

  /** The same of all sessions, those of earlier records included: then the record must be kept. */
  lemma AgreementExactly(rules: Rules, eager: bool)
    ensures (forall sys :: Reachable(rules, sys, eager) ==> Agree2(sys)) <==> Granted(rules, eager) && rules.keeps
  {
    hide Reachable;
    if Granted(rules, eager) && rules.keeps {
      forall sys | Reachable(rules, sys, eager) ensures Agree2(sys) {
        KeptAgree(rules, sys, eager);
      }
    } else if Granted(rules, eager) {
      hide Agree2;
      var sys := KeepingIsNeeded(rules.relabels, eager);
      LooserReaches(Forgetful(rules.relabels), rules, sys, eager);
    } else {
      var sys := DisagreementIsReached(rules, eager);
      assert !Agree2(sys);
    }
  }

  /** One sender's blobs of an epoch seal one key, each for another peer, exactly when the room's record is kept. */
  lemma SendersAreConsistentExactly(rules: Rules, eager: bool)
    ensures (forall sys :: Reachable(rules, sys, eager) ==> SessionPublishing.OneKeyPerSender(AllSent(sys))) <==> rules.keeps
  {
    hide Reachable;
    if rules.keeps {
      forall sys | Reachable(rules, sys, eager) ensures SessionPublishing.OneKeyPerSender(AllSent(sys)) {
        SessionPublishing.SendersAreConsistent(rules, sys, eager);
      }
    } else {
      var sys := KeepingIsNeededBySenders(rules.relabels, eager);
      LooserReaches(Forgetful(rules.relabels), rules, sys, eager);
    }
  }
}
