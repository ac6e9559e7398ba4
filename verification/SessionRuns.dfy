/**
 Concrete runs of three or four peers, built step by step: what a newcomer's start, a
 leader's distribution and a delivery leave, in either kind of room.
 */
module SessionRuns {
  import opened Common
  import opened Crypto
  import opened Utf16Order
  import opened SessionSpec
  import opened SessionSystem
  import opened SessionTheorems
  import opened SessionConvergence
  import SessionPrompt

  // ---------------------------------------------------------------------------
  // Runs grow at the end
  // ---------------------------------------------------------------------------

  lemma {:induction false} RunExtends(rules: Rules, sys: System, steps: seq<Step>, last: Step)
    requires Legal(rules, sys, steps) && Possible(rules, After(rules, sys, steps), last)
    ensures Legal(rules, sys, steps + [last])
    ensures After(rules, sys, steps + [last]) == Apply(rules, After(rules, sys, steps), last)
    decreases |steps|
  {
    hide Possible, Apply;
    var longer := steps + [last];
    if steps == [] {
      assert longer[1..] == [];
    } else {
      assert longer[1..] == steps[1..] + [last];
      RunExtends(rules, Apply(rules, sys, steps[0]), steps[1..], last);
    }
  }

  /** One more possible step from a reachable state. */
  lemma Then(rules: Rules, sys: System, eager: bool, step: Step) returns (next: System)
    requires Reachable(rules, sys, eager) && Possible(rules, sys, step)
    ensures next == Apply(rules, sys, step) && Reachable(rules, next, eager)
  {
    hide Possible, Initial, Legal, After, OnKeySet, OnSealedKey, Start;
    var init := Initial(sys.roomId, eager);
    var steps :| Legal(rules, init, steps) && After(rules, init, steps) == sys && (rules.relabels ==> '|' !in sys.roomId);
    RunExtends(rules, init, steps, step);
    next := Apply(rules, sys, step);
    assert next.roomId == sys.roomId;
    assert Legal(rules, init, steps + [step]) && After(rules, init, steps + [step]) == next;
  }

  lemma Begin(rules: Rules, eager: bool) returns (sys: System)
    ensures sys == Initial("room", eager) && Reachable(rules, sys, eager)
  {
    sys := Initial("room", eager);
    assert "room" == ['r', 'o', 'o', 'm'];
    assert Legal(rules, sys, []) && After(rules, sys, []) == sys;
  }

  // ---------------------------------------------------------------------------
  // The peers
  // ---------------------------------------------------------------------------

  const A: PeerId := "a"
  const B: PeerId := "b"
  const C: PeerId := "c"
  const D: PeerId := "d"

  lemma Letters()
    ensures '|' !in A && '|' !in B && '|' !in C && '|' !in D && A != "" && B != "" && C != "" && D != ""
  {
    assert A == ['a'] && B == ['b'] && C == ['c'] && D == ['d'];
  }

  lemma LetterLess(x: char, y: char)
    requires x < y && y as int < 0x10000
    ensures Utf16Less([x], [y]) && [x] != [y]
  {
    assert [x][1..] == [] && [y][1..] == [];
    assert Utf16([x]) == Units(x) + [] && Utf16([y]) == Units(y) + [];
    assert [x][0] != [y][0];
  }

  lemma Leaders()
    ensures A != B && B != C && A != C && D != A && D != B && D != C
    ensures LeaderOf([B, C]) == Some(B) && LeaderOf([A, B]) == Some(A) && LeaderOf([B, C, A]) == Some(A)
    ensures LeaderOf([A, C]) == Some(A) && LeaderOf([C, B]) == Some(B)
    ensures LeaderOf([B, D]) == Some(B) && LeaderOf([B, D, C]) == Some(B) && LeaderOf([B, D, C, A]) == Some(A)
  {
    LetterLess('a', 'b');
    LetterLess('a', 'c');
    LetterLess('a', 'd');
    LetterLess('b', 'c');
    LetterLess('b', 'd');
    LetterLess('c', 'd');
    LeaderIsLowest([B, C]);
    LeaderIsLowest([C, B]);
    LeaderIsLowest([A, B]);
    LeaderIsLowest([B, C, A]);
    LeaderIsLowest([A, C]);
    LeaderIsLowest([B, D]);
    LeaderIsLowest([B, D, C]);
    LeaderIsLowest([B, D, C, A]);
    assert IsLowest(B, [B, C]) && IsLowest(B, [C, B]) && IsLowest(A, [A, B]) && IsLowest(A, [B, C, A]) && IsLowest(A, [A, C]);
    assert IsLowest(B, [B, D]) && IsLowest(B, [B, D, C]) && IsLowest(A, [B, D, C, A]);
  }

  const ALL := Env(0, {A, B, C, D}, true)

  function Key(minter: PeerId, epoch: nat): GroupKey {
    GroupKey(minter, epoch, 0)
  }

  // ---------------------------------------------------------------------------
  // What the server and a leaving session do
  // ---------------------------------------------------------------------------

  lemma Rotates(rules: Rules, sys: System, eager: bool) returns (next: System)
    requires Reachable(rules, sys, eager) && sys.room.peers.Valid()
    ensures Reachable(rules, next, eager) && next == WithRoom(sys, Bump(sys.room))
  {
    hide Reachable;
    next := Then(rules, sys, eager, Rotate);
  }

  lemma Departs(rules: Rules, sys: System, eager: bool, id: PeerId) returns (next: System)
    requires Reachable(rules, sys, eager) && sys.room.peers.Valid() && id in sys.sessions
    ensures Reachable(rules, next, eager) && next == With(sys, id, Clear(sys.sessions[id])).(live := sys.live - {id})
  {
    hide Reachable;
    next := Then(rules, sys, eager, Leave(id));
  }

  lemma Drops(rules: Rules, sys: System, eager: bool, id: PeerId) returns (next: System)
    requires Reachable(rules, sys, eager) && sys.room.peers.Valid() && id in sys.room.peers.keys
    ensures Reachable(rules, next, eager) && next == WithRoom(sys, Remove(sys.room, id))
  {
    hide Reachable;
    next := Then(rules, sys, eager, Drop(id));
  }

  lemma Restarts(rules: Rules, sys: System, eager: bool) returns (next: System)
    requires Reachable(rules, sys, eager) && !rules.keeps && sys.room.peers == EMPTY_KEYS && EMPTY_KEYS.Valid()
    ensures Reachable(rules, next, eager)
    ensures next == WithRoom(sys, Restarted(sys.room)).(earlier := AllSent(sys), books := sys.books.(admitted := {}))
  {
    hide Reachable;
    next := Then(rules, sys, eager, Restart);
  }

  lemma PairIsValid(x: PeerId, p: PublicKey, y: PeerId, q: PublicKey)
    requires x != y
    ensures KeySet([x, y], map[x := p, y := q]).Valid()
  {}

  lemma TripleIsValid(x: PeerId, p: PublicKey, y: PeerId, q: PublicKey, z: PeerId, r: PublicKey)
    requires x != y && y != z && x != z
    ensures KeySet([x, y, z], map[x := p, y := q, z := r]).Valid()
  {}

  // ---------------------------------------------------------------------------
  // A newcomer
  // ---------------------------------------------------------------------------

  function Joiner(id: PeerId, priv: nat, epoch: nat, keys: KeySet): Session {
    NewSession("room", id).(keypair := Some(priv), epoch := epoch, keySet := keys, status := AwaitingKey)
  }

  function Registered(sys: System, id: PeerId, priv: nat): KeySet {
    KeySet(sys.room.peers.ids + [id], sys.room.peers.keys[id := Pub(priv)])
  }

  function NextEpoch(sys: System): nat {
    if sys.room.eager || sys.room.sealed != map[] then sys.room.epoch + 1 else sys.room.epoch
  }

  /** A newcomer that is alone, or not the leader, waits for a key. */
  lemma WaitsAfterStart(sys: System, id: PeerId, priv: nat, env: Env)
    requires sys.roomId == "room" && sys.room.peers.Valid() && id !in sys.room.peers.keys && env.refreshes
    requires sys.room.peers.ids == [] || LeaderOf(sys.room.peers.ids + [id]) != Some(id)
    ensures
      var keys := Registered(sys, id, priv);
      var joined := Register(sys.room, id, Pub(priv));
      && keys.Valid() && joined.epoch == NextEpoch(sys) && joined.peers == keys && joined.sent == sys.room.sent
      && joined.eager == sys.room.eager && (sys.room.sealed == map[] ==> joined.sealed == map[])
      && Start(NewSession("room", id), sys.room, priv, true, env)
         == Outcome(Joiner(id, priv, NextEpoch(sys), keys), joined, false)
  {
    hide LeaderOf, Distribute;
    RegisterKeepsValid(sys.room, id, Pub(priv));
  }

  /** A newcomer that leads the peers it joins distributes at once. */
  lemma StartsLeading(room: Room, id: PeerId, priv: nat, env: Env)
    requires room.peers.Valid() && id !in room.peers.keys && room.peers.ids != [] && env.refreshes
    requires LeaderOf(room.peers.ids + [id]) == Some(id)
    ensures
      var joined := Register(room, id, Pub(priv));
      joined.peers.Valid() &&
      var o := Distribute(Newcomer(joined, id, priv), joined, env);
      Start(NewSession("room", id), room, priv, true, env)
        == if o.threw then o.(session := o.session.(status := Failed)) else o
  {
    hide LeaderOf, Distribute;
    RegisterKeepsValid(room, id, Pub(priv));
  }

  /** The newcomer once it has taken over the key set of the room it joined. */
  function Newcomer(joined: Room, id: PeerId, priv: nat): Session {
    Joiner(id, priv, joined.epoch, joined.peers).(status := Registering)
  }

  /** A new session is constructed and started; the registration goes through. */
  lemma Joins(rules: Rules, sys: System, eager: bool, id: PeerId, priv: nat, env: Env) returns (next: System)
    requires Reachable(rules, sys, eager) && sys.roomId == "room" && sys.room.peers.Valid()
    requires id != "" && '|' !in id && id !in sys.live && id !in sys.room.peers.keys && (rules.completes ==> env.refreshes)
    requires rules.anew ==> priv !in sys.books.drawn
    ensures Reachable(rules, next, eager) && next.roomId == "room"
    ensures
      var o := Start(NewSession("room", id), sys.room, priv, true, env);
      && next.room == o.room && next.sessions == sys.sessions[id := o.session] && next.live == sys.live + {id}
      && next.suspended == sys.suspended - {id} && next.books == Enrol(sys.books, id, priv, true) && next.earlier == sys.earlier
      && Announcement(o.room.epoch, o.room.peers) in next.announced && sys.announced <= next.announced
  {
    hide Reachable, Start;
    var made := Then(rules, sys, eager, Construct(id));
    next := Then(rules, made, eager, Join(id, priv, true, env));
  }

  lemma JoinsAndWaits(rules: Rules, sys: System, eager: bool, id: PeerId, priv: nat, env: Env) returns (next: System)
    requires Reachable(rules, sys, eager) && sys.roomId == "room" && sys.room.peers.Valid()
    requires id != "" && '|' !in id && id !in sys.live && id !in sys.room.peers.keys && env.refreshes
    requires rules.anew ==> priv !in sys.books.drawn
    requires sys.room.peers.ids == [] || LeaderOf(sys.room.peers.ids + [id]) != Some(id)
    ensures Reachable(rules, next, eager)
    ensures
      var keys := Registered(sys, id, priv);
      && next.room == Register(sys.room, id, Pub(priv)) && next.room.epoch == NextEpoch(sys) && next.room.peers == keys
      && keys.Valid() && next.room.sent == sys.room.sent && next.room.eager == sys.room.eager
      && (sys.room.sealed == map[] ==> next.room.sealed == map[])
      && next.sessions == sys.sessions[id := Joiner(id, priv, NextEpoch(sys), keys)]
      && next.live == sys.live + {id} && next.books == Enrol(sys.books, id, priv, true) && next.earlier == sys.earlier
      && Announcement(next.room.epoch, keys) in next.announced && sys.announced <= next.announced
      && next.roomId == sys.roomId
  {
    hide LeaderOf, Reachable, Start, Register;
    WaitsAfterStart(sys, id, priv, env);
    next := Joins(rules, sys, eager, id, priv, env);
  }

  const BC := KeySet([B, C], map[B := Pub(2), C := Pub(3)])
  const BCA := KeySet([B, C, A], map[B := Pub(2), C := Pub(3), A := Pub(1)])

  /** The epochs in which the first two peers of an empty room join, by the server's rule. */
  function FirstEpoch(eager: bool): nat {
    if eager then 1 else 0
  }

  function SecondEpoch(eager: bool): nat {
    if eager then 2 else 0
  }

  /** The epoch of a third peer that joins before anything is sealed. */
  function ThirdEpoch(eager: bool): nat {
    if eager then 3 else 0
  }

  lemma EnrolTwo(books: Books, x: PeerId, p: nat, y: PeerId, q: nat)
    ensures Enrol(books, x, p, true).drawn == books.drawn + {p}
    ensures Enrol(Enrol(books, x, p, true), y, q, true) == Books(books.drawn + {p, q}, books.admitted + {x, y})
  {}

  /** `x` and then `y` join an empty room at epoch 0, `x` leads, and nothing is sealed. */
  lemma TwoJoin(rules: Rules, s0: System, eager: bool, x: PeerId, p: nat, y: PeerId, q: nat) returns (sys: System)
    requires Reachable(rules, s0, eager) && s0.roomId == "room"
    requires s0.room == Room(eager, 0, EMPTY_KEYS, map[], s0.room.sent)
    requires x != "" && y != "" && '|' !in x && '|' !in y && x != y && x !in s0.live && y !in s0.live
    requires LeaderOf([x, y]) == Some(x) && p != q && (rules.anew ==> p !in s0.books.drawn && q !in s0.books.drawn)
    ensures Reachable(rules, sys, eager) && sys.roomId == "room"
    ensures
      var keys := KeySet([x, y], map[x := Pub(p), y := Pub(q)]);
      && sys.room == Room(eager, SecondEpoch(eager), keys, map[], s0.room.sent)
      && sys.live == s0.live + {x, y} && sys.earlier == s0.earlier && s0.announced <= sys.announced
      && sys.books == Books(s0.books.drawn + {p, q}, s0.books.admitted + {x, y})
      && sys.sessions == s0.sessions[x := Joiner(x, p, FirstEpoch(eager), KeySet([x], map[x := Pub(p)]))]
                                    [y := Joiner(y, q, SecondEpoch(eager), keys)]
      && Announcement(SecondEpoch(eager), keys) in sys.announced && keys.Valid()
  {
    hide LeaderOf, Reachable, Register, Enrol;
    assert s0.room.peers.ids == [];
    var s1 := JoinsAndWaits(rules, s0, eager, x, p, ALL);
    assert [] + [x] == [x] && [x] + [y] == [x, y];
    EnrolTwo(s0.books, x, p, y, q);
    assert s1.room.peers == KeySet([x], map[x := Pub(p)]);
    sys := JoinsAndWaits(rules, s1, eager, y, q, ALL);
    assert sys.room.peers.keys == map[x := Pub(p), y := Pub(q)];
    assert sys.room == Room(eager, SecondEpoch(eager), sys.room.peers, sys.room.sealed, sys.room.sent);
  }

  /** `b` and `c` have joined, nothing is sealed. */
  lemma TwoJoined(rules: Rules, eager: bool) returns (sys: System)
    ensures Reachable(rules, sys, eager) && sys.roomId == "room"
    ensures
      && sys.room == Room(eager, SecondEpoch(eager), BC, map[], [])
      && sys.live == {B, C} && sys.sessions.Keys == {B, C}
      && sys.books == Books({2, 3}, {B, C}) && sys.earlier == []
      && sys.sessions[B] == Joiner(B, 2, FirstEpoch(eager), KeySet([B], map[B := Pub(2)]))
      && sys.sessions[C] == Joiner(C, 3, SecondEpoch(eager), BC)
      && Announcement(SecondEpoch(eager), BC) in sys.announced
  {
    hide LeaderOf, Reachable;
    Leaders();
    Letters();
    var s0 := Begin(rules, eager);
    sys := TwoJoin(rules, s0, eager, B, 2, C, 3);
  }

  // ---------------------------------------------------------------------------
  // A leader distributes
  // ---------------------------------------------------------------------------

  /** A leader all of whose publishes are taken holds its key. */
  lemma DistributesAll(s: Session, room: Room, env: Env)
    requires s.keySet.Valid() && s.keypair.Some? && s.epoch == room.epoch && s.keySet.keys.Keys <= env.accepts
    requires s.leaderKey.None? || s.leaderKey.value.epoch != s.epoch
    requires s.keySet == room.peers && s.id in room.peers.keys && room.sealed == map[]
    ensures
      var o := Distribute(s, room, env);
      && o.session.roomKey == Some(GroupKey(s.id, s.epoch, env.draw)) && o.session.epoch == s.epoch
      && o.session.keypair == s.keypair && o.session.keySet == s.keySet && o.session.id == s.id && !o.threw
      && o.session.roomId == s.roomId && o.room.epoch == room.epoch && o.room.peers == room.peers && room.sent <= o.room.sent
  {
    hide SealFor;
    var m := WithLeaderKey(s, env.draw);
    AllAccepted(m, room, m.leaderKey.value.key, 0, env.accepts);
    PublishKeepsRoom(m, room, m.leaderKey.value.key, 0, env.accepts);
  }

  /** The two ids, in either order. */
  predicate Pair(ids: seq<PeerId>, x: PeerId, y: PeerId) {
    x != y && (ids == [x, y] || ids == [y, x])
  }

  /** The publish loop of a leader of two, whose only publish is taken. */
  lemma PublishesOne(m: Session, room: Room, key: GroupKey, accepts: set<PeerId>, peer: PeerId)
    requires m.keySet.Valid() && m.keypair.Some? && m.epoch == room.epoch && m.sealedSent == {}
    requires Pair(m.keySet.ids, m.id, peer) && peer in accepts
    requires m.id in room.peers.keys && peer in room.peers.keys && peer !in room.sealed
    ensures
      && peer in m.keySet.keys
      && PublishFrom(m, room, key, 0, accepts)
         == Outcome(m.(sealedSent := {peer}), Publish(room, SealFor(m, key, peer)), false)
  {
    hide DerivePairwise, SealGroupKey;
    var sent := m.(sealedSent := m.sealedSent + {peer});
    var room' := Publish(room, SealFor(m, key, peer));
    assert PublishFrom(sent, room', key, 2, accepts) == Outcome(sent, room', false);
    assert PublishFrom(sent, room', key, 1, accepts) == Outcome(sent, room', false);
    if m.keySet.ids[0] == m.id {
      assert PublishFrom(m, room, key, 1, accepts) == Outcome(sent, room', false);
    }
  }

  /** What a lone leader of two sends: one envelope, to the other peer. */
  lemma SendsOne(s: Session, room: Room, env: Env, peer: PeerId)
    requires s.keySet.Valid() && s.keypair.Some? && s.epoch == room.epoch && s.sealedSent == {}
    requires s.leaderKey.None? || s.leaderKey.value.epoch != s.epoch
    requires Pair(s.keySet.ids, s.id, peer) && peer in env.accepts
    requires s.id in room.peers.keys && peer in room.peers.keys && peer !in room.sealed
    ensures
      var key := GroupKey(s.id, s.epoch, env.draw);
      var o := Distribute(s, room, env);
      && !o.threw && o.session.roomKey == Some(key) && o.session.epoch == s.epoch
      && o.room == Publish(room, SealFor(s, key, peer))
      && o.session == Install(WithLeaderKey(s, env.draw).(sealedSent := {peer}), key)
  {
    hide PublishFrom, DerivePairwise, SealGroupKey;
    var m := WithLeaderKey(s, env.draw);
    PublishesOne(m, room, m.leaderKey.value.key, env.accepts, peer);
  }

  lemma SealedLabels(s: Session, key: GroupKey, peer: PeerId)
    requires s.keypair.Some? && peer in s.keySet.keys
    ensures
      var env := SealFor(s, key, peer);
      env.from == s.id && env.to == peer && env.epoch == s.epoch && env.blob.plain == key
  {
  }

  /** The recipient opens the envelope and installs its key, whatever epoch the recipient has reached. */
  lemma OpensSealed(t: Session, room: Room, s: Session, key: GroupKey)
    requires s.keypair.Some? && t.keypair.Some? && t.roomId == s.roomId && t.id in s.keySet.keys && s.id in t.keySet.keys
    requires s.keySet.keys[t.id] == Pub(t.keypair.value) && t.keySet.keys[s.id] == Pub(s.keypair.value)
    ensures OpenSealed(t, room, SealFor(s, key, t.id)) == SealedOutcome(Install(t, key), room, Opened)
  {
    hide DerivePairwise, SealAad;
    SealOpenRoundTrip(key, s.keypair.value, t.keypair.value, s.roomId, s.epoch, s.id, t.id);
  }

  /** The first publish is taken, the second refused: the leader has sent one envelope and holds no key. */
  lemma SendsFirst(s: Session, room: Room, env: Env, peer: PeerId)
    requires s.keySet.Valid() && s.keypair.Some? && s.epoch == room.epoch && s.sealedSent == {} && s.leaderKey.None?
    requires |s.keySet.ids| == 3 && s.keySet.ids[0] == peer && peer != s.id && s.keySet.ids[1] != s.id
    requires env.accepts == {peer} && s.id in room.peers.keys && peer in room.peers.keys && peer !in room.sealed
    ensures
      var key := GroupKey(s.id, s.epoch, env.draw);
      Distribute(s, room, env)
        == Outcome(WithLeaderKey(s, env.draw).(sealedSent := {peer}), Publish(room, SealFor(s, key, peer)), true)
  {
    hide DerivePairwise, SealGroupKey;
    var m := WithLeaderKey(s, env.draw);
    var key := m.leaderKey.value.key;
    var sent := m.(sealedSent := m.sealedSent + {peer});
    var room' := Publish(room, SealFor(m, key, peer));
    assert PublishFrom(sent, room', key, 1, env.accepts) == Outcome(sent, room', true);
    assert PublishFrom(m, room, key, 0, env.accepts) == Outcome(sent, room', true);
  }

  /** A session without a key that leads the key set it hears distributes. */
  lemma HearsLeading(s: Session, room: Room, epoch: nat, keys: KeySet, env: Env)
    requires keys.Valid() && |keys.ids| > 1 && LeaderOf(keys.ids) == Some(s.id)
    requires AdoptKeySet(s, epoch, keys).roomKey.None?
    ensures OnKeySet(s, room, epoch, keys, env) == Distribute(AdoptKeySet(s, epoch, keys), room, env)
  {
    hide LeaderOf, Distribute;
  }

  // ---------------------------------------------------------------------------
  // Deliveries
  // ---------------------------------------------------------------------------

  lemma Hears(rules: Rules, sys: System, eager: bool, id: PeerId, news: Announcement, env: Env) returns (next: System)
    requires Reachable(rules, sys, eager) && Possible(rules, sys, DeliverKeySet(id, news, env))
    ensures Reachable(rules, next, eager)
    ensures
      var o := OnKeySet(sys.sessions[id], sys.room, news.epoch, news.keys, env);
      && next.sessions == sys.sessions[id := o.session] && next.room == o.room
      && next.live == sys.live && next.roomId == sys.roomId && sys.announced <= next.announced
      && next.suspended == sys.suspended && next.books == sys.books && next.earlier == sys.earlier
  {
    hide Reachable, OnKeySet;
    next := Then(rules, sys, eager, DeliverKeySet(id, news, env));
  }

  lemma Receives(rules: Rules, sys: System, eager: bool, id: PeerId, envelope: Envelope, env: Env) returns (next: System)
    requires Reachable(rules, sys, eager) && Possible(rules, sys, DeliverSealed(id, envelope, env))
    ensures Reachable(rules, next, eager)
    ensures
      var o := OnSealedKey(sys.sessions[id], sys.room, envelope, false, env);
      && next.sessions == sys.sessions[id := o.session] && next.room == o.room
      && next.live == sys.live && next.roomId == sys.roomId && sys.announced <= next.announced
      && next.suspended == sys.suspended && next.books == sys.books && next.earlier == sys.earlier
  {
    hide Reachable, OnSealedKey;
    next := Then(rules, sys, eager, DeliverSealed(id, envelope, env));
  }

  /** A blob of a later epoch, received by a waiting session that is told the key set when it asks. */
  lemma OpensLater(t: Session, room: Room, s: Session, key: GroupKey)
    requires s.keypair.Some? && t.keypair.Some? && t.roomId == s.roomId && room.peers.Valid() && |room.peers.ids| > 1
    requires t.id in s.keySet.keys && s.id in room.peers.keys && t.id != s.id && t.id != "" && s.id != ""
    requires s.keySet.keys[t.id] == Pub(t.keypair.value) && room.peers.keys[s.id] == Pub(s.keypair.value)
    requires t.epoch < room.epoch == s.epoch && LeaderOf(room.peers.ids) != Some(t.id)
    ensures
      var o := OnSealedKey(t, room, SealFor(s, key, t.id), false, ALL);
      o.session.roomKey == Some(key) && o.session.epoch == room.epoch && o.room == room && o.session.id == t.id
  {
    hide LeaderOf, SealFor, OpenSealed, Distribute;
    SealedLabels(s, key, t.id);
    var refreshed := AdoptKeySet(t, room.epoch, room.peers).(status := AwaitingKey);
    assert RefreshKeySet(t, room, ALL) == Outcome(refreshed, room, false);
    OpensSealed(refreshed, room, s, key);
    var env := SealFor(s, key, t.id);
    assert OnSealedKey(refreshed, room, env, true, ALL) == OpenSealed(refreshed, room, env);
  }

  /** A blob from a peer the session does not know, which it asks about; its own key does not stop it. */
  lemma OpensStranger(t: Session, room: Room, s: Session, key: GroupKey)
    requires s.keypair.Some? && t.keypair.Some? && t.roomId == s.roomId && room.peers.Valid() && |room.peers.ids| > 1
    requires t.id in s.keySet.keys && s.id in room.peers.keys && t.id != s.id && t.id != "" && s.id != ""
    requires s.keySet.keys[t.id] == Pub(t.keypair.value) && room.peers.keys[s.id] == Pub(s.keypair.value)
    requires t.epoch == room.epoch == s.epoch && t.roomKey.Some? && s.id !in t.keySet.keys
    ensures
      var o := OnSealedKey(t, room, SealFor(s, key, t.id), false, ALL);
      o.session.roomKey == Some(key) && o.session.epoch == room.epoch && o.room == room
  {
    hide LeaderOf, SealFor, OpenSealed, Distribute;
    SealedLabels(s, key, t.id);
    var refreshed := AdoptKeySet(t, room.epoch, room.peers).(status := Ready);
    assert RefreshKeySet(t, room, ALL) == Outcome(refreshed, room, false);
    OpensSealed(refreshed, room, s, key);
    assert OnSealedKey(t, room, SealFor(s, key, t.id), false, ALL) == OpenSealed(refreshed, room, SealFor(s, key, t.id));
  }

  /** A session that knows the sender, at the blob's epoch. */
  lemma OpensNow(t: Session, room: Room, s: Session, key: GroupKey)
    requires s.keypair.Some? && t.keypair.Some? && t.roomId == s.roomId && room.peers.Valid()
    requires t.id in s.keySet.keys && s.id in t.keySet.keys && t.id != s.id && t.id != "" && s.id != ""
    requires s.keySet.keys[t.id] == Pub(t.keypair.value) && t.keySet.keys[s.id] == Pub(s.keypair.value)
    requires t.epoch == s.epoch
    ensures OnSealedKey(t, room, SealFor(s, key, t.id), false, ALL) == SealedOutcome(Install(t, key), room, Opened)
  {
    hide LeaderOf, SealFor, OpenSealed, RefreshKeySet;
    SealedLabels(s, key, t.id);
    OpensSealed(t, room, s, key);
  }

  /** `a` joins `b` and `c` in a new epoch, leads it, and holds its key at once. */
  lemma TakesOver(rules: Rules, sys: System, eager: bool) returns (next: System)
    requires Reachable(rules, sys, eager) && sys.roomId == "room" && sys.room.peers == BC && A !in sys.live
    requires (sys.room.eager || sys.room.sealed != map[]) && 1 !in sys.books.drawn
    ensures Reachable(rules, next, eager) && next.roomId == "room"
    ensures
      var e := sys.room.epoch + 1;
      && next.room.epoch == e && next.room.peers == BCA && BCA.Valid() && Announcement(e, BCA) in next.announced
      && next.live == sys.live + {A} && A in next.sessions && sys.announced <= next.announced
      && next.sessions[A].roomKey == Some(Key(A, e)) && next.sessions[A].epoch == e
      && (forall x :: x in sys.sessions && x != A ==> x in next.sessions && next.sessions[x] == sys.sessions[x])
      && next.suspended == sys.suspended - {A}
  {
    Leaders();
    Letters();
    hide LeaderOf, Reachable, Distribute;
    RegisterKeepsValid(sys.room, A, Pub(1));
    var joined := Register(sys.room, A, Pub(1));
    assert joined.peers == BCA;
    DistributesAll(Newcomer(joined, A, 1), joined, ALL);
    StartsLeading(sys.room, A, 1, ALL);
    next := Joins(rules, sys, eager, A, 1, ALL);
  }

  // ---------------------------------------------------------------------------
  // Disagreement
  // ---------------------------------------------------------------------------

  lemma Disagree(sys: System, x: PeerId, y: PeerId)
    requires x in sys.sessions && y in sys.sessions && sys.sessions[x].epoch == sys.sessions[y].epoch
    requires sys.sessions[x].roomKey.Some? && sys.sessions[y].roomKey.Some?
    requires sys.sessions[x].roomKey != sys.sessions[y].roomKey
    ensures !Agree2(sys)
    ensures SessionPrompt.Insider(sys, x) && SessionPrompt.Insider(sys, y) ==> !SessionPrompt.InsidersAgree(sys)
  {
  }

  /** Where the record is kept, every live session is one that registered under it. */
  lemma KeptInsider(rules: Rules, sys: System, eager: bool, x: PeerId)
    requires rules.keeps && Reachable(rules, sys, eager) && x in sys.live
    ensures SessionPrompt.Insider(sys, x)
  {
    hide Legal, After;
    var steps :| Legal(rules, Initial(sys.roomId, eager), steps) && After(rules, Initial(sys.roomId, eager), steps) == sys
                 && (rules.relabels ==> '|' !in sys.roomId);
    SessionPrompt.KeptIsAdmitted(rules, Initial(sys.roomId, eager), steps);
  }
}
