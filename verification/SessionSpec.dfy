/**
 What each handler of the key exchange does, as functions on values: one
 session's state and the room's state in, the new pair out. The class
 `Session.E2EESession` is proved to compute these, and the theorems about whole
 runs are about these.
 */
module SessionSpec {
  import opened Common
  import opened Crypto
  import opened Utf16Order

  // ---------------------------------------------------------------------------
  // The room, as the server keeps it
  // ---------------------------------------------------------------------------

  /** A JavaScript `Map` from peer id to public key: the ids in insertion order, and the values. */
  datatype KeySet = KeySet(ids: seq<PeerId>, keys: map<PeerId, PublicKey>) {
    ghost predicate Valid() {
      Distinct(ids) && forall p :: p in ids <==> p in keys
    }
  }

  const EMPTY_KEYS := KeySet([], map[])

  /** A published blob with the labels it is relayed under. */
  datatype Envelope = Envelope(from: PeerId, to: PeerId, epoch: nat, blob: Blob)

  /**
   The server's record of the room, and every publish it has accepted since the record began.
   `eager` says whether every membership change bumps the epoch, or only one
   that finds a blob stored.
   */
  datatype Room = Room(eager: bool, epoch: nat, peers: KeySet, sealed: map<PeerId, Envelope>, sent: seq<Envelope>)

  /** What is stored was published, for that recipient and in the room's epoch. */
  ghost predicate SealedIsSent(room: Room) {
    forall p :: p in room.sealed ==>
      room.sealed[p] in room.sent && room.sealed[p].to == p && room.sealed[p].epoch == room.epoch
  }

  lemma PublishStores(room: Room, env: Envelope)
    requires SealedIsSent(room) && env.epoch == room.epoch
    ensures SealedIsSent(Publish(room, env))
  {
    var sent := room.sent + [env];
    assert sent[|room.sent|] == env && sent[..|room.sent|] == room.sent;
  }

  function Bump(room: Room): Room {
    room.(epoch := room.epoch + 1, sealed := map[])
  }

  function Register(room: Room, id: PeerId, key: PublicKey): Room {
    if id in room.peers.keys && room.peers.keys[id] == key then room
    else
      var ids := if id in room.peers.keys then room.peers.ids else room.peers.ids + [id];
      var joined := room.(peers := KeySet(ids, room.peers.keys[id := key]));
      if room.eager || room.sealed != map[] then Bump(joined) else joined
  }

  lemma RegisterKeepsValid(room: Room, id: PeerId, key: PublicKey)
    requires room.peers.Valid()
    ensures Register(room, id, key).peers.Valid()
  {
  }

  function Without(ids: seq<PeerId>, id: PeerId): seq<PeerId> {
    if ids == [] then []
    else if ids[0] == id then Without(ids[1..], id)
    else [ids[0]] + Without(ids[1..], id)
  }

  lemma {:induction false} WithoutIs(ids: seq<PeerId>, id: PeerId)
    requires Distinct(ids)
    ensures Distinct(Without(ids, id))
    ensures forall p :: p in Without(ids, id) <==> p in ids && p != id
  {
    if ids != [] {
      assert ids == [ids[0]] + ids[1..];
      WithoutIs(ids[1..], id);
      var rest := Without(ids[1..], id);
      assert ids[0] !in rest;
    }
  }

  /** The server drops the record of an emptied room; the next one starts over. */
  function Restarted(room: Room): Room {
    Room(room.eager, 0, EMPTY_KEYS, map[], [])
  }

  function Remove(room: Room, id: PeerId): Room {
    Bump(room.(peers := KeySet(Without(room.peers.ids, id), room.peers.keys - {id})))
  }

  /**
   A publish is taken from one member for another, in the room's epoch, once per recipient;
   `accept` stands for what else the server or the network may refuse.
   */
  predicate Accepted(room: Room, env: Envelope, accept: bool) {
    && accept && env.epoch == room.epoch
    && env.from in room.peers.keys && env.to in room.peers.keys && env.to !in room.sealed
  }

  function Publish(room: Room, env: Envelope): Room {
    room.(sealed := room.sealed[env.to := env], sent := room.sent + [env])
  }

  // ---------------------------------------------------------------------------
  // One session
  // ---------------------------------------------------------------------------

  datatype Status = Idle | Registering | AwaitingKey | Ready | Failed

  datatype LeaderKey = LeaderKey(epoch: nat, key: GroupKey)

  datatype Session = Session(
    roomId: string,
    id: PeerId,
    epoch: nat,
    roomKey: Option<GroupKey>,
    keypair: Option<nat>,
    keySet: KeySet,
    sealedSent: set<PeerId>,
    leaderKey: Option<LeaderKey>,
    status: Status)

  function NewSession(roomId: string, id: PeerId): Session {
    Session(roomId, id, 0, None, None, EMPTY_KEYS, {}, None, Idle)
  }

  /** The outside world during one call: the random draw, the publishes taken, and whether a request is answered. */
  datatype Env = Env(draw: nat, accepts: set<PeerId>, refreshes: bool)

  /** The state after a call, and whether the call threw. */
  datatype Outcome = Outcome(session: Session, room: Room, threw: bool)

  predicate IsLeader(s: Session) {
    LeaderOf(s.keySet.ids) == Some(s.id)
  }

  function AdoptEpoch(s: Session, epoch: nat): Session {
    if epoch > s.epoch then s.(epoch := epoch, roomKey := None) else s
  }

  /** The leader's sealed room key for `peer`, under the labels it is published with. */
  function SealFor(s: Session, key: GroupKey, peer: PeerId): Envelope
    requires s.keypair.Some? && peer in s.keySet.keys
  {
    var pairwise := DerivePairwise(s.keypair.value, s.keySet.keys[peer], s.roomId, s.epoch, s.id, peer);
    Envelope(s.id, peer, s.epoch, SealGroupKey(key, pairwise, s.roomId, s.epoch, s.id, peer))
  }

  /** The publish loop from the `i`th peer of the key set on; the first refusal ends it. */
  function PublishFrom(s: Session, room: Room, key: GroupKey, i: nat, accepts: set<PeerId>): Outcome
    requires s.keypair.Some? && s.keySet.Valid() && i <= |s.keySet.ids|
    decreases |s.keySet.ids| - i
  {
    if i == |s.keySet.ids| then Outcome(s, room, false)
    else
      var peer := s.keySet.ids[i];
      if peer == s.id || peer in s.sealedSent then PublishFrom(s, room, key, i + 1, accepts)
      else
        var env := SealFor(s, key, peer);
        if Accepted(room, env, peer in accepts) then
          PublishFrom(s.(sealedSent := s.sealedSent + {peer}), Publish(room, env), key, i + 1, accepts)
        else Outcome(s, room, true)
  }

  /** A key is drawn only if none is at hand for this epoch. */
  function WithLeaderKey(s: Session, draw: nat): (r: Session)
    ensures r.leaderKey.Some? && r.leaderKey.value.epoch == s.epoch
  {
    if s.leaderKey.None? || s.leaderKey.value.epoch != s.epoch
    then s.(leaderKey := Some(LeaderKey(s.epoch, GroupKey(s.id, s.epoch, draw))))
    else s
  }

  function Install(s: Session, key: GroupKey): Session {
    s.(roomKey := Some(key), status := Ready)
  }

  function Distribute(s: Session, room: Room, env: Env): Outcome
    requires s.keySet.Valid()
  {
    if s.keypair.None? then Outcome(s, room, true)
    else
      var minted := WithLeaderKey(s, env.draw);
      var key := minted.leaderKey.value.key;
      var o := PublishFrom(minted, room, key, 0, env.accepts);
      if o.threw then o else Outcome(Install(o.session, key), o.room, false)
  }

  /** The session once `onKeySet` has taken over epoch and key set, before it decides what to do. */
  function AdoptKeySet(s: Session, epoch: nat, keys: KeySet): Session {
    AdoptEpoch(s, epoch).(keySet := keys, sealedSent := if epoch > s.epoch then {} else s.sealedSent)
  }

  function OnKeySet(s: Session, room: Room, epoch: nat, keys: KeySet, env: Env): Outcome
    requires keys.Valid()
  {
    var adopted := AdoptKeySet(s, epoch, keys);
    if |keys.ids| <= 1 then Outcome(adopted.(status := AwaitingKey), room, false)
    else if adopted.roomKey.Some? then Outcome(adopted.(status := Ready), room, false)
    else if IsLeader(adopted) then Distribute(adopted, room, env)
    else Outcome(adopted.(status := AwaitingKey), room, false)
  }

  /**
   The same handler, interrupted after its last accepted publish and before the room key is
   set: what it has done by then, and the key it still has to set. None when it does not get there.
   */
  function Published(s: Session, room: Room, epoch: nat, keys: KeySet, env: Env): Option<(Outcome, GroupKey)>
    requires keys.Valid()
  {
    var adopted := AdoptKeySet(s, epoch, keys);
    if |keys.ids| <= 1 || adopted.roomKey.Some? || !IsLeader(adopted) || adopted.keypair.None? then None
    else
      var minted := WithLeaderKey(adopted, env.draw);
      var key := minted.leaderKey.value.key;
      var o := PublishFrom(minted, room, key, 0, env.accepts);
      if o.threw then None else Some((o, key))
  }

  /** Interrupted and resumed with nothing in between, it is the whole handler. */
  lemma PublishedThenInstalled(s: Session, room: Room, epoch: nat, keys: KeySet, env: Env)
    requires keys.Valid() && Published(s, room, epoch, keys, env).Some?
    ensures
      var (o, key) := Published(s, room, epoch, keys, env).value;
      OnKeySet(s, room, epoch, keys, env) == Outcome(Install(o.session, key), o.room, false)
  {
    hide PublishFrom, LeaderOf;
  }

  function RefreshKeySet(s: Session, room: Room, env: Env): Outcome
    requires room.peers.Valid()
  {
    if env.refreshes then OnKeySet(s, room, room.epoch, room.peers, env) else Outcome(s, room, true)
  }

  /** `start()`: `registers` says whether the channel takes the new public key. */
  function Start(s: Session, room: Room, priv: nat, registers: bool, env: Env): Outcome
    requires room.peers.Valid()
  {
    var registering := s.(status := Registering, keypair := Some(priv));
    if !registers then Outcome(registering.(status := Failed), room, true)
    else
      var joined := Register(room, s.id, Pub(priv));
      RegisterKeepsValid(room, s.id, Pub(priv));
      var o := RefreshKeySet(AdoptEpoch(registering, joined.epoch), joined, env);
      if o.threw then o.(session := o.session.(status := Failed)) else o
  }

  function Clear(s: Session): Session {
    s.(keypair := None, keySet := EMPTY_KEYS, sealedSent := {}, leaderKey := None, roomKey := None, status := Idle)
  }

  // ---------------------------------------------------------------------------
  // A sealed key arrives
  // ---------------------------------------------------------------------------

  datatype SealedReply = NotForMe | FromSelf | EpochAhead | StaleEpoch | UnknownSender | CannotOpen | Opened

  datatype SealedOutcome = SealedOutcome(session: Session, room: Room, reply: SealedReply)

  /** The last part of `onSealedKey`: derive, open, install. `env.epoch` is not compared with the session's again. */
  function OpenSealed(s: Session, room: Room, env: Envelope): SealedOutcome {
    if env.from !in s.keySet.keys then SealedOutcome(s, room, UnknownSender)
    else if s.keypair.None? then SealedOutcome(s.(status := AwaitingKey), room, CannotOpen)
    else
      var pairwise := DerivePairwise(s.keypair.value, s.keySet.keys[env.from], s.roomId, env.epoch, s.id, env.from);
      match OpenGroupKey(env.blob, pairwise, s.roomId, env.epoch, env.from, s.id)
      case Some(key) => SealedOutcome(Install(s, key), room, Opened)
      case None => SealedOutcome(s.(status := AwaitingKey), room, CannotOpen)
  }

  function OnSealedKey(s: Session, room: Room, env: Envelope, retried: bool, e: Env): SealedOutcome
    requires room.peers.Valid()
    decreases !retried
  {
    if env.to != "" && env.to != s.id then SealedOutcome(s, room, NotForMe)
    else if env.from == "" || env.from == s.id then SealedOutcome(s, room, FromSelf)
    else if env.epoch > s.epoch then
      if retried then SealedOutcome(s, room, EpochAhead)
      else
        var o := RefreshKeySet(s, room, e);
        RefreshKeepsRoom(s, room, e);
        if env.epoch == o.session.epoch then OnSealedKey(o.session, o.room, env, true, e)
        else SealedOutcome(o.session, o.room, EpochAhead)
    else if env.epoch < s.epoch then SealedOutcome(s, room, StaleEpoch)
    else if env.from !in s.keySet.keys && !retried then
      var o := RefreshKeySet(s, room, e);
      OpenSealed(o.session, o.room, env)
    else OpenSealed(s, room, env)
  }

  /**
   The same handler, interrupted when the blob has opened and before the room key is set: what it
   has done by then, and the key it still has to set. None when the blob does not open.
   */
  function Unlocked(s: Session, room: Room, env: Envelope, e: Env): Option<(Outcome, GroupKey)>
    requires room.peers.Valid()
  {
    var whole := OnSealedKey(s, room, env, false, e);
    if whole.reply != Opened then None
    else
      var asks := env.epoch > s.epoch || env.from !in s.keySet.keys;
      Some((if asks then RefreshKeySet(s, room, e) else Outcome(s, room, false), env.blob.plain))
  }

  /** Interrupted and resumed with nothing in between, it is the whole handler. */
  lemma UnlockedThenInstalled(s: Session, room: Room, env: Envelope, e: Env)
    requires room.peers.Valid() && Unlocked(s, room, env, e).Some?
    ensures
      var (o, key) := Unlocked(s, room, env, e).value;
      var whole := OnSealedKey(s, room, env, false, e);
      whole.session == Install(o.session, key) && whole.room == o.room
  {
    hide RefreshKeySet, DerivePairwise;
    RefreshKeepsRoom(s, room, e);
  }

  // ---------------------------------------------------------------------------
  // What publishing touches
  // ---------------------------------------------------------------------------

  lemma {:induction false} PublishKeepsRoom(s: Session, room: Room, key: GroupKey, i: nat, accepts: set<PeerId>)
    requires s.keypair.Some? && s.keySet.Valid() && i <= |s.keySet.ids|
    ensures PublishFrom(s, room, key, i, accepts).room.peers == room.peers
    ensures PublishFrom(s, room, key, i, accepts).room.epoch == room.epoch
    ensures room.sent <= PublishFrom(s, room, key, i, accepts).room.sent
    decreases |s.keySet.ids| - i
  {
    hide DerivePairwise, SealGroupKey;
    if i < |s.keySet.ids| {
      var peer := s.keySet.ids[i];
      if peer == s.id || peer in s.sealedSent {
        PublishKeepsRoom(s, room, key, i + 1, accepts);
      } else {
        var env := SealFor(s, key, peer);
        PublishKeepsRoom(s.(sealedSent := s.sealedSent + {peer}), Publish(room, env), key, i + 1, accepts);
      }
    }
  }

  lemma OnKeySetKeepsRoom(s: Session, room: Room, epoch: nat, keys: KeySet, env: Env)
    requires keys.Valid()
    ensures OnKeySet(s, room, epoch, keys, env).room.peers == room.peers
    ensures OnKeySet(s, room, epoch, keys, env).room.epoch == room.epoch
    ensures room.sent <= OnKeySet(s, room, epoch, keys, env).room.sent
  {
    var adopted := AdoptKeySet(s, epoch, keys);
    if adopted.keypair.Some? {
      var minted := WithLeaderKey(adopted, env.draw);
      PublishKeepsRoom(minted, room, minted.leaderKey.value.key, 0, env.accepts);
    }
  }

  lemma RefreshKeepsRoom(s: Session, room: Room, env: Env)
    requires room.peers.Valid()
    ensures RefreshKeySet(s, room, env).room.peers == room.peers
    ensures RefreshKeySet(s, room, env).room.epoch == room.epoch
    ensures room.sent <= RefreshKeySet(s, room, env).room.sent
  {
    if env.refreshes {
      OnKeySetKeepsRoom(s, room, room.epoch, room.peers, env);
    }
  }

  lemma SealedKeepsRoom(s: Session, room: Room, envelope: Envelope, env: Env)
    requires room.peers.Valid()
    ensures OnSealedKey(s, room, envelope, false, env).room.peers == room.peers
    ensures OnSealedKey(s, room, envelope, false, env).room.epoch == room.epoch
  {
    hide OnKeySet, DerivePairwise, OpenGroupKey, RefreshKeySet;
    RefreshKeepsRoom(s, room, env);
  }

  lemma {:induction false} PublishOnlyServes(s: Session, room: Room, key: GroupKey, i: nat, accepts: set<PeerId>)
    requires s.keypair.Some? && s.keySet.Valid() && i <= |s.keySet.ids|
    ensures
      var o := PublishFrom(s, room, key, i, accepts);
      o.session == s.(sealedSent := o.session.sealedSent)
    decreases |s.keySet.ids| - i
  {
    hide SealFor;
    if i < |s.keySet.ids| {
      var peer := s.keySet.ids[i];
      if peer == s.id || peer in s.sealedSent {
        PublishOnlyServes(s, room, key, i + 1, accepts);
      } else {
        var t := s.(sealedSent := s.sealedSent + {peer});
        PublishOnlyServes(t, Publish(room, SealFor(s, key, peer)), key, i + 1, accepts);
      }
    }
  }

  /** Whoever is not the leader of a key set publishes nothing on hearing it; names and keypair are nobody's to change. */
  lemma KeySetTouches(s: Session, room: Room, epoch: nat, keys: KeySet, env: Env)
    requires keys.Valid()
    ensures
      var o := OnKeySet(s, room, epoch, keys, env);
      && o.session.id == s.id && o.session.roomId == s.roomId && o.session.keypair == s.keypair && o.session.keySet == keys
      && (o.session.epoch == if epoch > s.epoch then epoch else s.epoch)
      && (LeaderOf(keys.ids) != Some(s.id) || s.keypair.None? ==> o.room == room)
  {
    hide LeaderOf, PublishFrom;
    var m := WithLeaderKey(AdoptKeySet(s, epoch, keys), env.draw);
    if m.keypair.Some? {
      PublishOnlyServes(m, room, m.leaderKey.value.key, 0, env.accepts);
    }
  }

  lemma SealedTouches(s: Session, room: Room, envelope: Envelope, env: Env)
    requires room.peers.Valid()
    ensures
      var o := OnSealedKey(s, room, envelope, false, env);
      && o.session.id == s.id && o.session.roomId == s.roomId && o.session.keypair == s.keypair
      && (o.session.keySet == s.keySet || o.session.keySet == room.peers)
      && (o.room == room || o.room == RefreshKeySet(s, room, env).room)
      && (LeaderOf(room.peers.ids) != Some(s.id) || s.keypair.None? ==> o.room == room)
  {
    hide OnKeySet, LeaderOf, DerivePairwise, OpenGroupKey;
    KeySetTouches(s, room, room.epoch, room.peers, env);
    RefreshKeepsRoom(s, room, env);
  }
}
