/**
 What each call of the key exchange answers, by the fields of the session and the room
 before it: when it throws, which status it leaves, and what becomes of a blob.
 */
module SessionAnswers {
  import opened Common
  import opened Crypto
  import opened Utf16Order
  import opened SessionSpec

  // ---------------------------------------------------------------------------
  // The room
  // ---------------------------------------------------------------------------

  /** The room takes a blob from one member for another, once each epoch, if nothing else stands against it. */
  ghost predicate Takes(room: Room, from: PeerId, to: PeerId, epoch: nat, willing: bool) {
    willing && epoch == room.epoch && {from, to} <= room.peers.keys.Keys && to !in room.sealed
  }

  /** What is taken is the only blob for its recipient until the room's epoch moves. */
  lemma TakenOnce(room: Room, env: Envelope, willing: bool, again: Envelope, willing': bool)
    ensures Accepted(room, env, willing) <==> Takes(room, env.from, env.to, env.epoch, willing)
    ensures again.to == env.to ==> !Accepted(Publish(room, env), again, willing')
    ensures again.to != env.to ==> (Accepted(Publish(room, env), again, willing') <==> Accepted(room, again, willing'))
  {}

  /** Registering once more with the same key changes nothing, and with another key it replaces the first. */
  lemma RegisteredAgain(room: Room, id: PeerId, key: PublicKey, other: PublicKey)
    ensures
      var joined := Register(room, id, key);
      && Register(joined, id, key) == joined
      && joined.peers.keys == room.peers.keys[id := key]
      && Register(joined, id, other).peers == KeySet(joined.peers.ids, room.peers.keys[id := other])
  {
    assert id in Register(room, id, key).peers.keys;
  }

  // ---------------------------------------------------------------------------
  // Key sets
  // ---------------------------------------------------------------------------

  /** The room refuses a blob for one of these peers that has none yet. */
  ghost predicate Refuses(room: Room, from: PeerId, epoch: nat, ids: seq<PeerId>, served: set<PeerId>, accepts: set<PeerId>) {
    exists p :: p in ids && p != from && p !in served && !Takes(room, from, p, epoch, p in accepts)
  }

  lemma {:induction false} PublishingThrows(s: Session, room: Room, key: GroupKey, i: nat, accepts: set<PeerId>)
    requires s.keypair.Some? && s.keySet.Valid() && i <= |s.keySet.ids|
    ensures PublishFrom(s, room, key, i, accepts).threw <==> Refuses(room, s.id, s.epoch, s.keySet.ids[i..], s.sealedSent, accepts)
    decreases |s.keySet.ids| - i
  {
    hide SealGroupKey, DerivePairwise, Accepted, Publish, Takes;
    var ids := s.keySet.ids;
    if i < |ids| {
      var peer := ids[i];
      assert ids[i..] == [peer] + ids[i + 1..];
      if peer == s.id || peer in s.sealedSent {
        PublishingThrows(s, room, key, i + 1, accepts);
      } else {
        var env := SealFor(s, key, peer);
        TakenOnce(room, env, peer in accepts, env, false);
        if Accepted(room, env, peer in accepts) {
          var s', room' := s.(sealedSent := s.sealedSent + {peer}), Publish(room, env);
          PublishingThrows(s', room', key, i + 1, accepts);
          forall p | p in ids[i + 1..] ensures p != peer && (Takes(room', s.id, p, s.epoch, p in accepts) <==> Takes(room, s.id, p, s.epoch, p in accepts)) {
            StillTakes(room, env, s.id, p, s.epoch, p in accepts);
          }
        }
      }
    }
  }

  lemma StillTakes(room: Room, env: Envelope, from: PeerId, to: PeerId, epoch: nat, willing: bool)
    requires to != env.to
    ensures Takes(Publish(room, env), from, to, epoch, willing) <==> Takes(room, from, to, epoch, willing)
  {}

  /**
   A key set makes a session that has no key for the epoch in force, and leads, publish; it throws
   exactly if it has no keypair or the room refuses one of the blobs. Otherwise it ends READY exactly
   if there is anyone else and it holds the key or leads.
   */
  lemma KeySetAnswers(s: Session, room: Room, epoch: nat, keys: KeySet, env: Env)
    requires keys.Valid()
    ensures
      var o := OnKeySet(s, room, epoch, keys, env);
      var newer, alone := epoch > s.epoch, |keys.ids| <= 1;
      var holds, leads := !newer && s.roomKey != None, IsLowest(s.id, keys.ids);
      && (o.threw <==>
           && !alone && !holds && leads
           && (s.keypair == None
               || Refuses(room, s.id, if newer then epoch else s.epoch, keys.ids, if newer then {} else s.sealedSent, env.accepts)))
      && (o.threw ==> o.session.status == s.status && o.session.roomKey == None)
      && (!o.threw ==> o.session.status == if !alone && (holds || leads) then Ready else AwaitingKey)
      && (!o.threw ==> (o.session.roomKey != None <==> holds || (!alone && leads)))
  {
    hide LeaderOf, IsLowest, PublishFrom, Refuses;
    LeaderIsLowest(keys.ids);
    var adopted := AdoptKeySet(s, epoch, keys);
    var m := WithLeaderKey(adopted, env.draw);
    if m.keypair.Some? {
      PublishingThrows(m, room, m.leaderKey.value.key, 0, env.accepts);
      PublishOnlyServes(m, room, m.leaderKey.value.key, 0, env.accepts);
      assert keys.ids[0..] == keys.ids;
    }
  }

  // ---------------------------------------------------------------------------
  // Start
  // ---------------------------------------------------------------------------

  /**
   A start throws exactly if its registration or its request for the key set is refused, or if it
   leads and cannot publish; it is FAILED exactly if it throws. A refused registration leaves the room alone.
   */
  lemma StartAnswers(s: Session, room: Room, priv: nat, registers: bool, env: Env)
    requires room.peers.Valid()
    ensures
      var o := Start(s, room, priv, registers, env);
      && (o.threw <==> o.session.status == Failed)
      && o.session.keypair == Some(priv)
      && (!registers ==> o.threw && o.room == room && o.session == s.(keypair := Some(priv), status := Failed))
      && (registers && !env.refreshes ==> o.threw && o.room == Register(room, s.id, Pub(priv)))
      && (!o.threw ==> o.session.status == AwaitingKey || (o.session.status == Ready && o.session.roomKey != None))
  {
    hide OnKeySet, Register, IsLowest, Refuses;
    if registers {
      var joined := Register(room, s.id, Pub(priv));
      RegisterKeepsValid(room, s.id, Pub(priv));
      var registering := AdoptEpoch(s.(status := Registering, keypair := Some(priv)), joined.epoch);
      KeySetAnswers(registering, joined, joined.epoch, joined.peers, env);
      KeySetTouches(registering, joined, joined.epoch, joined.peers, env);
    }
  }

  // ---------------------------------------------------------------------------
  // Blobs
  // ---------------------------------------------------------------------------

  /** The blob names this session, or nobody, and a sender that is not this session. */
  ghost predicate IsFor(env: Envelope, id: PeerId) {
    env.to in {"", id} && env.from !in {"", id}
  }

  /** It is labelled with the session's epoch, or with a later one that the room confirms when asked. */
  ghost predicate InStep(s: Session, room: Room, env: Envelope, answered: bool) {
    env.epoch == s.epoch || (env.epoch > s.epoch && answered && env.epoch == room.epoch)
  }

  /** The keys at hand: asked for afresh if the epoch is ahead or the sender is not known. */
  function KeysAtHand(s: Session, room: Room, env: Envelope, answered: bool): map<PeerId, PublicKey> {
    if answered && (env.epoch > s.epoch || env.from !in s.keySet.keys) then room.peers.keys else s.keySet.keys
  }

  ghost predicate Unlocks(s: Session, env: Envelope, key: PublicKey) {
    && s.keypair != None && env.blob.key == DerivePairwise(s.keypair.value, key, s.roomId, env.epoch, s.id, env.from)
    && env.blob.aad == SealAad(s.roomId, env.epoch, env.from, s.id)
  }

  /** What becomes of a blob: each answer has its own reason. */
  ghost predicate Deserves(s: Session, room: Room, env: Envelope, answered: bool, reply: SealedReply) {
    var keys := KeysAtHand(s, room, env, answered);
    match reply
    case NotForMe => env.to !in {"", s.id}
    case FromSelf => env.to in {"", s.id} && env.from in {"", s.id}
    case StaleEpoch => IsFor(env, s.id) && env.epoch < s.epoch
    case EpochAhead => IsFor(env, s.id) && env.epoch > s.epoch && !InStep(s, room, env, answered)
    case UnknownSender => IsFor(env, s.id) && InStep(s, room, env, answered) && env.from !in keys
    case CannotOpen => IsFor(env, s.id) && InStep(s, room, env, answered) && env.from in keys && !Unlocks(s, env, keys[env.from])
    case Opened => IsFor(env, s.id) && InStep(s, room, env, answered) && env.from in keys && Unlocks(s, env, keys[env.from])
  }

  lemma OpeningAnswers(s: Session, room: Room, env: Envelope)
    ensures
      var o := OpenSealed(s, room, env);
      && (o.reply == UnknownSender <==> env.from !in s.keySet.keys)
      && (o.reply == Opened <==> env.from in s.keySet.keys && Unlocks(s, env, s.keySet.keys[env.from]))
      && o.reply in {UnknownSender, CannotOpen, Opened}
      && (o.reply.Opened? ==> o.session.status == Ready && o.session.roomKey == Some(env.blob.plain))
      && (o.reply.CannotOpen? ==> o.session.status == AwaitingKey)
  {
    hide DerivePairwise, SealAad;
  }

  /** The session that comes to opening: the one before, or the one that has asked for the key set. */
  lemma ComesToOpening(s: Session, room: Room, env: Envelope, e: Env)
    requires room.peers.Valid() && IsFor(env, s.id) && InStep(s, room, env, e.refreshes)
    ensures
      var asks := env.epoch > s.epoch || env.from !in s.keySet.keys;
      var at := if asks then RefreshKeySet(s, room, e) else Outcome(s, room, false);
      && OnSealedKey(s, room, env, false, e) == OpenSealed(at.session, at.room, env)
      && at.session.keySet.keys == KeysAtHand(s, room, env, e.refreshes)
      && at.session.keypair == s.keypair && at.session.id == s.id && at.session.roomId == s.roomId
  {
    hide OnKeySet, OpenSealed;
    RefreshKeepsRoom(s, room, e);
    KeySetTouches(s, room, room.epoch, room.peers, e);
  }

  lemma TurnedAway(s: Session, room: Room, env: Envelope, e: Env)
    requires room.peers.Valid() && !(IsFor(env, s.id) && InStep(s, room, env, e.refreshes))
    ensures
      var o := OnSealedKey(s, room, env, false, e);
      && o.reply in {NotForMe, FromSelf, StaleEpoch, EpochAhead} && Deserves(s, room, env, e.refreshes, o.reply)
      && (o.reply != EpochAhead ==> o.session == s && o.room == room)
  {
    hide OnKeySet, OpenSealed, Unlocks;
    RefreshKeepsRoom(s, room, e);
    KeySetTouches(s, room, room.epoch, room.peers, e);
  }

  /**
   A blob gets the answer it deserves and no other; one that opens leaves its key and READY, one that
   does not open leaves AWAITING_KEY, and one that is not looked at leaves everything as it was.
   */
  lemma BlobAnswers(s: Session, room: Room, env: Envelope, e: Env)
    requires room.peers.Valid()
    ensures
      var o := OnSealedKey(s, room, env, false, e);
      && (forall reply :: o.reply == reply <==> Deserves(s, room, env, e.refreshes, reply))
      && (o.reply.Opened? ==> o.session.status == Ready && o.session.roomKey == Some(env.blob.plain))
      && (o.reply.CannotOpen? ==> o.session.status == AwaitingKey)
      && (o.reply.NotForMe? || o.reply.FromSelf? || o.reply.StaleEpoch? ==> o.session == s && o.room == room)
  {
    hide OnSealedKey, OpenSealed, RefreshKeySet, DerivePairwise, SealAad, KeysAtHand;
    if IsFor(env, s.id) && InStep(s, room, env, e.refreshes) {
      ComesToOpening(s, room, env, e);
      var asks := env.epoch > s.epoch || env.from !in s.keySet.keys;
      var at := if asks then RefreshKeySet(s, room, e) else Outcome(s, room, false);
      OpeningAnswers(at.session, at.room, env);
    } else {
      TurnedAway(s, room, env, e);
    }
  }
}
