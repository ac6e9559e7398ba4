/**
 What one sender publishes, whatever the rules of the room and of the network:
 within an epoch all its blobs seal one key, and no peer is published to twice.
 */
module SessionPublishing {
  import opened Common
  import opened Text
  import opened Crypto
  import opened Utf16Order
  import opened SessionSpec
  import opened SessionSystem

  // ---------------------------------------------------------------------------
  // The discipline of one sender
  // ---------------------------------------------------------------------------

  /** Nothing is stored exactly while nothing has been published for the room's epoch. */
  ghost predicate Stored(room: Room) {
    && room.peers.Valid()
    && (forall env :: env in room.sent ==> env.epoch <= room.epoch)
    && (room.sealed == map[] ==> forall env :: env in room.sent ==> env.epoch < room.epoch)
    && SealedIsSent(room)
  }

  ghost predicate OneKeyPerSender(sent: seq<Envelope>) {
    forall i, j :: 0 <= i < j < |sent| && sent[i].from == sent[j].from && sent[i].epoch == sent[j].epoch ==>
      sent[i].blob.plain == sent[j].blob.plain && sent[i].to != sent[j].to
  }

  /** Every blob seals a key of its epoch under the labels it was published with. */
  ghost predicate WellSealed(roomId: string, sent: seq<Envelope>) {
    forall env :: env in sent ==>
      env.blob.plain.epoch == env.epoch && env.blob.aad == SealAad(roomId, env.epoch, env.from, env.to)
  }

  ghost predicate PublishedTo(room: Room, from: PeerId, to: PeerId, epoch: nat) {
    exists env :: env in room.sent && env.from == from && env.to == to && env.epoch == epoch
  }

  /** The session remembers what it has published in its epoch: the key, and to whom. */
  ghost predicate Loyal(room: Room, s: Session) {
    && (forall env :: env in room.sent && env.from == s.id ==>
          env.epoch < s.epoch || (env.epoch == s.epoch && s.leaderKey == Some(LeaderKey(s.epoch, env.blob.plain)) && env.to in s.sealedSent))
    && (forall p :: p in s.sealedSent ==> PublishedTo(room, s.id, p, s.epoch))
    && (s.leaderKey.Some? ==> s.leaderKey.value.key.epoch == s.leaderKey.value.epoch)
  }

  /** The room key, if there is one, was published by someone in the session's epoch. */
  ghost predicate Backed(room: Room, s: Session) {
    s.roomKey.Some? ==> exists env :: env in room.sent && env.epoch == s.epoch && env.blob.plain == s.roomKey.value
  }

  /** The room after handlers of `id`: only more blobs, all from `id` in the room's epoch. */
  ghost predicate GrewBy(room: Room, room': Room, id: PeerId) {
    && room' == room.(sealed := room'.sealed, sent := room'.sent)
    && room.sent <= room'.sent
    && forall env :: env in room'.sent ==> env in room.sent || (env.from == id && env.epoch == room.epoch)
  }

  ghost predicate Fine(roomId: string, room: Room) {
    Stored(room) && OneKeyPerSender(room.sent) && WellSealed(roomId, room.sent)
  }

  // ---------------------------------------------------------------------------
  // Publishing
  // ---------------------------------------------------------------------------

  lemma InGrown(sent: seq<Envelope>, env: Envelope)
    ensures forall e :: e in sent + [env] <==> e in sent || e == env
  {
    assert (sent + [env])[|sent|] == env;
    assert forall e :: e in sent ==> e in sent + [env];
  }

  lemma PublishIsStored(room: Room, env: Envelope)
    requires Stored(room) && env.epoch == room.epoch
    ensures Stored(Publish(room, env))
  {
    hide SealedIsSent;
    PublishStores(room, env);
    InGrown(room.sent, env);
    assert env.to in Publish(room, env).sealed;
  }

  lemma PublishIsLoyal(s: Session, room: Room, key: GroupKey, peer: PeerId)
    requires s.keypair.Some? && peer in s.keySet.keys && peer !in s.sealedSent
    requires Fine(s.roomId, room) && Loyal(room, s) && s.epoch == room.epoch
    requires s.leaderKey == Some(LeaderKey(s.epoch, key))
    ensures
      var env := SealFor(s, key, peer);
      var t := s.(sealedSent := s.sealedSent + {peer});
      && env.from == s.id && env.to == peer && env.epoch == s.epoch && env.blob.plain == key
      && Fine(s.roomId, Publish(room, env)) && Loyal(Publish(room, env), t) && GrewBy(room, Publish(room, env), s.id)
  {
    hide DerivePairwise, SealAad, Stored;
    var env := SealFor(s, key, peer);
    var room' := Publish(room, env);
    InGrown(room.sent, env);
    PublishIsStored(room, env);
    forall p | p in s.sealedSent + {peer} ensures PublishedTo(room', s.id, p, s.epoch) {
      if p == peer {
        assert env in room'.sent;
      } else {
        var e :| e in room.sent && e.from == s.id && e.to == p && e.epoch == s.epoch;
        assert e in room'.sent;
      }
    }
    forall i | 0 <= i < |room.sent| && room.sent[i].from == s.id && room.sent[i].epoch == s.epoch
      ensures room.sent[i].blob.plain == key && room.sent[i].to != peer
    {
      assert room.sent[i] in room.sent;
    }
  }

  lemma {:induction false} LoopIsLoyal(s: Session, room: Room, key: GroupKey, i: nat, accepts: set<PeerId>)
    requires s.keypair.Some? && s.keySet.Valid() && i <= |s.keySet.ids|
    requires Fine(s.roomId, room) && Loyal(room, s) && s.leaderKey == Some(LeaderKey(s.epoch, key))
    ensures
      var o := PublishFrom(s, room, key, i, accepts);
      && Fine(s.roomId, o.room) && Loyal(o.room, o.session) && GrewBy(room, o.room, s.id)
      && o.session == s.(sealedSent := o.session.sealedSent) && s.sealedSent <= o.session.sealedSent
      && (!o.threw ==> forall j :: i <= j < |s.keySet.ids| && s.keySet.ids[j] != s.id ==> s.keySet.ids[j] in o.session.sealedSent)
    decreases |s.keySet.ids| - i
  {
    hide Fine, Loyal, SealFor;
    if i < |s.keySet.ids| {
      var peer := s.keySet.ids[i];
      if peer == s.id || peer in s.sealedSent {
        LoopIsLoyal(s, room, key, i + 1, accepts);
      } else {
        var env := SealFor(s, key, peer);
        assert env.epoch == s.epoch by { SealedFrom(s, key, peer); }
        if Accepted(room, env, peer in accepts) {
          PublishIsLoyal(s, room, key, peer);
          LoopIsLoyal(s.(sealedSent := s.sealedSent + {peer}), Publish(room, env), key, i + 1, accepts);
        }
      }
    }
  }

  lemma SealedFrom(s: Session, key: GroupKey, peer: PeerId)
    requires s.keypair.Some? && peer in s.keySet.keys
    ensures SealFor(s, key, peer).epoch == s.epoch
  {}

  // ---------------------------------------------------------------------------
  // Handlers
  // ---------------------------------------------------------------------------

  /** What one handler leaves of a session that was loyal. */
  ghost predicate StaysLoyal(s: Session, room: Room, s': Session, room': Room) {
    && Fine(s.roomId, room') && Loyal(room', s') && GrewBy(room, room', s.id)
    && s'.id == s.id && s'.roomId == s.roomId && s'.keypair == s.keypair
    && s.epoch <= s'.epoch && (s'.epoch == s.epoch || s'.epoch <= room.epoch)
  }

  lemma AdoptIsLoyal(s: Session, room: Room, epoch: nat, keys: KeySet, draw: nat)
    requires Loyal(room, s) && epoch <= room.epoch
    ensures Loyal(room, AdoptKeySet(s, epoch, keys))
    ensures Loyal(room, WithLeaderKey(AdoptKeySet(s, epoch, keys), draw))
    ensures Backed(room, s) ==> Backed(room, AdoptKeySet(s, epoch, keys))
  {
  }

  /** The part of a distribution before the room key is set. */
  lemma RoundIsLoyal(s: Session, room: Room, epoch: nat, keys: KeySet, env: Env)
    requires Fine(s.roomId, room) && Loyal(room, s) && epoch <= room.epoch && keys.Valid() && s.keypair.Some? && |keys.ids| > 1
    ensures
      var m := WithLeaderKey(AdoptKeySet(s, epoch, keys), env.draw);
      var key := m.leaderKey.value.key;
      var o := PublishFrom(m, room, key, 0, env.accepts);
      && StaysLoyal(s, room, o.session, o.room)
      && o.session == m.(sealedSent := o.session.sealedSent)
      && (!o.threw ==> Backed(o.room, Install(o.session, key)))
  {
    hide Fine;
    var m := WithLeaderKey(AdoptKeySet(s, epoch, keys), env.draw);
    AdoptIsLoyal(s, room, epoch, keys, env.draw);
    LoopIsLoyal(m, room, m.leaderKey.value.key, 0, env.accepts);
    var o := PublishFrom(m, room, m.leaderKey.value.key, 0, env.accepts);
    if !o.threw {
      var p := if keys.ids[0] == s.id then keys.ids[1] else keys.ids[0];
      assert p in keys.ids && p != s.id;
      assert p in o.session.sealedSent;
      var e :| e in o.room.sent && e.from == s.id && e.to == p && e.epoch == o.session.epoch;
      assert e.blob.plain == m.leaderKey.value.key;
    }
  }

  lemma StatusIsLoyal(room: Room, s: Session, status: Status)
    requires Loyal(room, s)
    ensures Loyal(room, s.(status := status)) && (Backed(room, s) ==> Backed(room, s.(status := status)))
  {}

  lemma InstallIsLoyal(room: Room, s: Session, key: GroupKey)
    requires Loyal(room, s)
    ensures Loyal(room, Install(s, key))
  {}

  lemma KeySetIsLoyal(s: Session, room: Room, epoch: nat, keys: KeySet, env: Env)
    requires Fine(s.roomId, room) && Loyal(room, s) && epoch <= room.epoch && keys.Valid() && s.keypair.Some?
    ensures
      var o := OnKeySet(s, room, epoch, keys, env);
      && StaysLoyal(s, room, o.session, o.room) && o.session.keySet == keys
      && (o.session.epoch == if epoch > s.epoch then epoch else s.epoch)
      && (Backed(room, s) ==> Backed(o.room, o.session))
      && (o.room != room ==> LeaderOf(keys.ids) == Some(s.id))
  {
    hide Fine, Loyal, Backed, PublishFrom, LeaderOf;
    var t := AdoptKeySet(s, epoch, keys);
    AdoptIsLoyal(s, room, epoch, keys, env.draw);
    StatusIsLoyal(room, t, AwaitingKey);
    StatusIsLoyal(room, t, Ready);
    if |keys.ids| > 1 && t.roomKey.None? && IsLeader(t) {
      RoundIsLoyal(s, room, epoch, keys, env);
      var m := WithLeaderKey(t, env.draw);
      var key := m.leaderKey.value.key;
      var o := PublishFrom(m, room, key, 0, env.accepts);
      InstallIsLoyal(o.room, o.session, key);
      assert o.session.roomKey == None;
      assert Backed(o.room, o.session) by { NothingHeld(o.room, o.session); }
    }
  }

  lemma NothingHeld(room: Room, s: Session)
    requires s.roomKey.None?
    ensures Backed(room, s)
  {}

  lemma RefreshIsLoyal(s: Session, room: Room, env: Env)
    requires Fine(s.roomId, room) && Loyal(room, s) && s.keypair.Some? && room.peers.Valid()
    ensures
      var o := RefreshKeySet(s, room, env);
      && StaysLoyal(s, room, o.session, o.room)
      && (o.session.epoch == s.epoch || o.session.epoch == room.epoch) && o.session.epoch >= s.epoch
      && (Backed(room, s) ==> Backed(o.room, o.session))
      && (o.room != room ==> LeaderOf(room.peers.ids) == Some(s.id))
  {
    hide Fine, OnKeySet, LeaderOf, Backed;
    if env.refreshes {
      KeySetIsLoyal(s, room, room.epoch, room.peers, env);
    } else {
      assert room == room.(sealed := room.sealed, sent := room.sent);
    }
  }

  /** The blob's labels and one end of its key are those of `s`. */
  predicate Opens(s: Session, env: Envelope) {
    && env.blob.aad == SealAad(s.roomId, env.epoch, env.from, s.id)
    && s.keypair.Some? && Uses(env.blob, s.keypair.value)
  }

  /** What opening installs: nothing, or what the blob seals, under labels that match it. */
  lemma OpenIsLoyal(s: Session, room: Room, env: Envelope)
    requires Loyal(room, s)
    ensures
      var o := OpenSealed(s, room, env);
      && Loyal(room, o.session) && o.room == room
      && o.session == s.(roomKey := o.session.roomKey, status := o.session.status)
      && (o.session.roomKey != s.roomKey ==>
            && o.session.roomKey == Some(env.blob.plain)
            && Opens(s, env))
  {
    hide SealAad;
  }

  /** The blob is one of those published in the epoch it is labelled with, if `s` can open it at all. */
  ghost predicate Truthful(room: Room, s: Session, env: Envelope) {
    Opens(s, env) ==>
      exists sent :: sent in room.sent && sent.epoch == env.epoch && sent.blob.plain == env.blob.plain
  }

  lemma SealedIsLoyal(s: Session, room: Room, env: Envelope, e: Env)
    requires Fine(s.roomId, room) && Loyal(room, s) && s.keypair.Some? && room.peers.Valid()
    ensures
      var o := OnSealedKey(s, room, env, false, e);
      && StaysLoyal(s, room, o.session, o.room)
      && (o.room != room ==> LeaderOf(room.peers.ids) == Some(s.id))
  {
    hide Fine, Loyal, OpenSealed, RefreshKeySet, LeaderOf, Backed;
    assert GrewBy(room, room, s.id) by { NothingGrew(room, s.id); }
    RefreshIsLoyal(s, room, e);
    var r := RefreshKeySet(s, room, e);
    OpenIsLoyal(s, room, env);
    OpenIsLoyal(r.session, r.room, env);
  }

  lemma NothingGrew(room: Room, id: PeerId)
    ensures GrewBy(room, room, id)
  {
    assert room == room.(sealed := room.sealed, sent := room.sent);
  }

  /** A truthful blob of the room's epoch leaves a backed key backed. */
  lemma SealedIsBacked(s: Session, room: Room, env: Envelope, e: Env)
    requires Fine(s.roomId, room) && Loyal(room, s) && s.keypair.Some? && room.peers.Valid() && Backed(room, s)
    requires env.epoch == room.epoch
    requires Truthful(room, s, env)
    ensures
      var o := OnSealedKey(s, room, env, false, e);
      Backed(o.room, o.session)
  {
    hide Fine, Loyal, OpenSealed, RefreshKeySet, LeaderOf;
    RefreshIsLoyal(s, room, e);
    var r := RefreshKeySet(s, room, e);
    OpenIsLoyal(s, room, env);
    OpenIsLoyal(r.session, r.room, env);
    assert forall sent :: sent in room.sent ==> sent in r.room.sent;
  }

  // ---------------------------------------------------------------------------
  // The system
  // ---------------------------------------------------------------------------

  ghost predicate Bounded(sys: System) {
    forall a :: a in sys.announced ==> a.epoch <= sys.room.epoch
  }

  /** A session at rest has drawn nothing and served nobody. */
  ghost predicate AtRest(s: Session) {
    s.leaderKey.None? && s.sealedSent == {}
  }

  ghost predicate SessionFine(sys: System, id: PeerId, s: Session) {
    && s.id == id && s.roomId == sys.roomId && s.epoch <= sys.room.epoch
    && if id in sys.live then s.keypair.Some? && Loyal(sys.room, s) else AtRest(s)
  }

  ghost predicate AllFine(sys: System) {
    && Fine(sys.roomId, sys.room) && Bounded(sys) && sys.earlier == []
    && sys.live <= sys.sessions.Keys
    && forall id :: id in sys.sessions ==> SessionFine(sys, id, sys.sessions[id])
  }

  lemma LoyalCarries(room: Room, room': Room, s: Session, other: PeerId)
    requires Loyal(room, s) && GrewBy(room, room', other) && other != s.id
    ensures Loyal(room', s)
  {
    forall p | p in s.sealedSent ensures PublishedTo(room', s.id, p, s.epoch) {
      var e :| e in room.sent && e.from == s.id && e.to == p && e.epoch == s.epoch;
      assert e in room'.sent;
    }
  }

  lemma LoyalLater(room: Room, room': Room, s: Session)
    requires Loyal(room, s) && room'.sent == room.sent && room'.epoch >= room.epoch
    ensures Loyal(room', s)
  {
    forall p | p in s.sealedSent ensures PublishedTo(room', s.id, p, s.epoch) {
      assert PublishedTo(room, s.id, p, s.epoch);
    }
  }

  /** A handler of a live session is over: `s` and `room` are what it leaves. */
  lemma HandlerKeeps(sys: System, id: PeerId, s: Session, room: Room)
    requires AllFine(sys) && id in sys.live && StaysLoyal(sys.sessions[id], sys.room, s, room)
    ensures AllFine(Put(sys, id, s, room))
  {
    hide Fine, Loyal;
    assert SessionFine(sys, id, sys.sessions[id]);
    var sys' := Put(sys, id, s, room);
    forall x | x in sys'.sessions ensures SessionFine(sys', x, sys'.sessions[x]) {
      assert x in sys.sessions && SessionFine(sys, x, sys.sessions[x]);
      if x != id && x in sys.live {
        LoyalCarries(sys.room, room, sys.sessions[x], id);
      }
    }
  }

  /** The room moves to a later epoch, or changes its members while nothing is stored. */
  lemma MoveKeeps(sys: System, room: Room)
    requires AllFine(sys) && Stored(room) && room.sent == sys.room.sent && room.epoch >= sys.room.epoch
    ensures AllFine(WithRoom(sys, room))
  {
    hide Loyal;
    var sys' := WithRoom(sys, room);
    forall x | x in sys'.sessions ensures SessionFine(sys', x, sys'.sessions[x]) {
      assert SessionFine(sys, x, sys.sessions[x]);
      if x in sys.live {
        LoyalLater(sys.room, room, sys.sessions[x]);
      }
    }
  }

  /** A session is replaced by one at rest. */
  lemma RestKeeps(sys: System, id: PeerId, s: Session, live: set<PeerId>, suspended: map<PeerId, GroupKey>)
    requires AllFine(sys) && live == sys.live - {id} && AtRest(s)
    requires s.id == id && s.roomId == sys.roomId && s.epoch <= sys.room.epoch
    ensures AllFine(With(sys, id, s).(live := live, suspended := suspended))
  {
    hide Loyal, Fine;
    var sys' := With(sys, id, s).(live := live, suspended := suspended);
    forall x | x in sys'.sessions ensures SessionFine(sys', x, sys'.sessions[x]) {
      if x != id {
        assert SessionFine(sys, x, sys.sessions[x]);
      }
    }
  }

  lemma RegisterIsStored(room: Room, id: PeerId, key: PublicKey)
    requires Stored(room) && id !in room.peers.keys
    ensures
      var joined := Register(room, id, key);
      && Stored(joined) && joined.sent == room.sent && joined.epoch >= room.epoch
      && forall env :: env in joined.sent ==> env.epoch < joined.epoch
  {
    RegisterKeepsValid(room, id, key);
  }

  /** The newcomer, registered and not yet told the key set, finds nothing published in the epoch it joins. */
  lemma EnterKeeps(sys: System, id: PeerId, priv: nat)
    requires AllFine(sys) && id in sys.sessions && id !in sys.live && id !in sys.room.peers.keys
    ensures
      var joined := Register(sys.room, id, Pub(priv));
      var t := AdoptEpoch(sys.sessions[id].(status := Registering, keypair := Some(priv)), joined.epoch);
      && AllFine(With(WithRoom(sys, joined), id, t).(live := sys.live + {id}, books := Enrol(sys.books, id, priv, true)))
      && Fine(sys.roomId, joined) && Loyal(joined, t) && joined.peers.Valid()
  {
    hide Fine, Loyal, Register;
    var s := sys.sessions[id];
    assert SessionFine(sys, id, s);
    FineParts(sys);
    RegisterIsStored(sys.room, id, Pub(priv));
    RegisterKeepsValid(sys.room, id, Pub(priv));
    var joined := Register(sys.room, id, Pub(priv));
    MoveKeeps(sys, joined);
    var moved := WithRoom(sys, joined);
    var t := AdoptEpoch(s.(status := Registering, keypair := Some(priv)), joined.epoch);
    FreshIsLoyal(joined, t);
    var mid := With(moved, id, t).(live := sys.live + {id}, books := Enrol(sys.books, id, priv, true));
    forall x | x in mid.sessions ensures SessionFine(mid, x, mid.sessions[x]) {
      if x != id {
        assert SessionFine(moved, x, moved.sessions[x]);
      }
    }
  }

  lemma JoinKeeps(rules: Rules, sys: System, id: PeerId, priv: nat, env: Env)
    requires AllFine(sys) && Possible(rules, sys, Join(id, priv, true, env))
    ensures AllFine(Apply(rules, sys, Join(id, priv, true, env)))
  {
    hide Fine, Loyal, RefreshKeySet, Register, AllFine, Start, AdoptEpoch, WithLeaderKey;
    assert sys.sessions[id].id == id && sys.sessions[id].roomId == sys.roomId by { Identified(sys, id); }
    EnterKeeps(sys, id, priv);
    var joined := Register(sys.room, id, Pub(priv));
    var t := AdoptEpoch(sys.sessions[id].(status := Registering, keypair := Some(priv)), joined.epoch);
    var mid := With(WithRoom(sys, joined), id, t).(live := sys.live + {id}, books := Enrol(sys.books, id, priv, true));
    AdoptKeepsNames(sys.sessions[id], priv, joined.epoch);
    RefreshIsLoyal(t, joined, env);
    var r := RefreshKeySet(t, joined, env);
    var last := if r.threw then r.session.(status := Failed) else r.session;
    StatusIsLoyal(r.room, r.session, Failed);
    HandlerKeeps(mid, id, last, r.room);
    assert Start(sys.sessions[id], sys.room, priv, true, env) == r.(session := last) by { StartIs(sys, id, priv, env); }
    PutAgain(sys, id, joined, t, last, r.room, Enrol(sys.books, id, priv, true));
  }

  lemma AdoptKeepsNames(s: Session, priv: nat, epoch: nat)
    ensures
      var t := AdoptEpoch(s.(status := Registering, keypair := Some(priv)), epoch);
      t.id == s.id && t.roomId == s.roomId && t.keypair == Some(priv)
  {}

  /** `start()`, from the registration on. */
  lemma StartIs(sys: System, id: PeerId, priv: nat, env: Env)
    requires sys.room.peers.Valid() && id in sys.sessions && sys.sessions[id].id == id
    ensures
      var joined := Register(sys.room, id, Pub(priv));
      && joined.peers.Valid()
      && var t := AdoptEpoch(sys.sessions[id].(status := Registering, keypair := Some(priv)), joined.epoch);
      var r := RefreshKeySet(t, joined, env);
      Start(sys.sessions[id], sys.room, priv, true, env) == r.(session := if r.threw then r.session.(status := Failed) else r.session)
  {
    hide RefreshKeySet, Register;
    RegisterKeepsValid(sys.room, id, Pub(priv));
  }

  /** Registering and then handling the reply leaves the system as doing both at once. */
  lemma PutAgain(sys: System, id: PeerId, joined: Room, t: Session, last: Session, room: Room, books: Books)
    requires room.epoch == joined.epoch && room.peers == joined.peers
    ensures
      Put(With(WithRoom(sys, joined), id, t).(live := sys.live + {id}, books := books), id, last, room)
        == Put(sys, id, last, room).(live := sys.live + {id}, books := books)
  {
    assert sys.sessions[id := t][id := last] == sys.sessions[id := last];
    var a := Announcement(room.epoch, room.peers);
    assert sys.announced + {a} + {a} == sys.announced + {a};
  }

  lemma Identified(sys: System, id: PeerId)
    requires AllFine(sys) && id in sys.sessions
    ensures sys.sessions[id].id == id && sys.sessions[id].roomId == sys.roomId
  {
    assert SessionFine(sys, id, sys.sessions[id]);
  }

  lemma FineParts(sys: System)
    requires AllFine(sys)
    ensures Stored(sys.room)
  {}

  lemma FreshIsLoyal(room: Room, t: Session)
    requires AtRest(t) && t.epoch >= room.epoch && forall env :: env in room.sent ==> env.epoch < room.epoch
    ensures Loyal(room, t)
  {}

  lemma RefusedKeeps(rules: Rules, sys: System, id: PeerId, priv: nat, env: Env)
    requires AllFine(sys) && Possible(rules, sys, Join(id, priv, false, env))
    ensures AllFine(Apply(rules, sys, Join(id, priv, false, env)))
  {
    hide Fine, Loyal;
    var s := sys.sessions[id];
    assert SessionFine(sys, id, s);
    var t := s.(status := Failed, keypair := Some(priv));
    RestKeeps(sys, id, t, sys.live - {id}, sys.suspended);
    var sys' := Apply(rules, sys, Join(id, priv, false, env));
    var rested := With(sys, id, t).(live := sys.live - {id}, suspended := sys.suspended);
    FineParts(sys);
    MoveKeeps(rested, sys.room);
    BooksAreFree(WithRoom(rested, sys.room), sys.suspended, Enrol(sys.books, id, priv, false));
    assert sys' == WithRoom(rested, sys.room).(books := Enrol(sys.books, id, priv, false));
  }

  /** A broadcast reaches a session, registered or without a keypair. */
  lemma ListenKeeps(rules: Rules, sys: System, step: Step)
    requires AllFine(sys) && Possible(rules, sys, step) && (step.DeliverKeySet? || step.DeliverSealed?)
    ensures AllFine(Apply(rules, sys, step))
  {
    hide Fine, OnKeySet, OnSealedKey, Loyal, Relayed;
    var id := step.id;
    var s := sys.sessions[id];
    assert SessionFine(sys, id, s);
    assert step.DeliverKeySet? ==> step.news.epoch <= sys.room.epoch;
    if id in sys.live {
      match step
      case DeliverKeySet(_, news, env) =>
        KeySetIsLoyal(s, sys.room, news.epoch, news.keys, env);
        var o := OnKeySet(s, sys.room, news.epoch, news.keys, env);
        HandlerKeeps(sys, id, o.session, o.room);
      case DeliverSealed(_, envelope, env) =>
        SealedIsLoyal(s, sys.room, envelope, env);
        var o := OnSealedKey(s, sys.room, envelope, false, env);
        HandlerKeeps(sys, id, o.session, o.room);
    } else {
      RestListens(rules, sys, step);
    }
  }

  /** Without a keypair nothing is drawn or published. */
  lemma RestHears(s: Session, room: Room, epoch: nat, keys: KeySet, env: Env)
    requires s.keypair.None? && AtRest(s) && keys.Valid()
    ensures
      var o := OnKeySet(s, room, epoch, keys, env);
      && o.room == room && AtRest(o.session) && o.session.id == s.id && o.session.roomId == s.roomId
      && o.session.keypair == s.keypair && o.session.keySet == keys && (o.session.roomKey == s.roomKey || o.session.roomKey.None?)
      && (o.session.roomKey.Some? ==> o.session.epoch == s.epoch)
      && (o.session.epoch == if epoch > s.epoch then epoch else s.epoch)
  {
    hide LeaderOf;
  }

  lemma RestReceives(s: Session, room: Room, envelope: Envelope, env: Env)
    requires s.keypair.None? && AtRest(s) && room.peers.Valid()
    ensures
      var o := OnSealedKey(s, room, envelope, false, env);
      && o.reply != Opened && o.room == room && AtRest(o.session) && o.session.id == s.id && o.session.roomId == s.roomId
      && (o.session.keySet == s.keySet || o.session.keySet == room.peers)
      && (o.session.roomKey == s.roomKey || o.session.roomKey.None?) && (o.session.roomKey.Some? ==> o.session.epoch == s.epoch)
      && (o.session.epoch == s.epoch || (o.session.epoch == room.epoch && room.epoch > s.epoch && o.session.keySet == room.peers))
  {
    hide OnKeySet, DerivePairwise, OpenGroupKey;
    RestHears(s, room, room.epoch, room.peers, env);
  }

  lemma RestListens(rules: Rules, sys: System, step: Step)
    requires AllFine(sys) && Possible(rules, sys, step) && (step.DeliverKeySet? || step.DeliverSealed?)
    requires step.id !in sys.live
    ensures AllFine(Apply(rules, sys, step))
  {
    hide Fine, OnKeySet, OnSealedKey, Loyal, Relayed;
    var id := step.id;
    var s := sys.sessions[id];
    assert SessionFine(sys, id, s);
    var t: Session;
    match step {
      case DeliverKeySet(_, news, env) =>
        RestHears(s, sys.room, news.epoch, news.keys, env);
        t := OnKeySet(s, sys.room, news.epoch, news.keys, env).session;
        assert news.epoch <= sys.room.epoch;
      case DeliverSealed(_, envelope, env) =>
        RestReceives(s, sys.room, envelope, env);
        t := OnSealedKey(s, sys.room, envelope, false, env).session;
    }
    var sys' := Apply(rules, sys, step);
    RestKeeps(sys, id, t, sys.live - {id}, sys.suspended);
    var rested := With(sys, id, t).(live := sys.live - {id}, suspended := sys.suspended);
    FineParts(sys);
    MoveKeeps(rested, sys.room);
    assert sys' == WithRoom(rested, sys.room);
  }

  lemma PauseKeeps(rules: Rules, sys: System, id: PeerId, news: Announcement, env: Env)
    requires AllFine(sys) && Possible(rules, sys, DeliverAndPause(id, news, env))
    ensures AllFine(Apply(rules, sys, DeliverAndPause(id, news, env)))
  {
    hide Fine, Loyal, PublishFrom, LeaderOf;
    var s := sys.sessions[id];
    assert SessionFine(sys, id, s);
    assert news.epoch <= sys.room.epoch;
    RoundIsLoyal(s, sys.room, news.epoch, news.keys, env);
    var (o, key) := Published(s, sys.room, news.epoch, news.keys, env).value;
    HandlerKeeps(sys, id, o.session, o.room);
    BooksAreFree(Put(sys, id, o.session, o.room), sys.suspended[id := key], sys.books);
  }

  lemma BooksAreFree(sys: System, suspended: map<PeerId, GroupKey>, books: Books)
    requires AllFine(sys)
    ensures AllFine(sys.(suspended := suspended, books := books))
  {
    hide Fine, Loyal;
    forall x | x in sys.sessions ensures SessionFine(sys.(suspended := suspended, books := books), x, sys.sessions[x]) {
      assert SessionFine(sys, x, sys.sessions[x]);
    }
  }

  lemma OpeningKeeps(rules: Rules, sys: System, id: PeerId, envelope: Envelope, env: Env)
    requires AllFine(sys) && Possible(rules, sys, OpenAndPause(id, envelope, env))
    ensures AllFine(Apply(rules, sys, OpenAndPause(id, envelope, env)))
  {
    hide Fine, Loyal, RefreshKeySet, Relayed, DerivePairwise;
    var s := sys.sessions[id];
    assert SessionFine(sys, id, s);
    var (o, key) := Unlocked(s, sys.room, envelope, env).value;
    if s.keypair.None? {
      RestReceives(s, sys.room, envelope, env);
      assert false;
    }
    RefreshIsLoyal(s, sys.room, env);
    NothingGrew(sys.room, s.id);
    HandlerKeeps(sys, id, o.session, o.room);
    BooksAreFree(Put(sys, id, o.session, o.room), sys.suspended[id := key], sys.books);
  }

  lemma ResumeKeeps(rules: Rules, sys: System, id: PeerId)
    requires AllFine(sys) && Possible(rules, sys, Resume(id))
    ensures AllFine(Apply(rules, sys, Resume(id)))
  {
    hide Fine, Loyal;
    var sys' := Apply(rules, sys, Resume(id));
    forall x | x in sys'.sessions ensures SessionFine(sys', x, sys'.sessions[x]) {
      assert SessionFine(sys, x, sys.sessions[x]);
      if x == id && id in sys.live {
        InstallIsLoyal(sys.room, sys.sessions[id], sys.suspended[id]);
      }
    }
  }

  lemma StepKeepsFine(rules: Rules, sys: System, step: Step)
    requires rules.keeps && AllFine(sys) && Possible(rules, sys, step)
    ensures AllFine(Apply(rules, sys, step))
  {
    hide Loyal, OneKeyPerSender, WellSealed;
    match step
    case Construct(id) => RestKeeps(sys, id, NewSession(sys.roomId, id), sys.live, sys.suspended - {id});
    case Join(id, priv, registers, env) =>
      if registers {
        JoinKeeps(rules, sys, id, priv, env);
      } else {
        RefusedKeeps(rules, sys, id, priv, env);
      }
    case DeliverKeySet(_, _, _) => ListenKeeps(rules, sys, step);
    case DeliverSealed(_, _, _) => ListenKeeps(rules, sys, step);
    case Leave(id) =>
      assert SessionFine(sys, id, sys.sessions[id]);
      RestKeeps(sys, id, Clear(sys.sessions[id]), sys.live - {id}, sys.suspended);
    case Drop(id) =>
      WithoutIs(sys.room.peers.ids, id);
      MoveKeeps(sys, Remove(sys.room, id));
    case Rotate => MoveKeeps(sys, Bump(sys.room));
    case DeliverAndPause(id, news, env) => PauseKeeps(rules, sys, id, news, env);
    case OpenAndPause(id, envelope, env) => OpeningKeeps(rules, sys, id, envelope, env);
    case Resume(id) => ResumeKeeps(rules, sys, id);
  }

  lemma {:induction false} RunIsFine(rules: Rules, sys: System, steps: seq<Step>)
    requires rules.keeps && AllFine(sys) && Legal(rules, sys, steps)
    ensures AllFine(After(rules, sys, steps))
    decreases |steps|
  {
    hide AllFine, Possible, Apply;
    if steps != [] {
      StepKeepsFine(rules, sys, steps[0]);
      RunIsFine(rules, Apply(rules, sys, steps[0]), steps[1..]);
    }
  }

  /**
   Whatever else the rules allow, and in both kinds of room, as long as the room's record is
   kept: the blobs one sender publishes in an epoch all seal one key, each for another peer.
   */
  lemma SendersAreConsistent(rules: Rules, sys: System, eager: bool)
    requires rules.keeps && Reachable(rules, sys, eager)
    ensures AllFine(sys) && OneKeyPerSender(sys.room.sent) && AllSent(sys) == sys.room.sent
  {
    hide Legal, After;
    var steps :| Legal(rules, Initial(sys.roomId, eager), steps) && After(rules, Initial(sys.roomId, eager), steps) == sys
                 && (rules.relabels ==> BAR !in sys.roomId);
    RunIsFine(rules, Initial(sys.roomId, eager), steps);
  }
}
