/**
 The invariant of the key exchange, and that every step keeps it. A handler is
 taken apart into the few things it does to the system (adopt a key set, mint,
 publish, install, open), each of which keeps the invariant by itself.
 */
module SessionInvariant {
  import opened Common
  import opened Text
  import opened Crypto
  import opened Utf16Order
  import opened SessionSpec
  import opened SessionSystem

  // ---------------------------------------------------------------------------
  // The invariant
  // ---------------------------------------------------------------------------

  ghost predicate IsLeaderAt(sys: System, id: PeerId, epoch: nat) {
    exists a :: a in sys.announced && a.epoch == epoch && LeaderOf(a.keys.ids) == Some(id)
  }

  /** One key set per epoch, the newest one being the room's own. */
  ghost predicate RoomOk(sys: System) {
    && sys.room.eager && sys.room.peers.Valid() && sys.earlier == [] && SealedIsSent(sys.room)
    && Announcement(sys.room.epoch, sys.room.peers) in sys.announced
    && (forall a :: a in sys.announced ==> a.epoch <= sys.room.epoch && a.keys.Valid())
    && (forall a, b :: a in sys.announced && b in sys.announced && a.epoch == b.epoch ==> a == b)
  }

  /** A session that minted `k` has left the epoch of `k`, or still has `k` at hand for retries. */
  ghost predicate Remembers(s: Session, k: GroupKey) {
    s.epoch > k.epoch || (s.epoch == k.epoch && s.leaderKey == Some(LeaderKey(k.epoch, k)))
  }

  /** At most one room key is ever drawn per epoch, by the leader of that epoch's key set. */
  ghost predicate MintedOk(sys: System) {
    && (forall k :: k in sys.minted ==> k.epoch <= sys.room.epoch && IsLeaderAt(sys, k.minter, k.epoch))
    && (forall k, k' :: k in sys.minted && k' in sys.minted && k.epoch == k'.epoch ==> k == k')
  }

  /** Keys in a session's hands are keys that were minted for the epoch they are held under. */
  ghost predicate HeldOk(sys: System, s: Session) {
    && (s.leaderKey.Some? ==>
          var lk := s.leaderKey.value;
          lk.key in sys.minted && lk.key.epoch == lk.epoch && lk.key.minter == s.id)
    && (s.roomKey.Some? ==> s.roomKey.value in sys.minted && s.roomKey.value.epoch == s.epoch)
  }

  ghost predicate WasSent(room: Room, from: PeerId, to: PeerId, epoch: nat) {
    exists env :: env in room.sent && env.from == from && env.to == to && env.epoch == epoch
  }

  /** A leader that holds the room key has already sealed it to every other peer. */
  ghost predicate Served(s: Session) {
    s.roomKey.Some? && IsLeader(s) ==> forall p :: p in s.keySet.ids && p != s.id ==> p in s.sealedSent
  }

  ghost predicate LiveOk(sys: System, id: PeerId, s: Session) {
    && s.id == id && s.roomId == sys.roomId && s.epoch <= sys.room.epoch && s.keypair.Some?
    && Announcement(s.epoch, s.keySet) in sys.announced
    && (id in sys.room.peers.keys ==> sys.room.peers.keys[id] == Pub(s.keypair.value))
    && HeldOk(sys, s)
    && (forall k :: k in sys.minted && k.minter == id ==> Remembers(s, k))
    && (forall p :: p in s.sealedSent <==> WasSent(sys.room, id, p, s.epoch))
    && Served(s)
  }

  ghost predicate IdleOk(sys: System, id: PeerId, s: Session) {
    && s.id == id && s.roomId == sys.roomId && s.epoch <= sys.room.epoch
    && s.roomKey.None? && s.leaderKey.None? && s.sealedSent == {}
  }

  /** `a` is the key set `env` was sealed for, and its blob is what that epoch's leader seals for `env.to`. */
  ghost predicate SealedFor(sys: System, env: Envelope, a: Announcement) {
    && a in sys.announced && a.epoch == env.epoch
    && env.from in a.keys.keys && env.to in a.keys.keys
    && env.blob == SealGroupKey(env.blob.plain,
                                DerivePairwise(a.keys.keys[env.from].priv, a.keys.keys[env.to], sys.roomId, env.epoch, env.from, env.to),
                                sys.roomId, env.epoch, env.from, env.to)
  }

  ghost predicate EnvelopeOk(sys: System, env: Envelope) {
    && env.blob.plain in sys.minted && env.blob.plain.epoch == env.epoch && env.blob.plain.minter == env.from
    && env.to != env.from
    && exists a :: SealedFor(sys, env, a)
  }

  /** Within an epoch no peer is published to twice. */
  ghost predicate NoRepeats(sent: seq<Envelope>) {
    forall i, j :: 0 <= i < j < |sent| ==> !(sent[i].to == sent[j].to && sent[i].epoch == sent[j].epoch)
  }

  ghost predicate SentOk(sys: System) {
    && (forall env :: env in sys.room.sent ==> EnvelopeOk(sys, env))
    && NoRepeats(sys.room.sent)
  }

  /** No id is empty; where the relay may relabel, none holds a bar. */
  ghost predicate PlainOk(rules: Rules, sys: System) {
    && "" !in sys.sessions && (forall a :: a in sys.announced ==> "" !in a.keys.keys)
    && (rules.relabels ==>
      && BAR !in sys.roomId
      && (forall id :: id in sys.sessions ==> BAR !in id)
      && (forall a, p :: a in sys.announced && p in a.keys.keys ==> BAR !in p))
  }

  ghost predicate Inv(rules: Rules, sys: System) {
    && RoomOk(sys) && MintedOk(sys) && SentOk(sys) && PlainOk(rules, sys)
    && sys.live <= sys.sessions.Keys
    && (forall id :: id in sys.sessions ==>
          if id in sys.live then LiveOk(sys, id, sys.sessions[id]) else IdleOk(sys, id, sys.sessions[id]))
  }

  // ---------------------------------------------------------------------------
  // The parts of a handler
  // ---------------------------------------------------------------------------

  lemma LeaderAtIs(sys: System, id: PeerId, s: Session)
    requires RoomOk(sys) && LiveOk(sys, id, s)
    ensures forall x :: IsLeaderAt(sys, x, s.epoch) <==> LeaderOf(s.keySet.ids) == Some(x)
  {
    hide DerivePairwise, SealAad, LeaderOf;
  }

  /** Facts about leaders and envelopes survive as the history grows. */
  lemma HistoryCarries(sys: System, sys': System)
    requires sys.roomId == sys'.roomId && sys.announced <= sys'.announced && sys.minted <= sys'.minted
    ensures forall x, e :: IsLeaderAt(sys, x, e) ==> IsLeaderAt(sys', x, e)
    ensures forall env :: EnvelopeOk(sys, env) ==> EnvelopeOk(sys', env)
  {
    hide DerivePairwise, SealAad, SealGroupKey, LeaderOf;
    forall env | EnvelopeOk(sys, env) ensures EnvelopeOk(sys', env) {
      var a :| SealedFor(sys, env, a);
      assert SealedFor(sys', env, a);
    }
  }

  /** A session the step did not touch stays as it was. */
  lemma BystanderCarries(sys: System, sys': System, x: PeerId, s: Session)
    requires LiveOk(sys, x, s)
    requires sys.roomId == sys'.roomId && sys.announced <= sys'.announced && sys.minted <= sys'.minted
    requires sys.room.epoch <= sys'.room.epoch
    requires x in sys'.room.peers.keys ==> x in sys.room.peers.keys && sys'.room.peers.keys[x] == sys.room.peers.keys[x]
    requires forall k :: k in sys'.minted && k.minter == x ==> k in sys.minted
    requires forall p, e :: WasSent(sys'.room, x, p, e) <==> WasSent(sys.room, x, p, e)
    ensures LiveOk(sys', x, s)
  {
    hide WasSent, LeaderOf;
  }

  lemma StatusKeeps(rules: Rules, sys: System, id: PeerId, status: Status)
    requires Inv(rules, sys) && id in sys.live
    ensures Inv(rules, With(sys, id, sys.sessions[id].(status := status)))
  {
    hide DerivePairwise, SealAad, LeaderOf;
    var s := sys.sessions[id];
    var sys' := With(sys, id, s.(status := status));
    assert LiveOk(sys', id, s.(status := status));
    SameRoom(sys, sys');
  }

  /** Everything but the session map carries over between systems that differ only there. */
  lemma SameRoom(sys: System, sys': System)
    requires sys' == sys.(sessions := sys'.sessions, suspended := sys'.suspended, books := sys'.books)
    ensures RoomOk(sys) ==> RoomOk(sys')
    ensures MintedOk(sys) ==> MintedOk(sys')
    ensures SentOk(sys) ==> SentOk(sys')
    ensures forall id, s :: LiveOk(sys, id, s) ==> LiveOk(sys', id, s)
    ensures forall id, s :: IdleOk(sys, id, s) ==> IdleOk(sys', id, s)
  {
    hide DerivePairwise, SealAad, LeaderOf;
    forall env | EnvelopeOk(sys, env) ensures EnvelopeOk(sys', env) {
      var a :| SealedFor(sys, env, a);
      assert SealedFor(sys', env, a);
    }
  }

  lemma AdoptKeeps(rules: Rules, sys: System, id: PeerId, a: Announcement)
    requires Inv(rules, sys) && id in sys.live && a in sys.announced
    requires a.epoch >= sys.sessions[id].epoch
    ensures Inv(rules, With(sys, id, AdoptKeySet(sys.sessions[id], a.epoch, a.keys)))
  {
    hide DerivePairwise, SealAad, LeaderOf;
    var s := sys.sessions[id];
    var t := AdoptKeySet(s, a.epoch, a.keys);
    var sys' := With(sys, id, t);
    if a.epoch > s.epoch {
      forall p ensures !WasSent(sys.room, id, p, a.epoch) {
        forall env | env in sys.room.sent && env.from == id ensures env.epoch != a.epoch {
          assert EnvelopeOk(sys, env);
          assert Remembers(s, env.blob.plain);
        }
      }
    } else {
      assert a == Announcement(s.epoch, s.keySet);
    }
    assert LiveOk(sys, id, t);
    SameRoom(sys, sys');
  }

  /** A leader without a key for its epoch is the first to draw one for it. */
  lemma DrawIsFirst(rules: Rules, sys: System, id: PeerId)
    requires Inv(rules, sys) && id in sys.live && IsLeader(sys.sessions[id])
    requires
      var s := sys.sessions[id];
      s.leaderKey.None? || s.leaderKey.value.epoch != s.epoch
    ensures forall k :: k in sys.minted ==> k.epoch != sys.sessions[id].epoch
    ensures IsLeaderAt(sys, id, sys.sessions[id].epoch)
  {
    hide SentOk, LeaderOf, Served;
    var s := sys.sessions[id];
    LeaderAtIs(sys, id, s);
    forall k | k in sys.minted ensures k.epoch != s.epoch {
      assert IsLeaderAt(sys, k.minter, k.epoch);
      assert k.minter == id ==> Remembers(s, k);
    }
    assert IsLeaderAt(sys, id, s.epoch);
  }

  lemma MintKeeps(rules: Rules, sys: System, id: PeerId, draw: nat)
    requires Inv(rules, sys) && id in sys.live && IsLeader(sys.sessions[id])
    ensures
      var t := WithLeaderKey(sys.sessions[id], draw);
      Inv(rules, With(sys, id, t).(minted := sys.minted + Drawn(t)))
  {
    hide DerivePairwise, SealAad, LeaderOf, SealedFor, WasSent;
    var s := sys.sessions[id];
    var t := WithLeaderKey(s, draw);
    var sys' := With(sys, id, t).(minted := sys.minted + Drawn(t));
    assert LiveOk(sys, id, s);
    if t == s {
      assert sys' == sys;
    } else {
      DrawIsFirst(rules, sys, id);
      HistoryCarries(sys, sys');
      assert MintedOk(sys') by { hide SentOk, LiveOk, EnvelopeOk; }
      assert LiveOk(sys', id, t) by { hide SentOk, MintedOk, EnvelopeOk; }
      forall x | x in sys.live && x != id ensures LiveOk(sys', x, sys.sessions[x]) {
        BystanderCarries(sys, sys', x, sys.sessions[x]);
      }
    }
  }

  /** The leader's next envelope is one it never published before, sealed under its epoch's key set. */
  lemma NextEnvelope(rules: Rules, sys: System, id: PeerId, peer: PeerId)
    requires Inv(rules, sys) && id in sys.live && IsLeader(sys.sessions[id])
    requires
      var s := sys.sessions[id];
      s.leaderKey.Some? && s.leaderKey.value.epoch == s.epoch && s.epoch == sys.room.epoch &&
      peer in s.keySet.ids && peer != id && peer !in s.sealedSent
    ensures
      var s := sys.sessions[id];
      && Announcement(s.epoch, s.keySet) in sys.announced && s.keySet.Valid() && s.keypair.Some? && s.id == id
      && var env := SealFor(s, s.leaderKey.value.key, peer);
      && EnvelopeOk(sys, env)
      && forall v :: v in sys.room.sent && v.epoch == s.epoch ==> v.to != peer
  {
    hide DerivePairwise, SealAad, LeaderOf;
    var s := sys.sessions[id];
    var a := Announcement(s.epoch, s.keySet);
    assert a == Announcement(sys.room.epoch, sys.room.peers);
    LeaderIsLowest(s.keySet.ids);
    assert id in s.keySet.keys && s.keySet.keys[id] == Pub(s.keypair.value);
    assert SealedFor(sys, SealFor(s, s.leaderKey.value.key, peer), a);
    LeaderAtIs(sys, id, s);
    forall v | v in sys.room.sent && v.epoch == s.epoch ensures v.to in s.sealedSent {
      assert EnvelopeOk(sys, v);
      assert IsLeaderAt(sys, v.from, s.epoch);
      assert WasSent(sys.room, id, v.to, s.epoch);
    }
  }

  lemma PublishKeeps(rules: Rules, sys: System, id: PeerId, peer: PeerId)
    requires Inv(rules, sys) && id in sys.live && IsLeader(sys.sessions[id])
    requires
      var s := sys.sessions[id];
      s.leaderKey.Some? && s.leaderKey.value.epoch == s.epoch && s.epoch == sys.room.epoch &&
      peer in s.keySet.ids && peer != id && peer !in s.sealedSent
    ensures
      var s := sys.sessions[id];
      Announcement(s.epoch, s.keySet) in sys.announced && s.keySet.Valid() &&
      Inv(rules, With(sys, id, s.(sealedSent := s.sealedSent + {peer}))
                 .(room := Publish(sys.room, SealFor(s, s.leaderKey.value.key, peer))))
  {
    hide DerivePairwise, SealAad, LeaderOf, SealedFor, SealedIsSent;
    var s := sys.sessions[id];
    NextEnvelope(rules, sys, id, peer);
    var env := SealFor(s, s.leaderKey.value.key, peer);
    PublishStores(sys.room, env);
    var t := s.(sealedSent := s.sealedSent + {peer});
    var sys' := With(sys, id, t).(room := Publish(sys.room, env));
    HistoryCarries(sys, sys');
    assert SentOk(sys') by {
      hide EnvelopeOk;
      forall v | v in sys'.room.sent ensures EnvelopeOk(sys', v) {
        assert v == env || v in sys.room.sent;
      }
    }
    forall x, p, e ensures WasSent(sys'.room, x, p, e) <==> WasSent(sys.room, x, p, e) || (x == id && p == peer && e == s.epoch) {
      SentGrows(sys.room, env, x, p, e);
    }
    assert LiveOk(sys', id, t) by { hide WasSent; }
    forall x | x in sys.live && x != id ensures LiveOk(sys', x, sys.sessions[x]) {
      BystanderCarries(sys, sys', x, sys.sessions[x]);
    }
  }

  lemma SentGrows(room: Room, env: Envelope, from: PeerId, to: PeerId, epoch: nat)
    ensures WasSent(Publish(room, env), from, to, epoch)
       <==> WasSent(room, from, to, epoch) || (env.from == from && env.to == to && env.epoch == epoch)
  {
    var after := Publish(room, env).sent;
    assert after[|room.sent|] == env;
    forall v | v in room.sent ensures v in after {
      var i :| 0 <= i < |room.sent| && room.sent[i] == v;
      assert after[i] == v;
    }
  }

  lemma InstallKeeps(rules: Rules, sys: System, id: PeerId, key: GroupKey)
    requires Inv(rules, sys) && id in sys.live
    requires key in sys.minted && key.epoch == sys.sessions[id].epoch
    requires Served(Install(sys.sessions[id], key))
    ensures Inv(rules, With(sys, id, Install(sys.sessions[id], key)))
  {
    hide DerivePairwise, SealAad, LeaderOf;
    var s := sys.sessions[id];
    var sys' := With(sys, id, Install(s, key));
    assert LiveOk(sys, id, Install(s, key));
    SameRoom(sys, sys');
  }

  /** A blob that opens holds the room key of the epoch it is labelled with, and was not sealed by its recipient. */
  lemma OpenedIsCurrent(rules: Rules, sys: System, id: PeerId, env: Envelope)
    requires Inv(rules, sys) && id in sys.live && Relayed(rules, sys, env)
    requires env.to == "" || env.to == id
    requires env.from in sys.sessions[id].keySet.keys && env.from != id
    requires
      var s := sys.sessions[id];
      var w := DerivePairwise(s.keypair.value, s.keySet.keys[env.from], s.roomId, env.epoch, id, env.from);
      OpenGroupKey(env.blob, w, s.roomId, env.epoch, env.from, id).Some?
    ensures env.blob.plain in sys.minted && env.blob.plain.epoch == env.epoch
    ensures env.blob.plain.minter != id
  {
    var s := sys.sessions[id];
    if env in sys.room.sent {
      assert EnvelopeOk(sys, env);
    } else {
      var sent :| sent in sys.room.sent && sent.blob == env.blob;
      assert EnvelopeOk(sys, sent);
      var a :| SealedFor(sys, sent, a);
      assert Announcement(s.epoch, s.keySet) in sys.announced;
      SealAadInjective(sys.roomId, sent.epoch, sent.from, sent.to, sys.roomId, env.epoch, env.from, id);
    }
  }

  /** Opening, in the epoch the blob is labelled with. */
  lemma OpenKeeps(rules: Rules, sys: System, id: PeerId, env: Envelope)
    requires Inv(rules, sys) && id in sys.live && Relayed(rules, sys, env)
    requires env.to == "" || env.to == id
    requires env.from != id && env.epoch == sys.sessions[id].epoch
    ensures
      var o := OpenSealed(sys.sessions[id], sys.room, env);
      o.room == sys.room && Inv(rules, With(sys, id, o.session))
  {
    hide DerivePairwise, SealAad, LeaderOf;
    var s := sys.sessions[id];
    if env.from !in s.keySet.keys {
      assert With(sys, id, s) == sys;
    } else {
      var w := DerivePairwise(s.keypair.value, s.keySet.keys[env.from], s.roomId, env.epoch, s.id, env.from);
      if OpenGroupKey(env.blob, w, s.roomId, env.epoch, env.from, s.id).Some? {
        OpenedIsCurrent(rules, sys, id, env);
        LeaderAtIs(sys, id, s);
        assert IsLeaderAt(sys, env.blob.plain.minter, s.epoch);
        assert !IsLeader(s);
        InstallKeeps(rules, sys, id, env.blob.plain);
      } else {
        StatusKeeps(rules, sys, id, AwaitingKey);
      }
    }
  }

  // ---------------------------------------------------------------------------
  // Handlers
  // ---------------------------------------------------------------------------

  lemma LiveFacts(rules: Rules, sys: System, id: PeerId)
    requires Inv(rules, sys) && id in sys.live
    ensures RoomOk(sys) && id in sys.sessions
    ensures
      var s := sys.sessions[id];
      && s.id == id && s.roomId == sys.roomId && s.keypair.Some? && s.keySet.Valid() && s.epoch <= sys.room.epoch
      && Announcement(s.epoch, s.keySet) in sys.announced
      && Drawn(s) <= sys.minted
      && (s.leaderKey.Some? ==> s.leaderKey.value.key.epoch == s.leaderKey.value.epoch)
      && "" !in s.keySet.keys && (rules.relabels ==> forall p :: p in s.keySet.keys ==> BAR !in p)
  {
    hide SentOk, MintedOk;
    assert LiveOk(sys, id, sys.sessions[id]);
  }

  lemma {:induction false} PublishLoopKeeps(rules: Rules, sys: System, id: PeerId, i: nat, accepts: set<PeerId>)
    requires Inv(rules, sys) && id in sys.live && IsLeader(sys.sessions[id]) && sys.sessions[id].roomKey.None?
    requires sys.sessions[id].leaderKey.Some? && sys.sessions[id].leaderKey.value.epoch == sys.sessions[id].epoch
    requires sys.sessions[id].keySet.Valid() && i <= |sys.sessions[id].keySet.ids|
    requires forall j :: 0 <= j < i ==> sys.sessions[id].keySet.ids[j] == id || sys.sessions[id].keySet.ids[j] in sys.sessions[id].sealedSent
    ensures
      var s := sys.sessions[id];
      var o := PublishFrom(s, sys.room, s.leaderKey.value.key, i, accepts);
      && Inv(rules, With(sys, id, o.session).(room := o.room))
      && o.session == s.(sealedSent := o.session.sealedSent)
      && (!o.threw ==> forall p :: p in s.keySet.ids && p != id ==> p in o.session.sealedSent)
    decreases |sys.sessions[id].keySet.ids| - i
  {
    hide DerivePairwise, SealAad, LeaderOf, Inv;
    LiveFacts(rules, sys, id);
    var s := sys.sessions[id];
    var key := s.leaderKey.value.key;
    assert With(sys, id, s).(room := sys.room) == sys;
    if i < |s.keySet.ids| {
      var peer := s.keySet.ids[i];
      if peer == id || peer in s.sealedSent {
        PublishLoopKeeps(rules, sys, id, i + 1, accepts);
      } else {
        var env := SealFor(s, key, peer);
        if Accepted(sys.room, env, peer in accepts) {
          PublishKeeps(rules, sys, id, peer);
          var t := s.(sealedSent := s.sealedSent + {peer});
          var mid := With(sys, id, t).(room := Publish(sys.room, env));
          PublishLoopKeeps(rules, mid, id, i + 1, accepts);
          var o := PublishFrom(t, mid.room, key, i + 1, accepts);
          assert With(mid, id, o.session).(room := o.room) == With(sys, id, o.session).(room := o.room);
        }
      }
    }
  }

  /** What a handler leaves behind once the key set is adopted. */
  function Settle(t: Session, room: Room, env: Env): Outcome
    requires t.keySet.Valid()
  {
    if |t.keySet.ids| <= 1 then Outcome(t.(status := AwaitingKey), room, false)
    else if t.roomKey.Some? then Outcome(t.(status := Ready), room, false)
    else if IsLeader(t) then Distribute(t, room, env)
    else Outcome(t.(status := AwaitingKey), room, false)
  }

  lemma SettleKeeps(rules: Rules, sys: System, id: PeerId, env: Env)
    requires Inv(rules, sys) && id in sys.live && sys.sessions[id].keySet.Valid()
    ensures
      var o := Settle(sys.sessions[id], sys.room, env);
      && Inv(rules, Put(sys, id, o.session, o.room))
      && o.session.epoch == sys.sessions[id].epoch && o.session.keySet == sys.sessions[id].keySet
      && o.room.peers == sys.room.peers && o.room.epoch == sys.room.epoch
  {
    hide DerivePairwise, SealAad, LeaderOf, Inv;
    LiveFacts(rules, sys, id);
    var t := sys.sessions[id];
    var o := Settle(t, sys.room, env);
    if |t.keySet.ids| > 1 && t.roomKey.None? && IsLeader(t) {
      MintKeeps(rules, sys, id, env.draw);
      var m := WithLeaderKey(t, env.draw);
      var key := m.leaderKey.value.key;
      var mid := With(sys, id, m).(minted := sys.minted + Drawn(m));
      PublishLoopKeeps(rules, mid, id, 0, env.accepts);
      var p := PublishFrom(m, sys.room, key, 0, env.accepts);
      PublishKeepsRoom(m, sys.room, key, 0, env.accepts);
      var sent := With(mid, id, p.session).(room := p.room);
      if !p.threw {
        InstallKeeps(rules, sent, id, key);
        assert With(sent, id, o.session) == Put(sys, id, o.session, o.room) by { PutIs(sys, id, o.session, o.room); }
      } else {
        assert sent == Put(sys, id, o.session, o.room) by { PutIs(sys, id, o.session, o.room); }
      }
    } else {
      StatusKeeps(rules, sys, id, o.session.status);
      assert Drawn(t) <= sys.minted;
      PutIs(sys, id, o.session, o.room);
      assert Put(sys, id, o.session, o.room) == With(sys, id, o.session);
    }
  }

  lemma PutIs(sys: System, id: PeerId, s: Session, room: Room)
    requires RoomOk(sys) && room.peers == sys.room.peers && room.epoch == sys.room.epoch
    ensures Put(sys, id, s, room) == With(sys, id, s).(room := room, minted := sys.minted + Drawn(s))
  {
    assert sys.announced + {Announcement(room.epoch, room.peers)} == sys.announced;
  }

  lemma KeySetKeeps(rules: Rules, sys: System, id: PeerId, a: Announcement, env: Env)
    requires Inv(rules, sys) && id in sys.live && a in sys.announced
    requires a.epoch >= sys.sessions[id].epoch
    ensures
      a.keys.Valid() &&
      var o := OnKeySet(sys.sessions[id], sys.room, a.epoch, a.keys, env);
      && Inv(rules, Put(sys, id, o.session, o.room))
      && o.session.epoch == a.epoch && o.session.keySet == a.keys
  {
    hide DerivePairwise, SealAad, LeaderOf, Inv;
    LiveFacts(rules, sys, id);
    AdoptKeeps(rules, sys, id, a);
    var t := AdoptKeySet(sys.sessions[id], a.epoch, a.keys);
    SettleKeeps(rules, With(sys, id, t), id, env);
    var o := OnKeySet(sys.sessions[id], sys.room, a.epoch, a.keys, env);
    assert o == Settle(t, sys.room, env);
    assert With(With(sys, id, t), id, o.session) == With(sys, id, o.session);
  }

  lemma RefreshKeeps(rules: Rules, sys: System, id: PeerId, env: Env)
    requires Inv(rules, sys) && id in sys.live
    ensures
      var o := RefreshKeySet(sys.sessions[id], sys.room, env);
      && Inv(rules, Put(sys, id, o.session, o.room))
      && o.session.epoch >= sys.sessions[id].epoch
  {
    hide DerivePairwise, SealAad, LeaderOf, Inv;
    LiveFacts(rules, sys, id);
    if env.refreshes {
      KeySetKeeps(rules, sys, id, Announcement(sys.room.epoch, sys.room.peers), env);
    } else {
      var s := sys.sessions[id];
      PutIs(sys, id, s, sys.room);
      assert Drawn(s) <= sys.minted;
      assert Put(sys, id, s, sys.room) == sys;
    }
  }

  /** Two handlers run one after the other on the same session leave what the second one returns. */
  lemma PutTwice(sys: System, id: PeerId, s: Session, room: Room, s': Session)
    requires Drawn(s') == Drawn(s)
    ensures With(Put(sys, id, s, room), id, s') == Put(sys, id, s', room)
  {
    assert sys.sessions[id := s][id := s'] == sys.sessions[id := s'];
  }

  /**
   A blob labelled with the session's own epoch and a sender its key set does not
   hold opens under no key, even if the refresh it causes moves the session on.
   */
  lemma StrangerStaysShut(rules: Rules, sys: System, id: PeerId, env: Envelope, w: PairwiseKey)
    requires Inv(rules, sys) && id in sys.live && Relayed(rules, sys, env)
    requires env.epoch == sys.sessions[id].epoch && env.from !in sys.sessions[id].keySet.keys
    requires rules.relabels ==> BAR !in env.from
    ensures OpenGroupKey(env.blob, w, sys.roomId, env.epoch, env.from, id).None?
  {
    var s := sys.sessions[id];
    assert LiveOk(sys, id, s);
    forall sent, a | sent in sys.room.sent && sent.epoch == s.epoch && SealedFor(sys, sent, a)
      ensures sent.from in s.keySet.keys
    {
      assert a == Announcement(s.epoch, s.keySet);
    }
    if env !in sys.room.sent && OpenGroupKey(env.blob, w, sys.roomId, env.epoch, env.from, id).Some? {
      var sent :| sent in sys.room.sent && sent.blob == env.blob;
      assert EnvelopeOk(sys, sent);
      var a :| SealedFor(sys, sent, a);
      SealAadInjective(sys.roomId, sent.epoch, sent.from, sent.to, sys.roomId, env.epoch, env.from, id);
    }
  }

  /** The blob is ahead of the session, which refreshes once. */
  lemma AheadKeeps(rules: Rules, sys: System, id: PeerId, env: Envelope, e: Env)
    requires Inv(rules, sys) && Safe(rules) && id in sys.live && Relayed(rules, sys, env)
    requires
      var s := sys.sessions[id];
      (env.to == "" || env.to == s.id) && env.from != "" && env.from != s.id && env.epoch > s.epoch
    requires sys.room.peers.Valid()
    ensures
      var o := OnSealedKey(sys.sessions[id], sys.room, env, false, e);
      Inv(rules, Put(sys, id, o.session, o.room)) && o.session.epoch >= sys.sessions[id].epoch
  {
    hide DerivePairwise, SealAad, LeaderOf, Inv;
    LiveFacts(rules, sys, id);
    var s := sys.sessions[id];
    var o := OnSealedKey(s, sys.room, env, false, e);
    var r := RefreshKeySet(s, sys.room, e);
    RefreshKeeps(rules, sys, id, e);
    RefreshKeepsRoom(s, sys.room, e);
    var mid := Put(sys, id, r.session, r.room);
    if env.epoch == r.session.epoch {
      assert Relayed(rules, mid, env);
      OpenKeeps(rules, mid, id, env);
      PutTwice(sys, id, r.session, r.room, o.session);
    }
  }

  /** The sender is not in the session's key set, which is fetched again. */
  lemma StrangerKeeps(rules: Rules, sys: System, id: PeerId, env: Envelope, e: Env)
    requires Inv(rules, sys) && Safe(rules) && id in sys.live && Relayed(rules, sys, env)
    requires
      var s := sys.sessions[id];
      (env.to == "" || env.to == s.id) && env.from != "" && env.from != s.id && env.epoch == s.epoch && env.from !in s.keySet.keys
    requires sys.room.peers.Valid()
    ensures
      var o := OnSealedKey(sys.sessions[id], sys.room, env, false, e);
      Inv(rules, Put(sys, id, o.session, o.room)) && o.session.epoch >= sys.sessions[id].epoch
  {
    hide DerivePairwise, SealAad, LeaderOf, Inv;
    LiveFacts(rules, sys, id);
    var s := sys.sessions[id];
    var o := OnSealedKey(s, sys.room, env, false, e);
    var r := RefreshKeySet(s, sys.room, e);
    RefreshKeeps(rules, sys, id, e);
    var mid := Put(sys, id, r.session, r.room);
    if env.from in r.session.keySet.keys {
      LiveFacts(rules, mid, id);
      var w := DerivePairwise(r.session.keypair.value, r.session.keySet.keys[env.from], sys.roomId, env.epoch, id, env.from);
      StrangerStaysShut(rules, sys, id, env, w);
      StatusKeeps(rules, mid, id, AwaitingKey);
    } else {
      assert With(mid, id, r.session) == mid;
    }
    PutTwice(sys, id, r.session, r.room, o.session);
  }

  lemma SealedKeeps(rules: Rules, sys: System, id: PeerId, env: Envelope, e: Env)
    requires Inv(rules, sys) && Safe(rules) && id in sys.live && Relayed(rules, sys, env)
    ensures
      var o := OnSealedKey(sys.sessions[id], sys.room, env, false, e);
      Inv(rules, Put(sys, id, o.session, o.room)) && o.session.epoch >= sys.sessions[id].epoch
  {
    hide DerivePairwise, SealAad, LeaderOf, Inv;
    LiveFacts(rules, sys, id);
    var s := sys.sessions[id];
    var o := OnSealedKey(s, sys.room, env, false, e);
    assert Drawn(s) <= sys.minted;
    PutIs(sys, id, s, sys.room);
    assert Put(sys, id, s, sys.room) == sys;
    if (env.to == "" || env.to == s.id) && env.from != "" && env.from != s.id && env.epoch >= s.epoch {
      if env.epoch > s.epoch {
        AheadKeeps(rules, sys, id, env, e);
      } else if env.from !in s.keySet.keys {
        StrangerKeeps(rules, sys, id, env, e);
      } else {
        OpenKeeps(rules, sys, id, env);
        PutIs(sys, id, o.session, sys.room);
        assert Drawn(o.session) == Drawn(s);
        assert Put(sys, id, o.session, o.room) == With(sys, id, o.session);
      }
    }
  }

  lemma RoomMovesOn(rules: Rules, sys: System, peers: KeySet)
    requires Inv(rules, sys) && peers.Valid()
    requires forall id :: id in sys.live && id in peers.keys ==> id in sys.room.peers.keys && peers.keys[id] == sys.room.peers.keys[id]
    requires "" !in peers.keys && (rules.relabels ==> forall p :: p in peers.keys ==> BAR !in p)
    ensures Inv(rules, WithRoom(sys, Bump(sys.room.(peers := peers))))
  {
    hide DerivePairwise, SealAad, LeaderOf;
    var sys' := WithRoom(sys, Bump(sys.room.(peers := peers)));
    assert RoomOk(sys');
    HistoryCarries(sys, sys');
    forall x, p, e ensures WasSent(sys'.room, x, p, e) <==> WasSent(sys.room, x, p, e) {
    }
    forall id | id in sys.live ensures LiveOk(sys', id, sys.sessions[id]) {
      assert LiveOk(sys, id, sys.sessions[id]);
    }
  }

  lemma DropKeeps(rules: Rules, sys: System, id: PeerId)
    requires Inv(rules, sys)
    ensures Inv(rules, WithRoom(sys, Remove(sys.room, id)))
  {
    hide LiveOk, IdleOk, SentOk, MintedOk;
    WithoutIs(sys.room.peers.ids, id);
    RoomMovesOn(rules, sys, KeySet(Without(sys.room.peers.ids, id), sys.room.peers.keys - {id}));
  }

  lemma RotateKeeps(rules: Rules, sys: System)
    requires Inv(rules, sys)
    ensures Inv(rules, WithRoom(sys, Bump(sys.room)))
  {
    hide LiveOk, IdleOk, SentOk, MintedOk;
    assert sys.room.(peers := sys.room.peers) == sys.room;
    RoomMovesOn(rules, sys, sys.room.peers);
  }

  lemma IdleKeeps(rules: Rules, sys: System, id: PeerId, s: Session)
    requires Inv(rules, sys) && IdleOk(sys, id, s)
    requires id != "" && (rules.relabels ==> BAR !in id)
    ensures Inv(rules, With(sys, id, s).(live := sys.live - {id}))
  {
    hide DerivePairwise, SealAad, LeaderOf;
    var sys' := With(sys, id, s).(live := sys.live - {id});
    HistoryCarries(sys, sys');
    forall x | x in sys'.live ensures LiveOk(sys', x, sys'.sessions[x]) {
      assert LiveOk(sys, x, sys.sessions[x]);
    }
  }

  /** Which handlers are suspended, and which registrations there were, is no part of the invariant. */
  lemma BooksAreFree(rules: Rules, sys: System, suspended: map<PeerId, GroupKey>, books: Books)
    requires Inv(rules, sys)
    ensures Inv(rules, sys.(suspended := suspended, books := books))
  {
    hide RoomOk, MintedOk, SentOk, LiveOk, IdleOk;
    SameRoom(sys, sys.(suspended := suspended, books := books));
  }

  /** Without a keypair a key set is taken over and nothing is drawn or published. */
  lemma IdleHears(s: Session, room: Room, epoch: nat, keys: KeySet, env: Env)
    requires s.keypair.None? && s.roomKey.None? && s.leaderKey.None? && s.sealedSent == {} && keys.Valid()
    ensures
      var o := OnKeySet(s, room, epoch, keys, env);
      && o.room == room && (o.session.epoch == if epoch > s.epoch then epoch else s.epoch)
      && o.session == s.(epoch := o.session.epoch, keySet := keys, status := o.session.status)
  {
    hide LeaderOf;
  }

  lemma IdleReceives(s: Session, room: Room, envelope: Envelope, env: Env)
    requires s.keypair.None? && s.roomKey.None? && s.leaderKey.None? && s.sealedSent == {} && room.peers.Valid()
    ensures
      var o := OnSealedKey(s, room, envelope, false, env);
      && o.room == room && (o.session.epoch == s.epoch || o.session.epoch == room.epoch) && o.session.epoch >= s.epoch
      && o.session == s.(epoch := o.session.epoch, keySet := o.session.keySet, status := o.session.status)
      && (o.session.keySet == s.keySet || o.session.keySet == room.peers)
  {
    hide OnKeySet, DerivePairwise, OpenGroupKey;
    IdleHears(s, room, room.epoch, room.peers, env);
  }

  /** A broadcast that finds a session idle leaves it idle. */
  lemma IdleStays(rules: Rules, sys: System, id: PeerId, s: Session)
    requires Inv(rules, sys) && id in sys.sessions && id !in sys.live && IdleOk(sys, id, s)
    ensures Inv(rules, Put(sys, id, s, sys.room))
  {
    hide RoomOk, MintedOk, SentOk, LiveOk;
    IdleKeeps(rules, sys, id, s);
    assert Put(sys, id, s, sys.room) == With(sys, id, s).(live := sys.live - {id}) by {
      InvParts(rules, sys, id);
      PutIs(sys, id, s, sys.room);
    }
  }

  lemma IdleListens(rules: Rules, sys: System, id: PeerId, step: Step)
    requires Inv(rules, sys) && Possible(rules, sys, step) && (step.DeliverKeySet? || step.DeliverSealed?)
    requires step.id == id && id !in sys.live
    ensures Inv(rules, Apply(rules, sys, step))
  {
    hide Inv, OnKeySet, OnSealedKey, RoomOk;
    InvParts(rules, sys, id);
    AnnouncedBound(sys);
    var s := sys.sessions[id];
    match step
    case DeliverKeySet(_, news, env) =>
      IdleHears(s, sys.room, news.epoch, news.keys, env);
      IdleStays(rules, sys, id, OnKeySet(s, sys.room, news.epoch, news.keys, env).session);
    case DeliverSealed(_, envelope, env) =>
      IdleReceives(s, sys.room, envelope, env);
      IdleStays(rules, sys, id, OnSealedKey(s, sys.room, envelope, false, env).session);
  }

  lemma AnnouncedBound(sys: System)
    requires RoomOk(sys)
    ensures forall a :: a in sys.announced ==> a.epoch <= sys.room.epoch
  {}

  /** The newcomer, just after its registration moved the epoch and it took over the new key set. */
  function Newcomer(s: Session, priv: nat, joined: Room): Session {
    AdoptKeySet(s.(status := Registering, keypair := Some(priv)), joined.epoch, joined.peers)
  }

  lemma NewcomerLives(sys: System, mid: System, id: PeerId, priv: nat, s: Session)
    requires RoomOk(mid) && IdleOk(sys, id, s) && mid.roomId == sys.roomId
    requires MintedOk(sys) && SentOk(sys) && mid.minted == sys.minted && mid.room.sent == sys.room.sent
    requires mid.room.epoch > sys.room.epoch && id in mid.room.peers.keys && mid.room.peers.keys[id] == Pub(priv)
    ensures LiveOk(mid, id, Newcomer(s, priv, mid.room))
  {
    hide SentOk, MintedOk, WasSent, LeaderOf;
    NothingYet(sys, mid, Newcomer(s, priv, mid.room));
  }

  lemma JoinedIsPlain(rules: Rules, sys: System, id: PeerId, key: PublicKey)
    requires RoomOk(sys) && PlainOk(rules, sys) && id in sys.sessions
    ensures
      var keys := Register(sys.room, id, key).peers.keys;
      "" !in keys && (rules.relabels ==> forall p :: p in keys ==> BAR !in p)
  {
    hide LeaderOf;
    assert Announcement(sys.room.epoch, sys.room.peers) in sys.announced;
  }

  lemma EnterKeeps(rules: Rules, sys: System, id: PeerId, priv: nat)
    requires Inv(rules, sys) && id in sys.sessions && id !in sys.live && id !in sys.room.peers.keys
    ensures
      var joined := Register(sys.room, id, Pub(priv));
      var mid := With(WithRoom(sys, joined), id, Newcomer(sys.sessions[id], priv, joined));
      Inv(rules, mid.(live := sys.live + {id}, books := Enrol(sys.books, id, priv, true)))
  {
    hide WasSent, SentOk, LiveOk, MintedOk, IdleOk, PlainOk;
    var joined := Register(sys.room, id, Pub(priv));
    RegisterKeepsValid(sys.room, id, Pub(priv));
    assert joined == Bump(sys.room.(peers := joined.peers));
    JoinedIsPlain(rules, sys, id, Pub(priv));
    RoomMovesOn(rules, sys, joined.peers);
    var mid := WithRoom(sys, joined);
    var t := Newcomer(sys.sessions[id], priv, joined);
    var sys' := With(mid, id, t).(live := sys.live + {id}, books := Enrol(sys.books, id, priv, true));
    assert IdleOk(sys, id, sys.sessions[id]);
    NewcomerLives(sys, mid, id, priv, sys.sessions[id]);
    SameHistory(rules, mid, sys');
    BystanderCarries(mid, sys', id, t);
    forall x | x in sys.live ensures LiveOk(sys', x, sys.sessions[x]) {
      BystanderCarries(mid, sys', x, sys.sessions[x]);
    }
    forall x | x in sys.sessions && x !in sys.live ensures IdleOk(mid, x, sys.sessions[x]) {
      assert mid.sessions[x] == sys.sessions[x];
    }
  }

  lemma SameHistory(rules: Rules, sys: System, sys': System)
    requires sys.roomId == sys'.roomId && sys.announced == sys'.announced && sys.minted == sys'.minted && sys.room == sys'.room
    requires sys.sessions.Keys == sys'.sessions.Keys && sys.earlier == sys'.earlier
    requires RoomOk(sys) && MintedOk(sys) && SentOk(sys) && PlainOk(rules, sys)
    ensures RoomOk(sys') && MintedOk(sys') && SentOk(sys') && PlainOk(rules, sys')
    ensures forall x, s :: IdleOk(sys, x, s) ==> IdleOk(sys', x, s)
  {
    hide LeaderOf, SealedFor;
    HistoryCarries(sys, sys');
  }

  /** Right after a bump nothing has been drawn or sealed for the new epoch. */
  lemma NothingYet(sys: System, mid: System, t: Session)
    requires MintedOk(sys) && SentOk(sys)
    requires mid.minted == sys.minted && mid.room.sent == sys.room.sent && t.epoch > sys.room.epoch
    ensures forall k :: k in mid.minted ==> Remembers(t, k)
    ensures forall x, p :: !WasSent(mid.room, x, p, t.epoch)
  {
    hide IsLeaderAt, SealedFor;
    forall env | env in mid.room.sent ensures env.epoch != t.epoch {
      assert EnvelopeOk(sys, env);
    }
  }

  lemma JoinKeeps(rules: Rules, sys: System, id: PeerId, priv: nat, registers: bool, env: Env)
    requires Inv(rules, sys) && Safe(rules) && Possible(rules, sys, Join(id, priv, registers, env))
    ensures Inv(rules, Apply(rules, sys, Join(id, priv, registers, env)))
    ensures Apply(rules, sys, Join(id, priv, registers, env)).sessions[id].epoch >= sys.sessions[id].epoch
  {
    hide DerivePairwise, SealAad, LeaderOf, SentOk, MintedOk, LiveOk;
    if registers {
      RegisteredKeeps(rules, sys, id, priv, env);
    } else {
      var s := sys.sessions[id];
      RegisterKeepsValid(sys.room, id, Pub(priv));
      var o := Start(s, sys.room, priv, registers, env);
      IdleKeeps(rules, sys, id, o.session);
      PutIs(sys, id, o.session, sys.room);
      assert Put(sys, id, o.session, o.room) == With(sys, id, o.session).(live := sys.live - {id});
      BooksAreFree(rules, Put(sys, id, o.session, o.room), sys.suspended, Enrol(sys.books, id, priv, false));
    }
  }

  /** An answered `start()` is a registration and then what a key set makes of the newcomer. */
  lemma StartSettles(s: Session, room: Room, priv: nat, env: Env)
    requires room.peers.Valid() && env.refreshes
    requires Register(room, s.id, Pub(priv)).epoch >= s.epoch
    requires s.sealedSent == {}
    ensures
      var joined := Register(room, s.id, Pub(priv));
      joined.peers.Valid() &&
      var t := Newcomer(s, priv, joined);
      var p := Settle(t, joined, env);
      Start(s, room, priv, true, env) == if p.threw then p.(session := p.session.(status := Failed)) else p
  {
    hide LeaderOf, Distribute, Register;
    RegisterKeepsValid(room, s.id, Pub(priv));
  }

  lemma RegisteredKeeps(rules: Rules, sys: System, id: PeerId, priv: nat, env: Env)
    requires Inv(rules, sys) && Possible(rules, sys, Join(id, priv, true, env)) && env.refreshes
    ensures Inv(rules, Apply(rules, sys, Join(id, priv, true, env)))
    ensures Apply(rules, sys, Join(id, priv, true, env)).sessions[id].epoch >= sys.sessions[id].epoch
  {
    hide DerivePairwise, SealAad, LeaderOf, Inv, Distribute, Settle, Start;
    var s := sys.sessions[id];
    assert RoomOk(sys) && IdleOk(sys, id, s) by { InvParts(rules, sys, id); }
    var joined := Register(sys.room, id, Pub(priv));
    RegisterKeepsValid(sys.room, id, Pub(priv));
    EnterKeeps(rules, sys, id, priv);
    var t := Newcomer(s, priv, joined);
    var mid := With(WithRoom(sys, joined), id, t).(live := sys.live + {id}, books := Enrol(sys.books, id, priv, true));
    SettleKeeps(rules, mid, id, env);
    var p := Settle(t, joined, env);
    var o := Start(s, sys.room, priv, true, env);
    StartSettles(s, sys.room, priv, env);
    StatusKeeps(rules, Put(mid, id, p.session, p.room), id, o.session.status);
    var sys' := Apply(rules, sys, Join(id, priv, true, env));
    assert sys'.announced == mid.announced + {Announcement(p.room.epoch, p.room.peers)};
    assert With(Put(mid, id, p.session, p.room), id, o.session).sessions == sys'.sessions;
    assert With(Put(mid, id, p.session, p.room), id, o.session) == sys';
  }

  lemma InvParts(rules: Rules, sys: System, id: PeerId)
    requires Inv(rules, sys) && id in sys.sessions
    ensures RoomOk(sys)
    ensures if id in sys.live then LiveOk(sys, id, sys.sessions[id]) else IdleOk(sys, id, sys.sessions[id])
  {
    hide LiveOk, SentOk, MintedOk;
  }
}
