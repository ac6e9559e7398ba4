/** What a blob that passes for another can do to a member that has the key, and what it cannot. */
module SessionRelabelling {
  import opened Common
  import opened Crypto
  import opened Utf16Order
  import opened SessionSpec
  import opened SessionSystem
  import opened SessionMembership
  import opened SessionSettled
  import opened SessionConvergence
  import SessionPrompt
  import opened SessionPublishing

  /** A blob that claims to be one of this epoch's for `m`, from a member it knows or can ask about, and is not. */
  ghost predicate Misleads(sys: System, m: PeerId, envelope: Envelope, env: Env)
    requires m in sys.sessions
  {
    && (envelope.to == "" || envelope.to == m) && envelope.from != "" && envelope.from != m
    && envelope.epoch == sys.room.epoch && Known(sys, m, envelope.from, env)
    && !exists sent :: sent in sys.room.sent && SameButRecipient(sent, envelope) && sent.to == m
  }

  predicate Known(sys: System, m: PeerId, from: PeerId, env: Env)
    requires m in sys.sessions
  {
    from in sys.sessions[m].keySet.keys || (env.refreshes && from in sys.room.peers.keys)
  }

  predicate SameButRecipient(sent: Envelope, envelope: Envelope) {
    sent.blob == envelope.blob && sent.from == envelope.from && sent.epoch == envelope.epoch
  }

  /** In the hands of a session of `m`'s that knows the epoch's sender, a blob opens exactly if it was published for `m`. */
  lemma OpensExactly(rules: Rules, sys: System, m: PeerId, envelope: Envelope, t: Session, room: Room)
    requires Steady(rules, sys) && m in sys.room.peers.keys && m in sys.sessions && Honest(sys, sys.sessions[m], envelope)
    requires (envelope.to == "" || envelope.to == m) && envelope.from != m && envelope.from in sys.sessions
    requires t.id == m && t.roomId == sys.roomId && t.keypair == sys.sessions[m].keypair && t.epoch == sys.room.epoch
    requires envelope.from in t.keySet.keys && envelope.epoch == sys.room.epoch
    requires forall sent :: sent in sys.room.sent && sent.epoch == sys.room.epoch && sent.from != m ==> Knows(sys.room, t, sent.from)
    ensures
      var reply := OpenSealed(t, room, envelope).reply;
      && (reply == Opened || reply == CannotOpen)
      && (reply == Opened <==> exists sent :: sent in sys.room.sent && SameButRecipient(sent, envelope) && sent.to == m)
  {
    hide DerivePairwise, SealAad, SealedByMembers, PlainNames, ServedAll, OwnKey, KnowsSenders, Knows, LeaderOf, Opens;
    assert IsMember(sys, m);
    if sent :| sent in sys.room.sent && SameButRecipient(sent, envelope) && sent.to == m {
      GenuineOpens(rules, sys, m, sent, t, room);
    }
    if OpenSealed(t, room, envelope).reply == Opened {
      OpenedOpens(t, room, envelope);
      SameOpens(sys.sessions[m], t, envelope);
      var sent :| sent in sys.room.sent && SentAs(sys.sessions[m], sent, envelope);
      assert SameButRecipient(sent, envelope);
    }
  }

  /** The handler itself, for a member that has the key. */
  lemma HandlerLosesReady(rules: Rules, sys: System, m: PeerId, envelope: Envelope, env: Env)
    requires Steady(rules, sys) && Together(sys)
    requires m in sys.room.peers.keys && HasKey(rules, sys, m) && sys.sessions[m].status == Ready
    requires envelope.epoch == sys.room.epoch ==> Honest(sys, sys.sessions[m], envelope)
    ensures
      var s := OnSealedKey(sys.sessions[m], sys.room, envelope, false, env).session;
      && (s.status != Ready <==> Misleads(sys, m, envelope, env))
      && (s.status != Ready ==> s.status == AwaitingKey && s.roomKey == sys.sessions[m].roomKey)
  {
    hide OnKeySet, DerivePairwise, OpenGroupKey, SealAad, Honest;
    hide SealedByMembers, PlainNames, ServedAll, OwnKey, SameButRecipient, Knows;
    CurrentKeySetLands(rules, sys, m, env);
    assert IsMember(sys, m);
    var s := sys.sessions[m];
    var r := RefreshKeySet(s, sys.room, env);
    if (envelope.to == "" || envelope.to == m) && envelope.from != "" && envelope.from != m && envelope.epoch == sys.room.epoch {
      if envelope.from in s.keySet.keys {
        OpensExactly(rules, sys, m, envelope, s, sys.room);
      } else if env.refreshes && envelope.from in sys.room.peers.keys {
        PeersAreKnown(rules, sys, r.session);
        OpensExactly(rules, sys, m, envelope, r.session, r.room);
      }
    }
  }

  lemma PeersAreKnown(rules: Rules, sys: System, t: Session)
    requires Steady(rules, sys) && t.keySet == sys.room.peers
    ensures sys.room.peers.keys.Keys <= sys.sessions.Keys
    ensures forall sent :: sent in sys.room.sent && sent.epoch == sys.room.epoch ==> Knows(sys.room, t, sent.from)
  {
    hide SealedByMembers, IsMember, LeaderOf, SessionPrompt.OneLeader;
    forall sent | sent in sys.room.sent && sent.epoch == sys.room.epoch ensures Knows(sys.room, t, sent.from) {
      GenuineLabels(rules, sys, sent);
    }
  }

  /**
   A READY member keeps its key and epoch under every delivery of a blob, and stops being READY
   exactly when the blob misleads.
   */
  lemma StatusLostExactly(rules: Rules, sys: System, m: PeerId, envelope: Envelope, env: Env, eager: bool)
    requires Assembled(rules, sys, eager) && Level(sys)
    requires m in sys.room.peers.keys && HasKey(rules, sys, m) && sys.sessions[m].status == Ready
    requires Possible(rules, sys, DeliverSealed(m, envelope, env))
    ensures
      var s := Apply(rules, sys, DeliverSealed(m, envelope, env)).sessions[m];
      && s.roomKey.Some? && s.epoch == sys.sessions[m].epoch
      && (s.status != Ready <==> Misleads(sys, m, envelope, env))
      && (s.status != Ready ==> s.status == AwaitingKey && s.roomKey == sys.sessions[m].roomKey)
  {
    hide Settled, Assembled, Steady, OnSealedKey, Relayed, Misleads, Honest, Level, Together;
    AssembledIsSettled(rules, sys, eager);
    SettledIsSteady(rules, sys);
    if envelope.epoch == sys.room.epoch {
      WireIsHonest(rules, sys, m, envelope);
    }
    SealedKeepsKey(rules, sys, m, envelope, env);
    HandlerLosesReady(rules, sys, m, envelope, env);
  }

  /**
   Where the relay may relabel, it can hand a READY member any blob of the epoch that was sealed
   for someone else; the member stays READY only if it does not know the sender and cannot ask.
   */
  lemma RelabellingLosesReady(rules: Rules, sys: System, m: PeerId, sent: Envelope, env: Env, eager: bool)
    requires Assembled(rules, sys, eager) && Level(sys) && rules.relabels
    requires m in sys.room.peers.keys && HasKey(rules, sys, m) && sys.sessions[m].status == Ready
    requires sent in sys.room.sent && sent.epoch == sys.room.epoch && sent.to != m && sent.from != m
    ensures
      var step := DeliverSealed(m, sent.(to := m), env);
      && Possible(rules, sys, step)
      && (Apply(rules, sys, step).sessions[m].status == AwaitingKey <==> env.refreshes || sent.from in sys.sessions[m].keySet.keys)
  {
    hide Settled, Assembled, DerivePairwise, SealAad, LeaderOf, OnSealedKey, Level;
    hide SealedByMembers, PlainNames, Informed;
    AssembledIsSettled(rules, sys, eager);
    SettledIsSteady(rules, sys);
    assert IsMember(sys, m);
    GenuineLabels(rules, sys, sent);
    var envelope := sent.(to := m);
    forall other | other in sys.room.sent && SameButRecipient(other, envelope) ensures other.to == sent.to {
      SameBlobSameLabels(rules, sys, sent, other);
    }
    assert sent in AllSent(sys) by { assert AllSent(sys)[|sys.earlier|..] == sys.room.sent; }
    StatusLostExactly(rules, sys, m, envelope, env, eager);
  }

  lemma SameBlobSameLabels(rules: Rules, sys: System, x: Envelope, y: Envelope)
    requires Steady(rules, sys) && rules.relabels && x in sys.room.sent && y in sys.room.sent && x.blob == y.blob
    requires x.epoch == sys.room.epoch == y.epoch
    ensures x == y
  {
    hide DerivePairwise, SealAad, IsMember;
    GenuineLabels(rules, sys, x);
    GenuineLabels(rules, sys, y);
    assert SealedWith(sys.roomId, sys.room.peers, x) && SealedWith(sys.roomId, sys.room.peers, y);
    SealAadInjective(sys.roomId, x.epoch, x.from, x.to, sys.roomId, y.epoch, y.from, y.to);
  }
}
