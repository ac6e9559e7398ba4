/**
 What the members of a settled room can rely on, whichever server keeps the room:
 the facts about keys, key sets and blobs that the theorems on schedules rest on,
 and that deliveries leave them in force.
 */
module SessionSettled {
  import opened Common
  import opened Text
  import opened Crypto
  import opened Utf16Order
  import opened SessionSpec
  import opened SessionSystem
  import opened SessionInvariant
  import opened SessionTheorems
  import opened SessionPublishing
  import opened SessionMembership
  import SessionPrompt

  /** Only deliveries happen: the epoch has stopped moving. */
  predicate Quiet(step: Step) {
    step.DeliverKeySet? || step.DeliverSealed?
  }

  /** A room of at least two, all of whose members run a live session. */
  ghost predicate Together(sys: System) {
    |sys.room.peers.ids| >= 2 && forall m :: m in sys.room.peers.keys ==> m in sys.live
  }

  /** No member's session is ahead of the room. */
  ghost predicate Level(sys: System) {
    forall m :: m in sys.room.peers.keys && m in sys.sessions ==> sys.sessions[m].epoch <= sys.room.epoch
  }

  /** Such a room, with the invariant of one of the two ways to agree. */
  ghost predicate Settled(rules: Rules, sys: System) {
    && ((Safe(rules) && Inv(rules, sys)) || (SessionPrompt.Prompt(rules) && MembersInv(rules, sys)))
    && Together(sys) && Level(sys)
  }

  /** No blob on the wire can pass for one of this epoch that is not. */
  ghost predicate Clean(rules: Rules, sys: System) {
    !rules.relabels && forall env :: env in sys.earlier ==> env.epoch != sys.room.epoch
  }

  /** The member is at the epoch and holds the key; only blobs that pass for others can leave one so and not READY. */
  ghost predicate HasKey(rules: Rules, sys: System, m: PeerId) {
    m in sys.sessions &&
    var s := sys.sessions[m];
    s.epoch == sys.room.epoch && s.roomKey.Some? && (Clean(rules, sys) ==> s.status == Ready)
  }

  predicate Caught(sys: System, m: PeerId) {
    m in sys.sessions && sys.sessions[m].epoch == sys.room.epoch
  }

  // ---------------------------------------------------------------------------
  // What both invariants give
  // ---------------------------------------------------------------------------

  ghost predicate IsMember(sys: System, m: PeerId) {
    Member(sys, m) && m in sys.sessions &&
    var s := sys.sessions[m];
    && s.id == m && s.roomId == sys.roomId && s.epoch <= sys.room.epoch && s.keypair.Some?
    && Informed(sys.room, s) && (s.epoch == sys.room.epoch ==> s.keySet.keys.Keys <= sys.sessions.Keys)
    && (forall env :: env in sys.room.sent && env.from == m && env.epoch == sys.room.epoch ==>
          s.epoch == sys.room.epoch && env.to in s.sealedSent)
  }

  ghost predicate Steady(rules: Rules, sys: System) {
    && sys.room.peers.Valid() && Current(sys) in sys.announced && PlainNames(rules, sys)
    && SealedByMembers(sys.roomId, sys.room) && SealedIsSent(sys.room) && SessionPrompt.OneLeader(sys.room)
    && (forall m :: m in sys.room.peers.keys ==> IsMember(sys, m))
  }

  lemma InvSealed(rules: Rules, sys: System, env: Envelope)
    requires Inv(rules, sys) && env in sys.room.sent
    ensures env.blob.aad == SealAad(sys.roomId, env.epoch, env.from, env.to)
    ensures env.epoch == sys.room.epoch ==>
              SealedWith(sys.roomId, sys.room.peers, env) && LeaderOf(sys.room.peers.ids) == Some(env.from)
  {
    hide DerivePairwise, SealAad, LiveOk, LeaderOf;
    assert EnvelopeOk(sys, env);
    var a :| SealedFor(sys, env, a);
    assert a.epoch == sys.room.epoch ==> a == Current(sys);
    assert IsLeaderAt(sys, env.from, env.epoch);
  }

  lemma InvMember(rules: Rules, sys: System, m: PeerId)
    requires Inv(rules, sys) && m in sys.live && m in sys.room.peers.keys && sys.room.peers.keys.Keys <= sys.sessions.Keys
    ensures IsMember(sys, m)
    ensures sys.sessions[m].epoch == sys.room.epoch ==> sys.sessions[m].keySet == sys.room.peers
  {
    hide MintedOk, LeaderOf, SealAad, DerivePairwise, PlainOk;
    var s := sys.sessions[m];
    assert LiveOk(sys, m, s);
    forall env | env in sys.room.sent && env.from == m && env.epoch == sys.room.epoch
      ensures s.epoch == sys.room.epoch && env.to in s.sealedSent
    {
      assert EnvelopeOk(sys, env) && Remembers(s, env.blob.plain);
      assert WasSent(sys.room, m, env.to, s.epoch);
    }
    if s.epoch == sys.room.epoch {
      assert Announcement(s.epoch, s.keySet) == Current(sys);
      forall p | p in s.sealedSent ensures PublishedTo(sys.room, m, p, s.epoch) {
        assert WasSent(sys.room, m, p, s.epoch);
      }
      forall env | env in sys.room.sent && env.epoch == sys.room.epoch ensures Knows(sys.room, s, env.from) {
        InvSealed(rules, sys, env);
      }
    }
  }

  lemma InvIsSteady(rules: Rules, sys: System)
    requires Inv(rules, sys) && Together(sys)
    ensures Steady(rules, sys)
  {
    assert sys.room.peers.keys.Keys <= sys.sessions.Keys;
    forall m | m in sys.room.peers.keys ensures IsMember(sys, m) {
      InvMember(rules, sys, m);
    }
    forall env | env in sys.room.sent && env.epoch == sys.room.epoch
      ensures SealedWith(sys.roomId, sys.room.peers, env) && LeaderOf(sys.room.peers.ids) == Some(env.from)
    {
      InvSealed(rules, sys, env);
    }
    hide LiveOk, SentOk, MintedOk, IsMember, SealAad, SealedWith;
  }

  lemma MembersAreSteady(rules: Rules, sys: System)
    requires MembersInv(rules, sys) && Together(sys) && Level(sys)
    ensures Steady(rules, sys)
  {
    hide SealAad, LeaderOf, Informed, SealedByMembers, SessionPrompt.OneLeader, SessionPrompt.OneSender, SessionPrompt.Secrets;
    forall m | m in sys.room.peers.keys ensures IsMember(sys, m) {
      MemberIs(rules, sys, m);
    }
  }

  lemma SettledIsSteady(rules: Rules, sys: System)
    requires Settled(rules, sys)
    ensures Steady(rules, sys) && Together(sys)
  {
    hide Inv, MembersInv, Steady, Together, Level;
    if Safe(rules) && Inv(rules, sys) {
      InvIsSteady(rules, sys);
    } else {
      MembersAreSteady(rules, sys);
    }
  }

  /** What a member can open under the labels it came with was published under them. */
  lemma WireIsHonest(rules: Rules, sys: System, m: PeerId, env: Envelope)
    requires Settled(rules, sys) && m in sys.room.peers.keys && Relayed(rules, sys, env) && env.epoch == sys.room.epoch
    ensures m in sys.sessions && Honest(sys, sys.sessions[m], env)
  {
    hide LeaderOf, Relayed, SealAad, MintedOk, LiveOk, SealedByMembers, Informed, Opens, MembersInv, Inv;
    SettledIsSteady(rules, sys);
    assert IsMember(sys, m);
    if Safe(rules) && Inv(rules, sys) {
      var s := sys.sessions[m];
      if env.from in sys.sessions && env.from != s.id && (env.to == "" || env.to == s.id) && Opens(s, env) {
        InvOpens(rules, sys, m, env);
      }
    } else {
      RelayIsHonest(rules, sys, m, env);
    }
  }

  lemma InvOpens(rules: Rules, sys: System, m: PeerId, env: Envelope)
    requires Inv(rules, sys) && Steady(rules, sys) && m in sys.sessions && m in sys.room.peers.keys
    requires Relayed(rules, sys, env) && env.epoch == sys.room.epoch
    requires env.from in sys.sessions && env.from != m && (env.to == "" || env.to == m) && Opens(sys.sessions[m], env)
    ensures LeaderOf(sys.room.peers.ids) != Some(m) && WasSentAs(sys.room, sys.sessions[m], env)
  {
    hide LeaderOf, SealAad, MintedOk, LiveOk, DerivePairwise, SentOk, Informed;
    assert IsMember(sys, m);
    var sent :| sent in AllSent(sys) && sent.blob == env.blob && (!rules.relabels ==> sent == env);
    InvSealed(rules, sys, sent);
    SealAadNamesEpoch(sys.roomId, sent.epoch, sent.from, sent.to, env.epoch, env.from, m);
    assert SealedWith(sys.roomId, sys.room.peers, sent);
    if rules.relabels {
      SealAadInjective(sys.roomId, sent.epoch, sent.from, sent.to, sys.roomId, env.epoch, env.from, m);
    }
    assert SentAs(sys.sessions[m], sent, env);
  }

  // ---------------------------------------------------------------------------
  // One quiet step
  // ---------------------------------------------------------------------------

  lemma QuietStepFrame(rules: Rules, sys: System, step: Step)
    requires Quiet(step) && Possible(rules, sys, step)
    ensures
      var sys' := Apply(rules, sys, step);
      && Current(sys') == Current(sys) && sys'.live == sys.live && sys'.earlier == sys.earlier
      && sys'.sessions.Keys == sys.sessions.Keys
      && (forall m :: m in sys.sessions && m != step.id ==> sys'.sessions[m] == sys.sessions[m])
  {
    hide OnKeySet, OnSealedKey, Relayed;
    match step
    case DeliverKeySet(id, news, env) => OnKeySetKeepsRoom(sys.sessions[id], sys.room, news.epoch, news.keys, env);
    case DeliverSealed(id, envelope, env) => SealedKeepsRoom(sys.sessions[id], sys.room, envelope, env);
  }

  /** At the room's epoch or below it, a session stays so under deliveries. */
  lemma QuietStepLevel(rules: Rules, sys: System, step: Step)
    requires Quiet(step) && Possible(rules, sys, step) && Level(sys)
    requires step.DeliverKeySet? ==> step.news.epoch <= sys.room.epoch
    ensures Level(Apply(rules, sys, step))
  {
    hide OnKeySet, OnSealedKey, Relayed;
    QuietStepFrame(rules, sys, step);
    match step
    case DeliverKeySet(id, news, env) => KeySetTouches(sys.sessions[id], sys.room, news.epoch, news.keys, env);
    case DeliverSealed(id, envelope, env) => SealedEpochIs(sys.sessions[id], sys.room, envelope, env);
  }

  lemma SealedEpochIs(s: Session, room: Room, envelope: Envelope, env: Env)
    requires room.peers.Valid()
    ensures
      var o := OnSealedKey(s, room, envelope, false, env);
      o.session.epoch == s.epoch || o.session.epoch == room.epoch
  {
    hide OnKeySet, OpenGroupKey, DerivePairwise;
    KeySetTouches(s, room, room.epoch, room.peers, env);
    RefreshKeepsRoom(s, room, env);
  }

  lemma AnnouncedWithin(rules: Rules, sys: System, step: Step)
    requires Settled(rules, sys) && Possible(rules, sys, step) && step.DeliverKeySet?
    ensures step.news.epoch <= sys.room.epoch
  {
    hide MembersInv, LiveOk, SentOk, MintedOk, OnKeySet;
  }

  lemma QuietStepStays(rules: Rules, sys: System, step: Step)
    requires Settled(rules, sys) && Quiet(step) && Possible(rules, sys, step)
    ensures
      var sys' := Apply(rules, sys, step);
      && Settled(rules, sys') && Current(sys') == Current(sys) && sys'.live == sys.live && sys'.earlier == sys.earlier
      && sys'.sessions.Keys == sys.sessions.Keys
      && (forall m :: m in sys.sessions && m != step.id ==> sys'.sessions[m] == sys.sessions[m])
  {
    hide Inv, MembersInv, Apply, Possible, Level;
    if Safe(rules) && Inv(rules, sys) {
      StepKeeps(rules, sys, step);
    } else {
      StepInforms(rules, sys, step);
    }
    QuietStepFrame(rules, sys, step);
    if step.DeliverKeySet? {
      AnnouncedWithin(rules, sys, step);
    }
    QuietStepLevel(rules, sys, step);
  }

  /** A session of `m`'s that has the sender's registered key opens what the sender sealed to it in this epoch. */
  lemma GenuineOpens(rules: Rules, sys: System, m: PeerId, env: Envelope, t: Session, room: Room)
    requires Steady(rules, sys) && m in sys.room.peers.keys
    requires env in sys.room.sent && env.epoch == sys.room.epoch && env.to == m
    requires t.id == m && t.roomId == sys.roomId && t.keypair == sys.sessions[m].keypair && Knows(sys.room, t, env.from)
    ensures OpenSealed(t, room, env) == SealedOutcome(Install(t, env.blob.plain), room, Opened)
  {
    hide DerivePairwise, SealAad, ServedAll, KnowsSenders, LeaderOf;
    assert IsMember(sys, m);
    assert SealedWith(sys.roomId, sys.room.peers, env);
    var from := sys.room.peers.keys[env.from];
    assert Pub(from.priv) == from && t.keySet.keys[env.from] == from;
    SealOpenRoundTrip(env.blob.plain, from.priv, t.keypair.value, sys.roomId, env.epoch, env.from, m);
  }

  /** Blobs of the room's epoch go from its leader to other members, and members have names. */
  lemma GenuineLabels(rules: Rules, sys: System, env: Envelope)
    requires Steady(rules, sys) && env in sys.room.sent && env.epoch == sys.room.epoch
    ensures env.from in sys.room.peers.keys && env.to in sys.room.peers.keys
    ensures env.from != "" && env.to != "" && env.from != env.to
    ensures LeaderOf(sys.room.peers.ids) == Some(env.from)
  {
    hide DerivePairwise, SealAad, IsMember, LeaderOf;
    assert SealedWith(sys.roomId, sys.room.peers, env);
  }

  /** What the room's own key set, delivered, leaves of a session. */
  lemma CurrentKeySetLands(rules: Rules, sys: System, id: PeerId, env: Env)
    requires Steady(rules, sys) && Together(sys) && id in sys.room.peers.keys
    ensures
      id in sys.sessions &&
      var s := sys.sessions[id];
      var o := OnKeySet(s, sys.room, sys.room.epoch, sys.room.peers, env);
      && o.session.epoch == sys.room.epoch && o.session.keySet == sys.room.peers
      && o.session.id == s.id && o.session.roomId == s.roomId && o.session.keypair == s.keypair
      && (s.epoch == sys.room.epoch && s.roomKey.Some? ==> o.session == s.(keySet := sys.room.peers, status := Ready))
      && (LeaderOf(sys.room.peers.ids) != Some(id) ==> o.room == sys.room)
  {
    hide LeaderOf, SealedByMembers, PlainNames, Informed, PublishFrom;
    assert IsMember(sys, id);
    KeySetTouches(sys.sessions[id], sys.room, sys.room.epoch, sys.room.peers, env);
  }

  lemma HasKeyStays(rules: Rules, sys: System, step: Step, m: PeerId)
    requires Settled(rules, sys) && Quiet(step) && Possible(rules, sys, step)
    requires m in sys.room.peers.keys && HasKey(rules, sys, m)
    ensures HasKey(rules, Apply(rules, sys, step), m)
  {
    hide Inv, MembersInv, OnKeySet, OnSealedKey, Steady, Relayed, Level;
    SettledIsSteady(rules, sys);
    QuietStepFrame(rules, sys, step);
    assert Apply(rules, sys, step).earlier == sys.earlier;
    if step.id == m {
      if step.DeliverKeySet? {
        assert step.news == Current(sys) by { NewsIsCurrent(rules, sys, m, step.news); }
        CurrentKeySetLands(rules, sys, m, step.env);
      } else {
        SealedKeepsKey(rules, sys, m, step.envelope, step.env);
      }
    }
  }

  lemma NewsIsCurrent(rules: Rules, sys: System, m: PeerId, news: Announcement)
    requires Settled(rules, sys) && m in sys.room.peers.keys && HasKey(rules, sys, m)
    requires Timely(rules, sys, m, news)
    ensures news == Current(sys)
  {
    hide LiveOk, SentOk, MintedOk, MembersInv;
  }

  lemma SealedKeepsKey(rules: Rules, sys: System, m: PeerId, envelope: Envelope, env: Env)
    requires Steady(rules, sys) && Together(sys) && m in sys.room.peers.keys && HasKey(rules, sys, m)
    requires Relayed(rules, sys, envelope)
    ensures
      var s := OnSealedKey(sys.sessions[m], sys.room, envelope, false, env).session;
      s.epoch == sys.room.epoch && s.roomKey.Some? && (Clean(rules, sys) ==> s.status == Ready)
  {
    hide OnKeySet, DerivePairwise, OpenGroupKey, SealedByMembers, PlainNames, ServedAll, OwnKey, SealAad;
    assert IsMember(sys, m);
    var s := sys.sessions[m];
    CurrentKeySetLands(rules, sys, m, env);
    if Clean(rules, sys) && envelope.epoch == sys.room.epoch {
      assert envelope in sys.room.sent;
      GenuineLabels(rules, sys, envelope);
      if envelope.to == m {
        assert Knows(sys.room, s, envelope.from);
        GenuineOpens(rules, sys, m, envelope, s, sys.room);
      }
    }
  }

  lemma CaughtStays(rules: Rules, sys: System, step: Step, m: PeerId)
    requires Settled(rules, sys) && Quiet(step) && Possible(rules, sys, step)
    requires m in sys.room.peers.keys && Caught(sys, m)
    ensures Caught(Apply(rules, sys, step), m)
  {
    hide Settled, Apply, Possible;
    QuietStepStays(rules, sys, step);
    EpochsNeverGoBack(rules, sys, step, m);
    LevelSession(rules, Apply(rules, sys, step), m);
  }

  lemma LevelSession(rules: Rules, sys: System, m: PeerId)
    requires Settled(rules, sys) && m in sys.room.peers.keys && m in sys.sessions
    ensures sys.sessions[m].epoch <= sys.room.epoch
  {}
}
