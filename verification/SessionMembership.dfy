/**
 Under prompt delivery, in either kind of room: what the sessions of members know about
 each other. Every blob of the room's epoch is sealed between two members, a leader with
 the key has published to everyone, and whoever has the key knows who it is from.
 */
module SessionMembership {
  import opened Common
  import opened Text
  import opened Crypto
  import opened Utf16Order
  import opened SessionSpec
  import opened SessionSystem
  import opened SessionPublishing
  import opened SessionPrompt

  /** A live session whose id the room's key set lists. */
  predicate Member(sys: System, m: PeerId) {
    m in sys.live && m in sys.room.peers.keys
  }

  /** The blob is what its sender seals for its recipient, under the public keys of `keys`. */
  ghost predicate SealedWith(roomId: string, keys: KeySet, env: Envelope) {
    && env.from in keys.keys && env.to in keys.keys && env.from != env.to
    && env.blob == SealGroupKey(env.blob.plain,
                                DerivePairwise(keys.keys[env.from].priv, keys.keys[env.to], roomId, env.epoch, env.from, env.to),
                                roomId, env.epoch, env.from, env.to)
  }

  ghost predicate SealedByMembers(roomId: string, room: Room) {
    forall env :: env in room.sent && env.epoch == room.epoch ==> SealedWith(roomId, room.peers, env)
  }

  /** `s` has `p` in its key set with the public key `p` has registered. */
  predicate Knows(room: Room, s: Session, p: PeerId) {
    p in s.keySet.keys && p in room.peers.keys && s.keySet.keys[p] == room.peers.keys[p]
  }

  /** A session with the key of the room's epoch knows whoever published there. */
  ghost predicate KnowsSenders(room: Room, s: Session) {
    s.epoch == room.epoch && s.roomKey.Some? ==>
      forall env :: env in room.sent && env.epoch == room.epoch && env.from != s.id ==> Knows(room, s, env.from)
  }

  ghost predicate OwnKey(room: Room, s: Session) {
    s.id in room.peers.keys ==> s.keypair.Some? && room.peers.keys[s.id] == Pub(s.keypair.value)
  }

  /** A leader at the room's epoch that has the key has published to every other member. */
  ghost predicate ServedAll(room: Room, s: Session) {
    s.epoch == room.epoch && s.roomKey.Some? && LeaderOf(room.peers.ids) == Some(s.id) ==>
      forall p :: p in room.peers.keys && p != s.id ==> PublishedTo(room, s.id, p, room.epoch)
  }

  ghost predicate Informed(room: Room, s: Session) {
    OwnKey(room, s) && ServedAll(room, s) && KnowsSenders(room, s)
  }

  /** No id is empty; where the relay may relabel, none holds a bar. */
  ghost predicate PlainNames(rules: Rules, sys: System) {
    && "" !in sys.sessions && sys.room.peers.keys.Keys <= sys.sessions.Keys
    && (rules.relabels ==> BAR !in sys.roomId && forall id :: id in sys.sessions ==> BAR !in id)
  }

  /** Nor does anyone know of an id that has no session. */
  ghost predicate PlainIds(rules: Rules, sys: System) {
    && PlainNames(rules, sys)
    && forall id :: id in sys.sessions ==> sys.sessions[id].keySet.keys.Keys <= sys.sessions.Keys
  }

  ghost predicate AllInformed(sys: System) {
    && SealedByMembers(sys.roomId, sys.room)
    && forall m :: m in sys.sessions && Member(sys, m) ==> Informed(sys.room, sys.sessions[m])
  }

  ghost predicate MembersInv(rules: Rules, sys: System) {
    && PromptInv(rules, sys) && PlainIds(rules, sys) && AllInformed(sys)
    && Current(sys) in sys.announced
  }

  lemma MemberIs(rules: Rules, sys: System, m: PeerId)
    requires MembersInv(rules, sys) && m in sys.sessions && m in sys.live
    ensures SessionSound(sys, m, sys.sessions[m]) && Fine(sys.roomId, sys.room)
    ensures Member(sys, m) ==> Insider(sys, m) && Informed(sys.room, sys.sessions[m])
  {
    SoundSession(sys, m);
  }

  // ---------------------------------------------------------------------------
  // Handlers
  // ---------------------------------------------------------------------------

  lemma SealIsWith(s: Session, key: GroupKey, peer: PeerId)
    requires s.keypair.Some? && peer in s.keySet.keys && peer != s.id
    requires s.id in s.keySet.keys && s.keySet.keys[s.id] == Pub(s.keypair.value)
    ensures SealedWith(s.roomId, s.keySet, SealFor(s, key, peer))
  {
    hide DerivePairwise, SealAad;
  }

  lemma {:induction false} LoopSeals(s: Session, room: Room, key: GroupKey, i: nat, accepts: set<PeerId>)
    requires s.keypair.Some? && s.keySet.Valid() && i <= |s.keySet.ids|
    requires s.id in s.keySet.keys && s.keySet.keys[s.id] == Pub(s.keypair.value)
    ensures
      var o := PublishFrom(s, room, key, i, accepts);
      forall env :: env in o.room.sent ==> env in room.sent || SealedWith(s.roomId, s.keySet, env)
    decreases |s.keySet.ids| - i
  {
    hide SealFor, SealedWith;
    if i < |s.keySet.ids| {
      var peer := s.keySet.ids[i];
      if peer == s.id || peer in s.sealedSent {
        LoopSeals(s, room, key, i + 1, accepts);
      } else {
        var env := SealFor(s, key, peer);
        if Accepted(room, env, peer in accepts) {
          SealIsWith(s, key, peer);
          InGrown(room.sent, env);
          LoopSeals(s.(sealedSent := s.sealedSent + {peer}), Publish(room, env), key, i + 1, accepts);
        }
      }
    }
  }

  /** What a handler leaves of an informed session and of its room. */
  ghost predicate StaysInformed(s: Session, room: Room, s': Session, room': Room) {
    StaysLoyal(s, room, s', room') && SealedByMembers(s.roomId, room') && Informed(room', s')
  }

  /** The leader's distribution seals with the members' keys, and if it ends has served them all. */
  lemma RoundInforms(s: Session, room: Room, env: Env)
    requires Fine(s.roomId, room) && Loyal(room, s) && s.keypair.Some? && room.peers.Valid()
    requires SealedByMembers(s.roomId, room) && OwnKey(room, s) && |room.peers.ids| > 1
    requires LeaderOf(room.peers.ids) == Some(s.id)
    ensures
      var m := WithLeaderKey(AdoptKeySet(s, room.epoch, room.peers), env.draw);
      var o := PublishFrom(m, room, m.leaderKey.value.key, 0, env.accepts);
      && SealedByMembers(s.roomId, o.room) && o.room.peers == room.peers && o.room.epoch == room.epoch
      && o.session == m.(sealedSent := o.session.sealedSent)
      && (!o.threw ==> forall p :: p in room.peers.keys && p != s.id ==> PublishedTo(o.room, s.id, p, m.epoch))
  {
    hide Fine, LeaderOf, SealedWith, Loyal, PublishFrom, PublishedTo;
    var m := WithLeaderKey(AdoptKeySet(s, room.epoch, room.peers), env.draw);
    var key := m.leaderKey.value.key;
    LeaderIsLowest(room.peers.ids);
    assert s.id in room.peers.keys;
    AdoptIsLoyal(s, room, room.epoch, room.peers, env.draw);
    LoopSeals(m, room, key, 0, env.accepts);
    LoopIsLoyal(m, room, key, 0, env.accepts);
    var o := PublishFrom(m, room, key, 0, env.accepts);
    if !o.threw {
      forall p | p in room.peers.keys && p != s.id ensures PublishedTo(o.room, s.id, p, m.epoch) {
        assert p in m.keySet.ids;
        WhoWasSealedTo(o.room, o.session, p);
      }
    }
  }

  lemma WhoWasSealedTo(room: Room, s: Session, p: PeerId)
    requires Loyal(room, s) && p in s.sealedSent
    ensures PublishedTo(room, s.id, p, s.epoch)
  {}

  /** The room's own key set, handled. */
  lemma KeySetInforms(s: Session, room: Room, env: Env)
    requires Fine(s.roomId, room) && Loyal(room, s) && s.keypair.Some? && room.peers.Valid()
    requires SealedByMembers(s.roomId, room) && OwnKey(room, s) && ServedAll(room, s)
    ensures
      var o := OnKeySet(s, room, room.epoch, room.peers, env);
      StaysInformed(s, room, o.session, o.room) && o.session.keySet == room.peers
  {
    hide Fine, Loyal, PublishFrom, LeaderOf, SealedWith, PublishedTo, KnowsSenders;
    KeySetIsLoyal(s, room, room.epoch, room.peers, env);
    var t := AdoptKeySet(s, room.epoch, room.peers);
    var o := OnKeySet(s, room, room.epoch, room.peers, env);
    if |room.peers.ids| > 1 && t.roomKey.None? && IsLeader(t) {
      RoundInforms(s, room, env);
      var m := WithLeaderKey(t, env.draw);
      var p := PublishFrom(m, room, m.leaderKey.value.key, 0, env.accepts);
      assert o.room == p.room && (p.threw ==> o.session.roomKey == None);
    } else {
      assert o.room == room;
    }
    KnowsAll(o.session.roomId, o.room, o.session);
  }

  lemma KnowsAll(roomId: string, room: Room, s: Session)
    requires SealedByMembers(roomId, room) && s.keySet == room.peers
    ensures KnowsSenders(room, s)
  {
    hide DerivePairwise, SealAad;
    forall env | env in room.sent && env.epoch == room.epoch ensures Knows(room, s, env.from) {
      assert SealedWith(roomId, room.peers, env);
    }
  }

  lemma AgreeCancels(p: nat, q: nat, x: nat)
    requires Agree(p, Pub(x)) == Agree(q, Pub(p))
    ensures x == q
  {}

  /** `sent` is the blob, published under the labels it came with. */
  predicate SentAs(s: Session, sent: Envelope, env: Envelope) {
    sent.blob == env.blob && sent.epoch == env.epoch && sent.from == env.from && sent.to == s.id
  }

  ghost predicate WasSentAs(room: Room, s: Session, env: Envelope) {
    exists sent :: sent in room.sent && SentAs(s, sent, env)
  }

  /** A member that opens what was sealed for it has the sender's registered key. */
  lemma OpenedSender(s: Session, room: Room, sent: Envelope, env: Envelope)
    requires SealedWith(s.roomId, room.peers, sent) && SentAs(s, sent, env)
    requires OwnKey(room, s) && OpenSealed(s, room, env).reply == Opened
    ensures Knows(room, s, env.from)
  {
    hide SealAad, Sort;
    var mine, from := s.keypair.value, room.peers.keys[env.from];
    assert env.blob.key.secret == Agree(mine, s.keySet.keys[env.from]) == Agree(from.priv, Pub(mine));
    assert s.keySet.keys[env.from] == Pub(s.keySet.keys[env.from].priv) && from == Pub(from.priv);
    AgreeCancels(mine, from.priv, s.keySet.keys[env.from].priv);
  }

  lemma OpenKnows(s: Session, room: Room, env: Envelope)
    requires SealedByMembers(s.roomId, room) && OneSender(room.sent) && s.id in room.peers.keys && OwnKey(room, s)
    requires Loyal(room, s) && KnowsSenders(room, s) && s.epoch == room.epoch && env.epoch == room.epoch
    requires Opens(s, env) && env.from in s.keySet.keys ==> WasSentAs(room, s, env)
    ensures KnowsSenders(room, OpenSealed(s, room, env).session)
  {
    hide SealAad, OpenSealed, SealedWith, Loyal, Opens, Knows;
    var o := OpenSealed(s, room, env);
    OpenIsLoyal(s, room, env);
    OpenedOpens(s, room, env);
    if o.reply == Opened {
      var sent :| sent in room.sent && SentAs(s, sent, env);
      assert SealedWith(s.roomId, room.peers, sent);
      OpenedSender(s, room, sent, env);
      SameKnows(room, s, o.session, env.from);
    } else {
      forall p ensures Knows(room, s, p) == Knows(room, o.session, p) {
        SameKnows(room, s, o.session, p);
      }
    }
  }

  lemma OpenedOpens(s: Session, room: Room, env: Envelope)
    ensures
      var o := OpenSealed(s, room, env);
      if o.reply == Opened then Opens(s, env) && env.from in s.keySet.keys else o.session.roomKey == s.roomKey
  {
    hide SealAad;
  }

  lemma SameKnows(room: Room, s: Session, t: Session, p: PeerId)
    requires t.keySet == s.keySet
    ensures Knows(room, s, p) == Knows(room, t, p)
  {}

  /** Opening leaves everything but key and status, and a leader opens nothing. */
  lemma OpenServes(s: Session, room: Room, env: Envelope)
    requires Loyal(room, s) && ServedAll(room, s)
    requires LeaderOf(room.peers.ids) == Some(s.id) && env.from in s.keySet.keys ==> !Opens(s, env)
    ensures
      var o := OpenSealed(s, room, env);
      && ServedAll(room, o.session) && o.session == s.(roomKey := o.session.roomKey, status := o.session.status)
  {
    hide SealAad, LeaderOf, PublishedTo;
    OpenIsLoyal(s, room, env);
  }

  lemma OpenInforms(s: Session, room: Room, env: Envelope)
    requires Loyal(room, s) && SealedByMembers(s.roomId, room) && OneSender(room.sent)
    requires s.id in room.peers.keys && Informed(room, s) && s.epoch == room.epoch && env.epoch == room.epoch
    requires LeaderOf(room.peers.ids) == Some(s.id) && env.from in s.keySet.keys ==> !Opens(s, env)
    requires Opens(s, env) && env.from in s.keySet.keys ==> WasSentAs(room, s, env)
    ensures Informed(room, OpenSealed(s, room, env).session)
  {
    hide LeaderOf, PublishedTo, Opens, Loyal, SealedByMembers, OneSender, KnowsSenders, ServedAll, OpenSealed;
    OpenServes(s, room, env);
    OpenKnows(s, room, env);
    SameOwnKey(room, s, OpenSealed(s, room, env).session);
  }

  lemma SameOwnKey(room: Room, s: Session, t: Session)
    requires OwnKey(room, s) && t.id == s.id && t.keypair == s.keypair
    ensures OwnKey(room, t)
  {}

  /** What the wire may bring a member: nothing a leader opens, and to others only what was published for them. */
  ghost predicate Honest(sys: System, s: Session, env: Envelope) {
    env.from in sys.sessions && env.from != s.id && (env.to == "" || env.to == s.id) && Opens(s, env) ==>
      LeaderOf(sys.room.peers.ids) != Some(s.id) && WasSentAs(sys.room, s, env)
  }

  lemma RelayIsHonest(rules: Rules, sys: System, id: PeerId, env: Envelope)
    requires Prompt(rules) && MembersInv(rules, sys) && Relayed(rules, sys, env) && env.epoch == sys.room.epoch
    requires id in sys.sessions && Member(sys, id)
    ensures Honest(sys, sys.sessions[id], env)
  {
    hide SealAad, LeaderOf, Loyal, Backed, Relayed, Truthful, Opens, Fine, Secrets, AllInformed, PlainIds, Informed, OneSender;
    var s := sys.sessions[id];
    MemberIs(rules, sys, id);
    RelayedIsTruthful(rules, sys, id, env);
    if env.from in sys.sessions && env.from != id && (env.to == "" || env.to == id) && Opens(s, env) {
      var sent :| sent in sys.room.sent && sent.blob == env.blob && sent.epoch == env.epoch && (!rules.relabels ==> sent == env);
      LabelsMatch(rules, sys, id, sent, env);
    }
  }

  /** A blob that opens was published under the labels it came with. */
  lemma LabelsMatch(rules: Rules, sys: System, id: PeerId, sent: Envelope, env: Envelope)
    requires MembersInv(rules, sys) && id in sys.sessions && Member(sys, id) && Opens(sys.sessions[id], env)
    requires sent in sys.room.sent && sent.blob == env.blob && sent.epoch == env.epoch == sys.room.epoch
    requires env.from in sys.sessions && (env.to == "" || env.to == id) && (!rules.relabels ==> sent == env)
    ensures SentAs(sys.sessions[id], sent, env)
  {
    hide SealAad, DerivePairwise, LeaderOf, Loyal, Backed;
    MemberIs(rules, sys, id);
    assert SealedWith(sys.roomId, sys.room.peers, sent);
    if rules.relabels {
      SealAadInjective(sys.roomId, sent.epoch, sent.from, sent.to, sys.roomId, env.epoch, env.from, id);
    }
  }

  /** A blob labelled with the room's epoch, handled by a member. */
  lemma SealedInforms(rules: Rules, sys: System, id: PeerId, env: Envelope, e: Env)
    requires Prompt(rules) && MembersInv(rules, sys) && id in sys.sessions && Member(sys, id) && sys.room.peers.Valid()
    requires Relayed(rules, sys, env) && env.epoch == sys.room.epoch
    ensures
      var s := sys.sessions[id];
      var o := OnSealedKey(s, sys.room, env, false, e);
      SealedByMembers(s.roomId, o.room) && Informed(o.room, o.session)
  {
    hide LeaderOf, OnKeySet, OpenSealed, Relayed, PromptInv, PlainIds, SealedByMembers, Informed, StaysLoyal;
    var s, room := sys.sessions[id], sys.room;
    MemberIs(rules, sys, id);
    RelayIsHonest(rules, sys, id, env);
    StillInformed(rules, sys, id);
    RefreshInforms(rules, sys, id, e);
    var r := RefreshKeySet(s, room, e);
    OpenTouches(s, room, env);
    OpenTouches(r.session, r.room, env);
    if (env.to == "" || env.to == s.id) && env.from != "" && env.from != s.id {
      if s.epoch == room.epoch && env.from in s.keySet.keys {
        HonestOpens(rules, sys, id, env, s, room);
      }
      if e.refreshes && r.session.epoch == room.epoch {
        HonestOpens(rules, sys, id, env, r.session, r.room);
      }
    }
  }

  lemma StillInformed(rules: Rules, sys: System, id: PeerId)
    requires MembersInv(rules, sys) && id in sys.sessions && Member(sys, id)
    ensures StaysInformed(sys.sessions[id], sys.room, sys.sessions[id], sys.room) && OneSender(sys.room.sent)
  {
    hide LeaderOf, Fine, Loyal, Secrets, SealedByMembers, PlainIds, Backed, Informed;
    MemberIs(rules, sys, id);
    NothingGrew(sys.room, id);
  }

  /** Asking for the key set leaves a member informed, and adds to an epoch only what its one sender publishes. */
  lemma RefreshInforms(rules: Rules, sys: System, id: PeerId, e: Env)
    requires MembersInv(rules, sys) && id in sys.sessions && Member(sys, id) && sys.room.peers.Valid()
    ensures
      var s := sys.sessions[id];
      var r := RefreshKeySet(s, sys.room, e);
      && StaysInformed(s, sys.room, r.session, r.room) && OneSender(r.room.sent)
      && (r.session.keySet == s.keySet || r.session.keySet == sys.room.peers)
      && (e.refreshes && s.epoch <= sys.room.epoch ==> r.session.epoch == sys.room.epoch)
  {
    hide LeaderOf, OnKeySet, Fine, Loyal, Secrets, SealedByMembers, PlainIds, Within, Backed, OwnKey, ServedAll, KnowsSenders;
    var s := sys.sessions[id];
    MemberIs(rules, sys, id);
    NothingGrew(sys.room, id);
    RefreshLeaves(rules, sys, id, e);
    LeaderStaysOne(sys.room, RefreshKeySet(s, sys.room, e).room, id);
    KeySetInforms(s, sys.room, e);
    KeySetTouches(s, sys.room, sys.room.epoch, sys.room.peers, e);
  }

  /** The blob, in the hands of the member's session as it is once it is at the epoch. */
  lemma HonestOpens(rules: Rules, sys: System, id: PeerId, env: Envelope, t: Session, room: Room)
    requires MembersInv(rules, sys) && id in sys.sessions && Member(sys, id) && env.epoch == sys.room.epoch == t.epoch
    requires Honest(sys, sys.sessions[id], env) && env.from != id && (env.to == "" || env.to == id)
    requires StaysInformed(sys.sessions[id], sys.room, t, room) && OneSender(room.sent)
    requires t.keySet == sys.sessions[id].keySet || t.keySet == sys.room.peers
    ensures Informed(room, OpenSealed(t, room, env).session)
  {
    hide LeaderOf, OpenSealed, Opens, Fine, Loyal, Secrets, SealedByMembers, Informed, OneSender, Backed, OneLeader;
    MemberIs(rules, sys, id);
    SameOpens(sys.sessions[id], t, env);
    if WasSentAs(sys.room, sys.sessions[id], env) {
      var sent :| sent in sys.room.sent && SentAs(sys.sessions[id], sent, env);
      assert sent in room.sent && SentAs(t, sent, env);
    }
    OpenInforms(t, room, env);
  }

  lemma OpenTouches(s: Session, room: Room, env: Envelope)
    ensures
      var o := OpenSealed(s, room, env);
      o.room == room && (env.from !in s.keySet.keys ==> o.session == s)
  {
    hide DerivePairwise, OpenGroupKey;
  }

  lemma SameOpens(s: Session, t: Session, env: Envelope)
    requires t.id == s.id && t.roomId == s.roomId && t.keypair == s.keypair
    ensures Opens(t, env) == Opens(s, env)
  {}

  // ---------------------------------------------------------------------------
  // Steps
  // ---------------------------------------------------------------------------

  /** Another handler's publishes take nothing from a member. */
  lemma BystanderInformed(room: Room, id: PeerId, room': Room, s: Session)
    requires Informed(room, s) && GrewBy(room, room', id) && OneSender(room'.sent) && Backed(room, s)
    ensures Informed(room', s)
  {
    hide LeaderOf;
    if s.epoch == room.epoch && s.roomKey.Some? {
      var own :| own in room.sent && own.epoch == s.epoch && own.blob.plain == s.roomKey.value;
      assert own in room'.sent;
      forall env | env in room'.sent && env.epoch == room.epoch ensures env.from == own.from {
      }
      if LeaderOf(room.peers.ids) == Some(s.id) {
        forall p | p in room.peers.keys && p != s.id ensures PublishedTo(room', s.id, p, room.epoch) {
          assert PublishedTo(room, s.id, p, room.epoch);
          var e :| e in room.sent && e.from == s.id && e.to == p && e.epoch == room.epoch;
          assert e in room'.sent;
        }
      }
    }
  }

  /** The handler of a live session is over. */
  lemma HandlerInforms(rules: Rules, sys: System, id: PeerId, s: Session, room: Room)
    requires PromptInv(rules, sys) && AllInformed(sys) && id in sys.live && id in sys.sessions && Leaves(sys, id, s, room)
    requires SealedByMembers(sys.roomId, room) && (Member(sys, id) ==> Informed(room, s))
    ensures AllInformed(Put(sys, id, s, room))
  {
    hide SealedByMembers, Informed, Fine, Loyal, Backed, OneLeader, OneSender, Secrets, LeaderOf, Within;
    var sys' := Put(sys, id, s, room);
    LeaderStaysOne(sys.room, room, id);
    forall x | x in sys'.sessions && Member(sys', x) ensures Informed(sys'.room, sys'.sessions[x]) {
      if x != id {
        SoundSession(sys, x);
        BystanderInformed(sys.room, id, room, sys.sessions[x]);
      }
    }
  }

  lemma NonMemberHears(rules: Rules, sys: System, id: PeerId)
    requires PromptInv(rules, sys) && id in sys.sessions && id in sys.live && id !in sys.room.peers.keys
    ensures LeaderOf(sys.room.peers.ids) != Some(id)
  {
    LeaderIsLowest(sys.room.peers.ids);
  }

  lemma DeliveryInforms(rules: Rules, sys: System, step: Step)
    requires Prompt(rules) && MembersInv(rules, sys) && Possible(rules, sys, step) && (step.DeliverKeySet? || step.DeliverSealed?)
    ensures AllInformed(Apply(rules, sys, step))
  {
    hide LeaderOf, RecordOk, Relayed, OnKeySet, OnSealedKey, Fine, Loyal, Secrets, AllSound, RefreshKeySet;
    hide SealedByMembers, Informed, PlainIds, SessionSound, Leaves;
    var id := step.id;
    if id !in sys.live {
      assert Apply(rules, sys, step).room == sys.room by { IdleKeepsRoom(rules, sys, step); }
    } else if step.DeliverKeySet? {
      HearingInforms(rules, sys, id, step.env);
    } else {
      ReceivingInforms(rules, sys, id, step.envelope, step.env);
    }
  }

  lemma IdleKeepsRoom(rules: Rules, sys: System, step: Step)
    requires MembersInv(rules, sys) && Possible(rules, sys, step) && (step.DeliverKeySet? || step.DeliverSealed?) && step.id !in sys.live
    ensures Apply(rules, sys, step).room == sys.room
  {
    hide LeaderOf, Relayed, OnKeySet, OnSealedKey;
    match step
    case DeliverKeySet(id, news, env) => KeySetTouches(sys.sessions[id], sys.room, news.epoch, news.keys, env);
    case DeliverSealed(id, envelope, env) => SealedTouches(sys.sessions[id], sys.room, envelope, env);
  }

  lemma HearingInforms(rules: Rules, sys: System, id: PeerId, env: Env)
    requires MembersInv(rules, sys) && id in sys.sessions && id in sys.live && sys.room.peers.Valid()
    ensures
      var o := OnKeySet(sys.sessions[id], sys.room, sys.room.epoch, sys.room.peers, env);
      AllInformed(Put(sys, id, o.session, o.room))
  {
    hide LeaderOf, OnKeySet, Fine, Loyal, Secrets, SealedByMembers, OwnKey, ServedAll, KnowsSenders, PlainIds, OneSender, OneLeader;
    MemberIs(rules, sys, id);
    HearingLeaves(rules, sys, id, env);
    var s := sys.sessions[id];
    var o := OnKeySet(s, sys.room, sys.room.epoch, sys.room.peers, env);
    if Member(sys, id) {
      KeySetInforms(s, sys.room, env);
    } else {
      NonMemberHears(rules, sys, id);
    }
    HandlerInforms(rules, sys, id, o.session, o.room);
  }

  lemma ReceivingInforms(rules: Rules, sys: System, id: PeerId, envelope: Envelope, env: Env)
    requires Prompt(rules) && MembersInv(rules, sys) && id in sys.sessions && id in sys.live && sys.room.peers.Valid()
    requires Relayed(rules, sys, envelope) && envelope.epoch == sys.room.epoch
    ensures
      var o := OnSealedKey(sys.sessions[id], sys.room, envelope, false, env);
      AllInformed(Put(sys, id, o.session, o.room))
  {
    hide LeaderOf, OnSealedKey, Fine, Loyal, Secrets, SealedByMembers, Informed, PlainIds, OneSender, OneLeader, Relayed;
    MemberIs(rules, sys, id);
    ReceivingLeaves(rules, sys, id, envelope, env);
    var o := OnSealedKey(sys.sessions[id], sys.room, envelope, false, env);
    if Member(sys, id) {
      SealedInforms(rules, sys, id, envelope, env);
    } else {
      NonMemberHears(rules, sys, id);
    }
    HandlerInforms(rules, sys, id, o.session, o.room);
  }

  /** A session that is not live is no member. */
  lemma IdleInforms(sys: System, id: PeerId, s: Session, sys': System)
    requires AllInformed(sys) && sys'.roomId == sys.roomId && sys'.room == sys.room
    requires sys'.sessions == sys.sessions[id := s] && sys'.live == sys.live - {id}
    ensures AllInformed(sys')
  {
    hide SealedByMembers, Informed;
  }

  /** The room changes its epoch or its members while nothing is published in its epoch. */
  lemma FreshEpochInforms(room: Room, room': Room, s: Session)
    requires Backed(room, s) && room'.sent == room.sent && forall env :: env in room'.sent ==> env.epoch < room'.epoch
    requires OwnKey(room', s)
    ensures Informed(room', s)
  {
    hide LeaderOf;
  }

  lemma RoomInforms(rules: Rules, sys: System, room: Room, sys': System)
    requires PromptInv(rules, sys) && AllInformed(sys) && room.sent == sys.room.sent
    requires forall env :: env in room.sent ==> env.epoch < room.epoch
    requires sys'.roomId == sys.roomId && sys'.room == room && sys'.sessions == sys.sessions && sys'.live == sys.live
    requires forall m :: m in sys.live && m in room.peers.keys ==>
               m in sys.room.peers.keys && room.peers.keys[m] == sys.room.peers.keys[m]
    ensures AllInformed(sys')
  {
    hide LeaderOf, Loyal, Backed, RecordOk, Secrets, ServedAll, KnowsSenders;
    forall m | m in sys'.sessions && Member(sys', m) ensures Informed(room, sys'.sessions[m]) {
      SoundSession(sys, m);
      assert Informed(sys.room, sys.sessions[m]);
      FreshEpochInforms(sys.room, room, sys.sessions[m]);
    }
  }

  lemma EntryInforms(rules: Rules, sys: System, id: PeerId, priv: nat)
    requires PromptInv(rules, sys) && AllInformed(sys) && id in sys.sessions && id !in sys.live && id !in sys.room.peers.keys
    ensures AllInformed(Entering(sys, id, priv))
  {
    hide LeaderOf, Loyal, Secrets, Informed, AdoptEpoch, Register, OneLeader, OneSender, SealedWith;
    SoundSession(sys, id);
    RegisterIsStored(sys.room, id, Pub(priv));
    RegisterAddsOne(sys.room, id, priv);
    var joined := Register(sys.room, id, Pub(priv));
    var mid := Entering(sys, id, priv);
    RoomInforms(rules, sys, joined, WithRoom(sys, joined));
    NewcomerIsLoyal(sys.sessions[id], joined, priv);
    FreshEpochInforms(joined, joined, Entered(sys, id, priv));
    forall m | m in mid.sessions && Member(mid, m) ensures Informed(joined, mid.sessions[m]) {
      assert m != id ==> Member(WithRoom(sys, joined), m);
    }
  }

  lemma JoinInforms(rules: Rules, sys: System, id: PeerId, priv: nat, env: Env)
    requires Prompt(rules) && MembersInv(rules, sys) && Possible(rules, sys, Join(id, priv, true, env))
    ensures AllInformed(Apply(rules, sys, Join(id, priv, true, env)))
  {
    hide PromptInv, RefreshKeySet, Register, Start, AdoptEpoch, AllInformed, PlainIds, LeaderOf;
    assert sys.sessions[id].id == id by { SoundParts(rules, sys, id); }
    EnterIsPrompt(rules, sys, id, priv);
    EntryInforms(rules, sys, id, priv);
    RegisterAddsOne(sys.room, id, priv);
    var joined := Register(sys.room, id, Pub(priv));
    var t := Entered(sys, id, priv);
    var mid := Entering(sys, id, priv);
    var r := RefreshKeySet(t, joined, env);
    var last := if r.threw then r.session.(status := Failed) else r.session;
    RefreshLeaves(rules, mid, id, env);
    LeavesWithStatus(mid, id, r.session, r.room, Failed);
    NewcomerInformed(rules, mid, id, env);
    HandlerInforms(rules, mid, id, last, r.room);
    assert Start(sys.sessions[id], sys.room, priv, true, env) == r.(session := last) by { StartIs(sys, id, priv, env); }
    RefreshKeepsRoom(t, joined, env);
    PutAgain(sys, id, joined, t, last, r.room, Enrol(sys.books, id, priv, true));
  }

  lemma NewcomerInformed(rules: Rules, sys: System, id: PeerId, env: Env)
    requires PromptInv(rules, sys) && AllInformed(sys) && id in sys.sessions && Member(sys, id) && sys.room.peers.Valid()
    ensures
      var r := RefreshKeySet(sys.sessions[id], sys.room, env);
      && SealedByMembers(sys.roomId, r.room) && Informed(r.room, r.session)
      && Informed(r.room, r.session.(status := Failed))
  {
    hide LeaderOf, OnKeySet, Fine, Loyal, Secrets, SealedByMembers, OneSender, OneLeader, ServedAll, PublishedTo;
    SoundSession(sys, id);
    KeySetInforms(sys.sessions[id], sys.room, env);
    var r := RefreshKeySet(sys.sessions[id], sys.room, env);
    StatusServes(r.room, r.session, Failed);
  }

  lemma StatusServes(room: Room, s: Session, status: Status)
    ensures ServedAll(room, s.(status := status)) == ServedAll(room, s)
  {}

  /** One session changes, and learns at most of the peers the room has now, all of which have sessions. */
  lemma PlainFollows(rules: Rules, sys: System, id: PeerId, s: Session, sys': System)
    requires PlainIds(rules, sys) && id in sys.sessions && sys'.roomId == sys.roomId && sys'.sessions == sys.sessions[id := s]
    requires sys'.room.peers.keys.Keys <= sys.room.peers.keys.Keys + {id}
    requires s.keySet == sys.sessions[id].keySet || s.keySet == sys'.room.peers || s.keySet == EMPTY_KEYS
    ensures PlainIds(rules, sys')
  {}

  lemma PlainStays(rules: Rules, sys: System, step: Step)
    requires Prompt(rules) && MembersInv(rules, sys) && Possible(rules, sys, step)
    ensures PlainIds(rules, Apply(rules, sys, step)) && Current(Apply(rules, sys, step)) in Apply(rules, sys, step).announced
  {
    hide PromptInv, AllInformed, PlainIds, OnKeySet, OnSealedKey, Start, Relayed, LeaderOf;
    var sys' := Apply(rules, sys, step);
    match step
    case DeliverKeySet(id, news, env) =>
      var s := sys.sessions[id];
      KeySetTouches(s, sys.room, news.epoch, news.keys, env);
      OnKeySetKeepsRoom(s, sys.room, news.epoch, news.keys, env);
      PlainFollows(rules, sys, id, OnKeySet(s, sys.room, news.epoch, news.keys, env).session, sys');
    case DeliverSealed(id, envelope, env) =>
      var s := sys.sessions[id];
      SealedTouches(s, sys.room, envelope, env);
      SealedKeepsRoom(s, sys.room, envelope, env);
      PlainFollows(rules, sys, id, OnSealedKey(s, sys.room, envelope, false, env).session, sys');
    case Join(id, priv, registers, env) =>
      var s := sys.sessions[id];
      SoundParts(rules, sys, id);
      JoinedPeers(s, sys.room, priv, registers, env);
      PlainFollows(rules, sys, id, Start(s, sys.room, priv, registers, env).session, sys');
    case Leave(id) => PlainFollows(rules, sys, id, Clear(sys.sessions[id]), sys');
    case _ => PlainOtherwise(rules, sys, step);
  }

  lemma PlainOtherwise(rules: Rules, sys: System, step: Step)
    requires rules.atomic && PlainIds(rules, sys) && Possible(rules, sys, step) && Current(sys) in sys.announced
    requires step.Construct? || step.Drop? || step.Rotate? || step.Restart?
    ensures PlainIds(rules, Apply(rules, sys, step)) && Current(Apply(rules, sys, step)) in Apply(rules, sys, step).announced
  {
    hide Without;
  }

  lemma JoinedPeers(s: Session, room: Room, priv: nat, registers: bool, env: Env)
    requires room.peers.Valid()
    ensures
      var o := Start(s, room, priv, registers, env);
      && o.room.peers.keys.Keys <= room.peers.keys.Keys + {s.id}
      && (o.session.keySet == s.keySet || o.session.keySet == o.room.peers)
  {
    hide OnKeySet, LeaderOf;
    RegisterKeepsValid(room, s.id, Pub(priv));
    var joined := Register(room, s.id, Pub(priv));
    var t := AdoptEpoch(s.(status := Registering, keypair := Some(priv)), joined.epoch);
    RefreshKeepsRoom(t, joined, env);
    KeySetTouches(t, joined, joined.epoch, joined.peers, env);
  }

  lemma StepInforms(rules: Rules, sys: System, step: Step)
    requires Prompt(rules) && MembersInv(rules, sys) && Possible(rules, sys, step)
    ensures MembersInv(rules, Apply(rules, sys, step))
  {
    hide LeaderOf, OnKeySet, OnSealedKey, Fine, Loyal, Register, SealedByMembers, Informed, PlainIds, Relayed, RefreshKeySet, Secrets;
    hide PromptInv;
    StepIsPrompt(rules, sys, step);
    PlainStays(rules, sys, step);
    var sys' := Apply(rules, sys, step);
    match step
    case Construct(id) => IdleInforms(sys, id, NewSession(sys.roomId, id), sys');
    case Join(id, priv, registers, env) =>
      if registers {
        JoinInforms(rules, sys, id, priv, env);
      } else {
        IdleInforms(sys, id, sys.sessions[id].(status := Failed, keypair := Some(priv)), sys');
      }
    case DeliverKeySet(_, _, _) => DeliveryInforms(rules, sys, step);
    case DeliverSealed(_, _, _) => DeliveryInforms(rules, sys, step);
    case Leave(id) => IdleInforms(sys, id, Clear(sys.sessions[id]), sys');
    case Drop(id) => BumpInforms(rules, sys, Remove(sys.room, id));
    case Rotate => BumpInforms(rules, sys, Bump(sys.room));
    case Restart => assert AllInformed(sys') by { NobodyIsInformed(sys'); }
  }

  lemma BumpInforms(rules: Rules, sys: System, room: Room)
    requires MembersInv(rules, sys) && room.epoch == sys.room.epoch + 1 && room.sent == sys.room.sent
    requires room.peers.keys.Keys <= sys.room.peers.keys.Keys
    requires forall p :: p in room.peers.keys ==> room.peers.keys[p] == sys.room.peers.keys[p]
    ensures AllInformed(WithRoom(sys, room))
  {
    hide LeaderOf, AllInformed, Secrets, AllSound, OneLeader, OneSender;
    RoomInforms(rules, sys, room, WithRoom(sys, room));
  }

  lemma NobodyIsInformed(sys: System)
    requires sys.room.peers == EMPTY_KEYS && sys.room.sent == []
    ensures AllInformed(sys)
  {}

  lemma {:induction false} RunInforms(rules: Rules, sys: System, steps: seq<Step>)
    requires Prompt(rules) && MembersInv(rules, sys) && Legal(rules, sys, steps)
    ensures MembersInv(rules, After(rules, sys, steps))
    decreases |steps|
  {
    hide MembersInv, Possible, Apply;
    if steps != [] {
      StepInforms(rules, sys, steps[0]);
      RunInforms(rules, Apply(rules, sys, steps[0]), steps[1..]);
    }
  }

  /** Every reachable state, in either kind of room, across dropped records. */
  lemma ReachableInformed(rules: Rules, sys: System, eager: bool)
    requires Prompt(rules) && Reachable(rules, sys, eager)
    ensures MembersInv(rules, sys)
  {
    hide Legal, After, LeaderOf;
    var steps :| Legal(rules, Initial(sys.roomId, eager), steps) && After(rules, Initial(sys.roomId, eager), steps) == sys
                 && (rules.relabels ==> BAR !in sys.roomId);
    RunInforms(rules, Initial(sys.roomId, eager), steps);
  }

  /**
   Whatever publishes were refused, in either kind of room and across dropped records: all
   blobs of an epoch of the present record seal one key and go to different peers, and a member
   that leads the room at its epoch and holds the key has sealed it to every other member.
   */
  lemma RetriesAreStableWhenPrompt(rules: Rules, sys: System, eager: bool)
    requires Prompt(rules) && Reachable(rules, sys, eager)
    ensures forall i, j :: 0 <= i < j < |sys.room.sent| && sys.room.sent[i].epoch == sys.room.sent[j].epoch ==>
              && sys.room.sent[i].blob.plain == sys.room.sent[j].blob.plain
              && sys.room.sent[i].to != sys.room.sent[j].to
    ensures forall x, p :: x in sys.sessions && Member(sys, x) && p in sys.room.peers.keys && p != x ==>
              var s := sys.sessions[x];
              s.epoch == sys.room.epoch && s.roomKey.Some? && LeaderOf(sys.room.peers.ids) == Some(x) ==>
                exists env :: env in sys.room.sent && env.to == p && env.epoch == s.epoch && env.from == x
                              && env.blob.plain == s.roomKey.value
  {
    hide LeaderOf, Loyal, WellSealed, Stored, KnowsSenders, OwnKey, SealedByMembers, PlainIds, OneLeader, Reachable, Secrets;
    ReachableInformed(rules, sys, eager);
    forall i, j | 0 <= i < j < |sys.room.sent| && sys.room.sent[i].epoch == sys.room.sent[j].epoch
      ensures sys.room.sent[i].blob.plain == sys.room.sent[j].blob.plain && sys.room.sent[i].to != sys.room.sent[j].to
    {
      assert sys.room.sent[i] in sys.room.sent && sys.room.sent[j] in sys.room.sent;
    }
    forall x, p | x in sys.sessions && Member(sys, x) && p in sys.room.peers.keys && p != x
                  && sys.sessions[x].epoch == sys.room.epoch && sys.sessions[x].roomKey.Some?
                  && LeaderOf(sys.room.peers.ids) == Some(x)
      ensures exists env :: env in sys.room.sent && env.to == p && env.epoch == sys.room.epoch && env.from == x
                            && env.blob.plain == sys.sessions[x].roomKey.value
    {
      var s := sys.sessions[x];
      MemberIs(rules, sys, x);
      assert PublishedTo(sys.room, x, p, sys.room.epoch);
      var env :| env in sys.room.sent && env.from == x && env.to == p && env.epoch == sys.room.epoch;
      var backing :| backing in sys.room.sent && backing.epoch == s.epoch && backing.blob.plain == s.roomKey.value;
      BackedAlike(sys.room.sent, env, backing);
    }
  }
}
