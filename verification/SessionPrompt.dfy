/**
 Agreement where deliveries are prompt: key sets reach a session while they are the
 room's, and blobs while they are labelled with the room's epoch. Then it does not
 matter whether the server bumps the epoch on every join or only once a blob is
 stored: as soon as one is, the members are fixed until the next bump, so an epoch
 has one sender. Nor does it matter that the server drops the record of an emptied
 room, as far as the sessions that registered under the present one are concerned,
 as long as every start draws a new private key.
 */
module SessionPrompt {
  import opened Common
  import opened Text
  import opened Crypto
  import opened Utf16Order
  import opened SessionSpec
  import opened SessionSystem
  import opened SessionPublishing

  /** Whoever published in the room's epoch leads the members the room has. */
  ghost predicate OneLeader(room: Room) {
    forall env :: env in room.sent && env.epoch == room.epoch ==> LeaderOf(room.peers.ids) == Some(env.from)
  }

  ghost predicate OneSender(sent: seq<Envelope>) {
    forall x, y :: x in sent && y in sent && x.epoch == y.epoch ==> x.from == y.from
  }

  /** The session registered under the present record and has not been cleared since. */
  predicate Insider(sys: System, id: PeerId) {
    id in sys.live && id in sys.books.admitted
  }

  ghost predicate SessionSound(sys: System, id: PeerId, s: Session) {
    && s.id == id && s.roomId == sys.roomId
    && (id in sys.live ==> s.keypair.Some? && s.keypair.value in sys.books.drawn)
    && (id !in sys.live ==> AtRest(s) && s.roomKey.None?)
    && (Insider(sys, id) ==> Loyal(sys.room, s) && Backed(sys.room, s))
  }

  predicate Within(blob: Blob, drawn: set<nat>) {
    blob.key.secret.low in drawn && blob.key.secret.high in drawn
  }

  predicate Foreign(s: Session, env: Envelope) {
    s.keypair.Some? ==> !Uses(env.blob, s.keypair.value)
  }

  /** Every private key in use was drawn; a blob of an earlier record is sealed under none that an insider has. */
  ghost predicate Secrets(rules: Rules, sys: System) {
    && (forall env :: env in AllSent(sys) ==> Within(env.blob, sys.books.drawn))
    && (forall p :: p in sys.room.peers.keys ==> sys.room.peers.keys[p].priv in sys.books.drawn)
    && (rules.keeps ==> sys.earlier == [])
    && (rules.anew ==>
          forall env, x :: env in sys.earlier && x in sys.sessions && Insider(sys, x) ==> Foreign(sys.sessions[x], env))
  }

  ghost predicate RecordOk(roomId: string, room: Room) {
    Fine(roomId, room) && OneLeader(room) && OneSender(room.sent)
  }

  ghost predicate AllSound(sys: System) {
    && sys.live <= sys.sessions.Keys
    && (forall m :: m in sys.live && m in sys.room.peers.keys ==> m in sys.books.admitted)
    && forall id :: id in sys.sessions ==> SessionSound(sys, id, sys.sessions[id])
  }

  ghost predicate PromptInv(rules: Rules, sys: System) {
    RecordOk(sys.roomId, sys.room) && AllSound(sys) && Secrets(rules, sys)
  }

  predicate Prompt(rules: Rules) {
    rules.prompt && rules.atomic && (rules.keeps || rules.anew)
  }

  // ---------------------------------------------------------------------------
  // Publishing under drawn keys
  // ---------------------------------------------------------------------------

  ghost predicate KeysWithin(keys: KeySet, drawn: set<nat>) {
    forall p :: p in keys.keys ==> keys.keys[p].priv in drawn
  }

  lemma SealWithin(s: Session, key: GroupKey, peer: PeerId, drawn: set<nat>)
    requires s.keypair.Some? && s.keypair.value in drawn && peer in s.keySet.keys && KeysWithin(s.keySet, drawn)
    ensures Within(SealFor(s, key, peer).blob, drawn)
  {
    hide SealAad;
  }

  lemma {:induction false} LoopWithin(s: Session, room: Room, key: GroupKey, i: nat, accepts: set<PeerId>, drawn: set<nat>)
    requires s.keypair.Some? && s.keySet.Valid() && i <= |s.keySet.ids|
    requires s.keypair.value in drawn && KeysWithin(s.keySet, drawn)
    ensures forall env :: env in PublishFrom(s, room, key, i, accepts).room.sent ==> env in room.sent || Within(env.blob, drawn)
    decreases |s.keySet.ids| - i
  {
    hide SealFor, Within, KeysWithin;
    if i < |s.keySet.ids| {
      var peer := s.keySet.ids[i];
      if peer == s.id || peer in s.sealedSent {
        LoopWithin(s, room, key, i + 1, accepts, drawn);
      } else {
        var env := SealFor(s, key, peer);
        if Accepted(room, env, peer in accepts) {
          SealWithin(s, key, peer, drawn);
          InGrown(room.sent, env);
          LoopWithin(s.(sealedSent := s.sealedSent + {peer}), Publish(room, env), key, i + 1, accepts, drawn);
        }
      }
    }
  }

  lemma KeySetWithin(s: Session, room: Room, env: Env, drawn: set<nat>)
    requires room.peers.Valid() && KeysWithin(room.peers, drawn) && (s.keypair.Some? ==> s.keypair.value in drawn)
    ensures forall e :: e in OnKeySet(s, room, room.epoch, room.peers, env).room.sent ==> e in room.sent || Within(e.blob, drawn)
  {
    hide LeaderOf, PublishFrom, Within, KeysWithin;
    var m := WithLeaderKey(AdoptKeySet(s, room.epoch, room.peers), env.draw);
    if s.keypair.Some? {
      LoopWithin(m, room, m.leaderKey.value.key, 0, env.accepts, drawn);
    }
  }

  // ---------------------------------------------------------------------------
  // What a handler keeps
  // ---------------------------------------------------------------------------

  lemma BackedLater(room: Room, room': Room, s: Session)
    requires Backed(room, s) && room.sent <= room'.sent
    ensures Backed(room', s)
  {
    if s.roomKey.Some? {
      var env :| env in room.sent && env.epoch == s.epoch && env.blob.plain == s.roomKey.value;
      assert env in room'.sent;
    }
  }

  /** A leader that publishes in the room's epoch is the only one that has. */
  lemma LeaderStaysOne(room: Room, room': Room, id: PeerId)
    requires OneLeader(room) && OneSender(room.sent) && GrewBy(room, room', id)
    requires room' != room ==> LeaderOf(room.peers.ids) == Some(id)
    ensures OneLeader(room') && OneSender(room'.sent)
  {
    hide LeaderOf;
  }

  /** What a handler of `id` leaves: blobs from the leader only, under drawn keys, and an insider that is loyal. */
  ghost predicate Leaves(sys: System, id: PeerId, s: Session, room: Room)
    requires id in sys.sessions
  {
    && Fine(sys.roomId, room) && GrewBy(sys.room, room, id)
    && (room != sys.room ==> LeaderOf(sys.room.peers.ids) == Some(id))
    && s.id == id && s.roomId == sys.roomId && s.keypair == sys.sessions[id].keypair
    && (Insider(sys, id) ==> Loyal(room, s) && Backed(room, s))
    && (forall env :: env in room.sent ==> env in sys.room.sent || Within(env.blob, sys.books.drawn))
  }

  lemma HandlerIsPrompt(rules: Rules, sys: System, id: PeerId, s: Session, room: Room)
    requires PromptInv(rules, sys) && id in sys.live && Leaves(sys, id, s, room)
    ensures PromptInv(rules, Put(sys, id, s, room))
  {
    hide Fine, Loyal, Backed, LeaderOf, OneLeader, OneSender, Within, Foreign;
    var sys' := Put(sys, id, s, room);
    LeaderStaysOne(sys.room, room, id);
    forall x | x in sys'.sessions ensures SessionSound(sys', x, sys'.sessions[x]) {
      assert SessionSound(sys, x, sys.sessions[x]);
      if x != id && Insider(sys, x) {
        LoyalCarries(sys.room, room, sys.sessions[x], id);
        BackedLater(sys.room, room, sys.sessions[x]);
      }
    }
    assert Secrets(rules, sys') by { SecretsGrow(rules, sys, sys'); }
  }

  lemma SecretsGrow(rules: Rules, sys: System, sys': System)
    requires Secrets(rules, sys) && sys'.earlier == sys.earlier && sys'.books == sys.books && sys'.room.peers == sys.room.peers
    requires sys'.live == sys.live && sys'.sessions.Keys == sys.sessions.Keys
    requires forall x :: x in sys.sessions ==> sys'.sessions[x].keypair == sys.sessions[x].keypair
    requires forall env :: env in sys'.room.sent ==> env in sys.room.sent || Within(env.blob, sys.books.drawn)
    ensures Secrets(rules, sys')
  {
    hide Within;
  }

  /** A session that is not live, and has no key, takes the place of another. */
  lemma IdleIsPrompt(rules: Rules, sys: System, id: PeerId, s: Session, sys': System)
    requires PromptInv(rules, sys) && AtRest(s) && s.roomKey.None? && s.id == id && s.roomId == sys.roomId
    requires sys'.roomId == sys.roomId && sys'.room == sys.room && sys'.earlier == sys.earlier
    requires sys'.sessions == sys.sessions[id := s] && sys'.live == sys.live - {id}
    requires sys'.books.admitted == sys.books.admitted && sys.books.drawn <= sys'.books.drawn
    ensures PromptInv(rules, sys')
  {
    hide RecordOk, Loyal, Backed;
    forall x | x in sys'.sessions ensures SessionSound(sys', x, sys'.sessions[x]) {
      if x != id {
        assert SessionSound(sys, x, sys.sessions[x]);
      }
    }
  }

  lemma SoundSession(sys: System, id: PeerId)
    requires AllSound(sys) && id in sys.sessions
    ensures SessionSound(sys, id, sys.sessions[id])
  {}

  /** What an insider can open was published in the epoch it is labelled with, under the present record. */
  lemma RelayedIsTruthful(rules: Rules, sys: System, id: PeerId, env: Envelope)
    requires Prompt(rules) && PromptInv(rules, sys) && Relayed(rules, sys, env) && Insider(sys, id)
    ensures Opens(sys.sessions[id], env) ==>
              exists sent :: sent in sys.room.sent && sent.blob == env.blob && sent.epoch == env.epoch
                             && (!rules.relabels ==> sent == env)
    ensures Truthful(sys.room, sys.sessions[id], env)
  {
    hide SealAad, Loyal, Backed, OneLeader, OneSender, Within;
    SoundSession(sys, id);
    if Opens(sys.sessions[id], env) {
      var sent :| sent in AllSent(sys) && sent.blob == env.blob && (!rules.relabels ==> sent == env);
      assert sent in sys.earlier || sent in sys.room.sent;
      assert Foreign(sys.sessions[id], sent) ==> sent !in sys.earlier;
      SealAadNamesEpoch(sys.roomId, sent.epoch, sent.from, sent.to, env.epoch, env.from, id);
    }
  }

  // ---------------------------------------------------------------------------
  // Steps
  // ---------------------------------------------------------------------------

  lemma OutsiderDoesNotLead(rules: Rules, sys: System, id: PeerId)
    requires PromptInv(rules, sys) && id in sys.live && !Insider(sys, id)
    ensures LeaderOf(sys.room.peers.ids) != Some(id)
  {
    LeaderIsLowest(sys.room.peers.ids);
  }

  lemma DeliveryIsPrompt(rules: Rules, sys: System, step: Step)
    requires Prompt(rules) && PromptInv(rules, sys) && Possible(rules, sys, step) && (step.DeliverKeySet? || step.DeliverSealed?)
    ensures PromptInv(rules, Apply(rules, sys, step))
  {
    hide LeaderOf, OneLeader, OneSender, Backed, Relayed, OnKeySet, OnSealedKey, RefreshKeySet, Fine, Loyal, Within, Secrets;
    var id := step.id;
    var s := sys.sessions[id];
    SoundSession(sys, id);
    NothingGrew(sys.room, id);
    if id in sys.live {
      match step {
        case DeliverKeySet(_, news, env) => HearingLeaves(rules, sys, id, env);
        case DeliverSealed(_, envelope, env) => ReceivingLeaves(rules, sys, id, envelope, env);
      }
      match step
      case DeliverKeySet(_, news, env) =>
        var o := OnKeySet(s, sys.room, news.epoch, news.keys, env);
        HandlerIsPrompt(rules, sys, id, o.session, o.room);
      case DeliverSealed(_, envelope, env) =>
        var o := OnSealedKey(s, sys.room, envelope, false, env);
        HandlerIsPrompt(rules, sys, id, o.session, o.room);
    } else {
      match step
      case DeliverKeySet(_, news, env) =>
        RestHears(s, sys.room, news.epoch, news.keys, env);
        var o := OnKeySet(s, sys.room, news.epoch, news.keys, env);
        IdleIsPrompt(rules, sys, id, o.session, Apply(rules, sys, step));
      case DeliverSealed(_, envelope, env) =>
        RestReceives(s, sys.room, envelope, env);
        var o := OnSealedKey(s, sys.room, envelope, false, env);
        IdleIsPrompt(rules, sys, id, o.session, Apply(rules, sys, step));
    }
  }

  /** The room's own key set, heard by a live session. */
  lemma HearingLeaves(rules: Rules, sys: System, id: PeerId, env: Env)
    requires PromptInv(rules, sys) && id in sys.live && sys.room.peers.Valid()
    ensures
      var o := OnKeySet(sys.sessions[id], sys.room, sys.room.epoch, sys.room.peers, env);
      Leaves(sys, id, o.session, o.room)
  {
    hide LeaderOf, OneLeader, OneSender, Backed, OnKeySet, Fine, Loyal, Within;
    var s := sys.sessions[id];
    SoundSession(sys, id);
    NothingGrew(sys.room, id);
    KeySetTouches(s, sys.room, sys.room.epoch, sys.room.peers, env);
    KeySetWithin(s, sys.room, env, sys.books.drawn);
    if Insider(sys, id) {
      KeySetIsLoyal(s, sys.room, sys.room.epoch, sys.room.peers, env);
    } else {
      OutsiderDoesNotLead(rules, sys, id);
    }
  }

  lemma ReceivingLeaves(rules: Rules, sys: System, id: PeerId, envelope: Envelope, env: Env)
    requires Prompt(rules) && PromptInv(rules, sys) && id in sys.live && sys.room.peers.Valid()
    requires Relayed(rules, sys, envelope) && envelope.epoch == sys.room.epoch
    ensures
      var o := OnSealedKey(sys.sessions[id], sys.room, envelope, false, env);
      Leaves(sys, id, o.session, o.room)
  {
    hide LeaderOf, OneLeader, OneSender, Backed, OnSealedKey, OnKeySet, Fine, Loyal, Within, Relayed, Truthful;
    var s := sys.sessions[id];
    SoundSession(sys, id);
    NothingGrew(sys.room, id);
    SealedTouches(s, sys.room, envelope, env);
    KeySetWithin(s, sys.room, env, sys.books.drawn);
    if Insider(sys, id) {
      RelayedIsTruthful(rules, sys, id, envelope);
      SealedIsLoyal(s, sys.room, envelope, env);
      SealedIsBacked(s, sys.room, envelope, env);
    } else {
      OutsiderDoesNotLead(rules, sys, id);
    }
  }

  /** The room moves on, or changes its members while nothing is published for its epoch. */
  lemma RoomIsPrompt(rules: Rules, sys: System, room: Room, sys': System)
    requires PromptInv(rules, sys) && sys' == WithRoom(sys, room) && Stored(room)
    requires room.sent == sys.room.sent && room.epoch >= sys.room.epoch && forall env :: env in room.sent ==> env.epoch < room.epoch
    requires room.peers.keys.Keys <= sys.room.peers.keys.Keys && KeysWithin(room.peers, sys.books.drawn)
    ensures PromptInv(rules, sys')
  {
    hide LeaderOf, OneSender, Loyal, Backed, Within;
    forall x | x in sys'.sessions ensures SessionSound(sys', x, sys'.sessions[x]) {
      assert SessionSound(sys, x, sys.sessions[x]);
      if Insider(sys, x) {
        LoyalLater(sys.room, room, sys.sessions[x]);
        BackedLater(sys.room, room, sys.sessions[x]);
      }
    }
  }

  /** The newcomer as it is when the server has registered it. */
  function Entered(sys: System, id: PeerId, priv: nat): Session
    requires id in sys.sessions
  {
    AdoptEpoch(sys.sessions[id].(status := Registering, keypair := Some(priv)), Register(sys.room, id, Pub(priv)).epoch)
  }

  function Entering(sys: System, id: PeerId, priv: nat): System
    requires id in sys.sessions
  {
    With(WithRoom(sys, Register(sys.room, id, Pub(priv))), id, Entered(sys, id, priv))
      .(live := sys.live + {id}, books := Enrol(sys.books, id, priv, true))
  }

  lemma EntrySecrets(rules: Rules, sys: System, id: PeerId, priv: nat)
    requires Secrets(rules, sys) && id in sys.sessions && id !in sys.live && id !in sys.room.peers.keys
    requires rules.anew ==> priv !in sys.books.drawn
    ensures Secrets(rules, Entering(sys, id, priv))
  {
    hide AdoptEpoch;
    AdoptKeepsNames(sys.sessions[id], priv, Register(sys.room, id, Pub(priv)).epoch);
  }

  lemma EntrySound(sys: System, id: PeerId, priv: nat)
    requires AllSound(sys) && Stored(sys.room) && id in sys.sessions && id !in sys.live && id !in sys.room.peers.keys
    ensures AllSound(Entering(sys, id, priv))
  {
    hide Loyal, Backed, LeaderOf, Register, Stored, AdoptEpoch;
    SoundSession(sys, id);
    RegisterIsStored(sys.room, id, Pub(priv));
    RegisterAddsOne(sys.room, id, priv);
    var joined := Register(sys.room, id, Pub(priv));
    var mid := Entering(sys, id, priv);
    NewcomerIsLoyal(sys.sessions[id], joined, priv);
    forall x | x in mid.sessions ensures SessionSound(mid, x, mid.sessions[x]) {
      if x != id {
        assert SessionSound(sys, x, sys.sessions[x]);
        if Insider(sys, x) {
          LoyalLater(sys.room, joined, sys.sessions[x]);
          BackedLater(sys.room, joined, sys.sessions[x]);
        }
      }
    }
  }

  lemma RegisterAddsOne(room: Room, id: PeerId, priv: nat)
    requires id !in room.peers.keys
    ensures Register(room, id, Pub(priv)).peers.keys == room.peers.keys[id := Pub(priv)]
  {}

  /** It finds nothing published in the epoch it joins. */
  lemma NewcomerIsLoyal(s: Session, joined: Room, priv: nat)
    requires AtRest(s) && s.roomKey.None? && forall env :: env in joined.sent ==> env.epoch < joined.epoch
    ensures
      var t := AdoptEpoch(s.(status := Registering, keypair := Some(priv)), joined.epoch);
      t.id == s.id && t.roomId == s.roomId && t.keypair == Some(priv) && Loyal(joined, t) && Backed(joined, t)
  {
    FreshIsLoyal(joined, AdoptEpoch(s.(status := Registering, keypair := Some(priv)), joined.epoch));
  }

  lemma EnterIsPrompt(rules: Rules, sys: System, id: PeerId, priv: nat)
    requires PromptInv(rules, sys) && id in sys.sessions && id !in sys.live && id !in sys.room.peers.keys
    requires rules.anew ==> priv !in sys.books.drawn
    ensures Register(sys.room, id, Pub(priv)).peers.Valid() && PromptInv(rules, Entering(sys, id, priv))
  {
    hide AllSound, Secrets, LeaderOf, Entered, Register, OneSender;
    RegisterIsStored(sys.room, id, Pub(priv));
    RegisterKeepsValid(sys.room, id, Pub(priv));
    EntrySecrets(rules, sys, id, priv);
    EntrySound(sys, id, priv);
  }

  lemma JoinIsPrompt(rules: Rules, sys: System, id: PeerId, priv: nat, env: Env)
    requires Prompt(rules) && PromptInv(rules, sys) && Possible(rules, sys, Join(id, priv, true, env))
    ensures PromptInv(rules, Apply(rules, sys, Join(id, priv, true, env)))
  {
    hide PromptInv, RefreshKeySet, Register, Start, AdoptEpoch, WithLeaderKey;
    assert sys.sessions[id].id == id by { SoundParts(rules, sys, id); }
    EnterIsPrompt(rules, sys, id, priv);
    var joined := Register(sys.room, id, Pub(priv));
    var t := Entered(sys, id, priv);
    var mid := Entering(sys, id, priv);
    var r := RefreshKeySet(t, joined, env);
    var last := if r.threw then r.session.(status := Failed) else r.session;
    RefreshLeaves(rules, mid, id, env);
    LeavesWithStatus(mid, id, r.session, r.room, Failed);
    HandlerIsPrompt(rules, mid, id, last, r.room);
    assert Start(sys.sessions[id], sys.room, priv, true, env) == r.(session := last) by { StartIs(sys, id, priv, env); }
    RefreshKeepsRoom(t, joined, env);
    PutAgain(sys, id, joined, t, last, r.room, Enrol(sys.books, id, priv, true));
  }

  lemma SoundParts(rules: Rules, sys: System, id: PeerId)
    requires PromptInv(rules, sys) && id in sys.sessions
    ensures SessionSound(sys, id, sys.sessions[id]) && Fine(sys.roomId, sys.room) && sys.live <= sys.sessions.Keys
  {
    SoundSession(sys, id);
  }

  lemma RefreshLeaves(rules: Rules, sys: System, id: PeerId, env: Env)
    requires PromptInv(rules, sys) && id in sys.live && sys.room.peers.Valid()
    ensures
      var o := RefreshKeySet(sys.sessions[id], sys.room, env);
      Leaves(sys, id, o.session, o.room)
  {
    hide LeaderOf, OneLeader, OneSender, Backed, OnKeySet, Fine, Loyal, Within, Secrets;
    SoundSession(sys, id);
    NothingGrew(sys.room, id);
    HearingLeaves(rules, sys, id, env);
  }

  lemma LeavesWithStatus(sys: System, id: PeerId, s: Session, room: Room, status: Status)
    requires id in sys.sessions && Leaves(sys, id, s, room)
    ensures Leaves(sys, id, s.(status := status), room)
  {
    hide Fine, GrewBy, Within, LeaderOf;
  }

  lemma RestartIsPrompt(rules: Rules, sys: System)
    requires PromptInv(rules, sys) && !rules.keeps
    ensures PromptInv(rules, Apply(rules, sys.(room := sys.room.(peers := EMPTY_KEYS)), Restart))
  {
    hide Loyal, Backed, LeaderOf;
    var sys' := Apply(rules, sys.(room := sys.room.(peers := EMPTY_KEYS)), Restart);
    forall x | x in sys'.sessions ensures SessionSound(sys', x, sys'.sessions[x]) {
      assert SessionSound(sys, x, sys.sessions[x]);
    }
  }

  lemma StepIsPrompt(rules: Rules, sys: System, step: Step)
    requires Prompt(rules) && PromptInv(rules, sys) && Possible(rules, sys, step)
    ensures PromptInv(rules, Apply(rules, sys, step))
  {
    hide PromptInv, LeaderOf, Relayed, OnKeySet, OnSealedKey, Register, RefreshKeySet, Fine, Loyal;
    var sys' := Apply(rules, sys, step);
    match step
    case Construct(id) => IdleIsPrompt(rules, sys, id, NewSession(sys.roomId, id), sys');
    case Join(id, priv, registers, env) =>
      if registers {
        JoinIsPrompt(rules, sys, id, priv, env);
      } else {
        SoundParts(rules, sys, id);
        IdleIsPrompt(rules, sys, id, sys.sessions[id].(status := Failed, keypair := Some(priv)), sys');
      }
    case DeliverKeySet(_, _, _) => DeliveryIsPrompt(rules, sys, step);
    case DeliverSealed(_, _, _) => DeliveryIsPrompt(rules, sys, step);
    case Leave(id) =>
      SoundParts(rules, sys, id);
      IdleIsPrompt(rules, sys, id, Clear(sys.sessions[id]), sys');
    case Drop(id) =>
      WithoutIs(sys.room.peers.ids, id);
      BumpIsPrompt(rules, sys, Remove(sys.room, id));
    case Rotate => BumpIsPrompt(rules, sys, Bump(sys.room));
    case Restart =>
      assert sys.room.peers.ids == [] && sys.room.peers == EMPTY_KEYS by { NobodyLeft(sys.room.peers); }
      assert sys.(room := sys.room.(peers := EMPTY_KEYS)) == sys;
      RestartIsPrompt(rules, sys);
  }

  lemma NobodyLeft(keys: KeySet)
    requires keys.Valid() && keys.ids == []
    ensures keys == EMPTY_KEYS
  {
    assert keys.keys == map[];
  }

  lemma BumpIsPrompt(rules: Rules, sys: System, room: Room)
    requires PromptInv(rules, sys) && room.peers.Valid() && room.epoch == sys.room.epoch + 1 && room.sent == sys.room.sent
    requires room.sealed == map[] && room.peers.keys.Keys <= sys.room.peers.keys.Keys
    requires forall p :: p in room.peers.keys ==> room.peers.keys[p] == sys.room.peers.keys[p]
    ensures PromptInv(rules, WithRoom(sys, room))
  {
    hide LeaderOf, OneSender, Loyal, Backed, Within, AllSound;
    RoomIsPrompt(rules, sys, room, WithRoom(sys, room));
  }

  lemma {:induction false} RunIsPrompt(rules: Rules, sys: System, steps: seq<Step>)
    requires Prompt(rules) && PromptInv(rules, sys) && Legal(rules, sys, steps)
    ensures PromptInv(rules, After(rules, sys, steps))
    decreases |steps|
  {
    hide PromptInv, Possible, Apply;
    if steps != [] {
      StepIsPrompt(rules, sys, steps[0]);
      RunIsPrompt(rules, Apply(rules, sys, steps[0]), steps[1..]);
    }
  }

  lemma ReachableIsPrompt(rules: Rules, sys: System, eager: bool)
    requires Prompt(rules) && Reachable(rules, sys, eager)
    ensures PromptInv(rules, sys)
  {
    hide Legal, After, LeaderOf;
    var steps :| Legal(rules, Initial(sys.roomId, eager), steps) && After(rules, Initial(sys.roomId, eager), steps) == sys
                 && (rules.relabels ==> BAR !in sys.roomId);
    RunIsPrompt(rules, Initial(sys.roomId, eager), steps);
  }

  // ---------------------------------------------------------------------------
  // Agreement
  // ---------------------------------------------------------------------------

  lemma BackedAlike(sent: seq<Envelope>, x: Envelope, y: Envelope)
    requires OneKeyPerSender(sent) && OneSender(sent) && x in sent && y in sent && x.epoch == y.epoch
    ensures x.blob.plain == y.blob.plain
  {
    var i :| 0 <= i < |sent| && sent[i] == x;
    var j :| 0 <= j < |sent| && sent[j] == y;
    assert x.from == y.from;
  }

  /** Two sessions that registered under the present record and are at one epoch never hold different room keys. */
  ghost predicate InsidersAgree(sys: System) {
    forall x, y :: x in sys.sessions && y in sys.sessions && Insider(sys, x) && Insider(sys, y) ==>
      var s, t := sys.sessions[x], sys.sessions[y];
      s.epoch == t.epoch && s.roomKey.Some? && t.roomKey.Some? ==> s.roomKey == t.roomKey
  }

  /**
   In every reachable state under prompt delivery, whichever of the two rules the server bumps
   epochs by, and though it drops the record of every emptied room: the sessions that registered
   under the present record agree, every key one of them holds was drawn for the epoch it is held
   in, and one sender published all blobs of an epoch, all with one key and for different peers.
   */
  lemma PromptAgreement(rules: Rules, sys: System, eager: bool)
    requires Prompt(rules) && Reachable(rules, sys, eager)
    ensures InsidersAgree(sys) && OneSender(sys.room.sent) && OneKeyPerSender(sys.room.sent)
    ensures forall id :: id in sys.sessions && Insider(sys, id) && sys.sessions[id].roomKey.Some? ==>
              sys.sessions[id].roomKey.value.epoch == sys.sessions[id].epoch
    ensures forall m :: m in sys.live && m in sys.room.peers.keys ==> Insider(sys, m)
  {
    hide LeaderOf, Loyal, OneLeader, Secrets, Stored, Reachable;
    ReachableIsPrompt(rules, sys, eager);
    forall x, y | x in sys.sessions && y in sys.sessions && Insider(sys, x) && Insider(sys, y)
                  && sys.sessions[x].epoch == sys.sessions[y].epoch
                  && sys.sessions[x].roomKey.Some? && sys.sessions[y].roomKey.Some?
      ensures sys.sessions[x].roomKey == sys.sessions[y].roomKey
    {
      HeldAlike(rules, sys, x, y);
    }
    forall id | id in sys.sessions && Insider(sys, id) && sys.sessions[id].roomKey.Some?
      ensures sys.sessions[id].roomKey.value.epoch == sys.sessions[id].epoch
    {
      SoundSession(sys, id);
    }
  }

  lemma HeldAlike(rules: Rules, sys: System, x: PeerId, y: PeerId)
    requires PromptInv(rules, sys) && Insider(sys, x) && Insider(sys, y) && sys.sessions[x].epoch == sys.sessions[y].epoch
    requires sys.sessions[x].roomKey.Some? && sys.sessions[y].roomKey.Some?
    ensures sys.sessions[x].roomKey == sys.sessions[y].roomKey
  {
    hide LeaderOf, OneSender, OneLeader, Loyal, Secrets, OneKeyPerSender;
    SoundSession(sys, x);
    SoundSession(sys, y);
    var e :| e in sys.room.sent && e.epoch == sys.sessions[x].epoch && e.blob.plain == sys.sessions[x].roomKey.value;
    var g :| g in sys.room.sent && g.epoch == sys.sessions[y].epoch && g.blob.plain == sys.sessions[y].roomKey.value;
    BackedAlike(sys.room.sent, e, g);
  }

  /** Where the record is kept, every session with a key is such a session. */
  ghost predicate AllAdmitted(sys: System) {
    sys.live <= sys.books.admitted
  }

  lemma {:induction false} KeptIsAdmitted(rules: Rules, sys: System, steps: seq<Step>)
    requires rules.keeps && AllAdmitted(sys) && Legal(rules, sys, steps)
    ensures AllAdmitted(After(rules, sys, steps))
    decreases |steps|
  {
    hide OnKeySet, OnSealedKey, Start, Published, Unlocked, Relayed;
    if steps != [] {
      KeptIsAdmitted(rules, Apply(rules, sys, steps[0]), steps[1..]);
    }
  }

  /** With a kept record, all sessions agree. */
  lemma KeptAgreement(rules: Rules, sys: System, eager: bool)
    requires Prompt(rules) && rules.keeps && Reachable(rules, sys, eager)
    ensures forall x, y :: x in sys.sessions && y in sys.sessions ==>
              var s, t := sys.sessions[x], sys.sessions[y];
              s.epoch == t.epoch && s.roomKey.Some? && t.roomKey.Some? ==> s.roomKey == t.roomKey
  {
    hide LeaderOf, Loyal, Secrets, RecordOk, Backed;
    assert Initial(sys.roomId, eager).live == {};
    ReachableIsPrompt(rules, sys, eager);
    var steps :| Legal(rules, Initial(sys.roomId, eager), steps) && After(rules, Initial(sys.roomId, eager), steps) == sys
                 && (rules.relabels ==> BAR !in sys.roomId);
    KeptIsAdmitted(rules, Initial(sys.roomId, eager), steps);
    forall x, y | x in sys.sessions && y in sys.sessions
                  && sys.sessions[x].epoch == sys.sessions[y].epoch
                  && sys.sessions[x].roomKey.Some? && sys.sessions[y].roomKey.Some?
      ensures sys.sessions[x].roomKey == sys.sessions[y].roomKey
    {
      SoundSession(sys, x);
      SoundSession(sys, y);
      HeldAlike(rules, sys, x, y);
    }
  }
}
