/** Safety of the key exchange over whole runs: agreement, monotone epochs, stable retries. */
module SessionTheorems {
  import opened Common
  import opened Text
  import opened Crypto
  import opened Utf16Order
  import opened SessionSpec
  import opened SessionSystem
  import opened SessionInvariant

  lemma StepKeeps(rules: Rules, sys: System, step: Step)
    requires Inv(rules, sys) && Safe(rules) && Possible(rules, sys, step)
    ensures Inv(rules, Apply(rules, sys, step))
  {
    hide LiveOk, MintedOk, SentOk;
    match step
    case Construct(id) =>
      IdleKeeps(rules, sys, id, NewSession(sys.roomId, id));
      assert sys.live - {id} == sys.live;
      BooksAreFree(rules, With(sys, id, NewSession(sys.roomId, id)), sys.suspended - {id}, sys.books);
    case Join(id, priv, registers, env) => JoinKeeps(rules, sys, id, priv, registers, env);
    case DeliverKeySet(id, news, env) =>
      if id in sys.live {
        KeySetKeeps(rules, sys, id, news, env);
      } else {
        IdleListens(rules, sys, id, step);
      }
    case DeliverSealed(id, envelope, env) =>
      if id in sys.live {
        SealedKeeps(rules, sys, id, envelope, env);
      } else {
        IdleListens(rules, sys, id, step);
      }
    case Leave(id) =>
      InvParts(rules, sys, id);
      assert IdleOk(sys, id, Clear(sys.sessions[id])) by { LeaveIsIdle(sys, id); }
      IdleKeeps(rules, sys, id, Clear(sys.sessions[id]));
    case Drop(id) => DropKeeps(rules, sys, id);
    case Rotate => RotateKeeps(rules, sys);
  }

  lemma LeaveIsIdle(sys: System, id: PeerId)
    requires id in sys.sessions
    requires LiveOk(sys, id, sys.sessions[id]) || IdleOk(sys, id, sys.sessions[id])
    ensures IdleOk(sys, id, Clear(sys.sessions[id]))
  {
  }

  lemma {:induction false} RunKeeps(rules: Rules, sys: System, steps: seq<Step>)
    requires Inv(rules, sys) && Safe(rules) && Legal(rules, sys, steps)
    ensures Inv(rules, After(rules, sys, steps))
    decreases |steps|
  {
    hide Inv, Possible, Apply;
    if steps != [] {
      StepKeeps(rules, sys, steps[0]);
      RunKeeps(rules, Apply(rules, sys, steps[0]), steps[1..]);
    }
  }

  lemma InitialInv(rules: Rules, roomId: string)
    requires rules.relabels ==> BAR !in roomId
    ensures Inv(rules, Initial(roomId, true))
  {
  }

  lemma ReachableInv(rules: Rules, sys: System)
    requires Safe(rules) && Reachable(rules, sys, true)
    ensures Inv(rules, sys)
  {
    hide Inv, Legal, After, Initial;
    var steps :| Legal(rules, Initial(sys.roomId, true), steps) && After(rules, Initial(sys.roomId, true), steps) == sys
                 && (rules.relabels ==> BAR !in sys.roomId);
    InitialInv(rules, sys.roomId);
    RunKeeps(rules, Initial(sys.roomId, true), steps);
  }

  // ---------------------------------------------------------------------------
  // Agreement
  // ---------------------------------------------------------------------------

  /** Two sessions at the same epoch never hold different room keys. */
  ghost predicate Agree2(sys: System) {
    forall x, y :: x in sys.sessions && y in sys.sessions ==>
      var s, t := sys.sessions[x], sys.sessions[y];
      s.epoch == t.epoch && s.roomKey.Some? && t.roomKey.Some? ==> s.roomKey == t.roomKey
  }

  /** Every held key was drawn for its holder's epoch by the lowest id of the one key set that epoch had. */
  ghost predicate KeysComeFromLeaders(sys: System) {
    forall x :: x in sys.sessions && sys.sessions[x].roomKey.Some? ==>
      var s := sys.sessions[x];
      var key := s.roomKey.value;
      && key.epoch == s.epoch
      && (exists a :: a in sys.announced && a.epoch == s.epoch)
      && (forall a :: a in sys.announced && a.epoch == s.epoch ==> IsLowest(key.minter, a.keys.ids))
  }

  /** In every reachable state, under any number of sessions and any schedule. */
  lemma Agreement(rules: Rules, sys: System)
    requires Safe(rules) && Reachable(rules, sys, true)
    ensures Agree2(sys) && KeysComeFromLeaders(sys)
    ensures forall k, k' :: k in sys.minted && k' in sys.minted && k.epoch == k'.epoch ==> k == k'
  {
    ReachableInv(rules, sys);
    hide LeaderOf, SentOk, WasSent, DerivePairwise, Reachable;
    forall x | x in sys.sessions && sys.sessions[x].roomKey.Some?
      ensures sys.sessions[x].roomKey.value in sys.minted && sys.sessions[x].roomKey.value.epoch == sys.sessions[x].epoch
    {
      assert if x in sys.live then LiveOk(sys, x, sys.sessions[x]) else IdleOk(sys, x, sys.sessions[x]);
    }
    forall x | x in sys.sessions && sys.sessions[x].roomKey.Some?
      ensures
        var key := sys.sessions[x].roomKey.value;
        forall a :: a in sys.announced && a.epoch == key.epoch ==> IsLowest(key.minter, a.keys.ids)
      ensures exists a :: a in sys.announced && a.epoch == sys.sessions[x].epoch
    {
      var key := sys.sessions[x].roomKey.value;
      assert IsLeaderAt(sys, key.minter, key.epoch);
      forall a | a in sys.announced && a.epoch == key.epoch ensures IsLowest(key.minter, a.keys.ids) {
        LeaderIsLowest(a.keys.ids);
      }
    }
  }

  // ---------------------------------------------------------------------------
  // Epochs
  // ---------------------------------------------------------------------------

  lemma KeySetEpoch(s: Session, room: Room, epoch: nat, keys: KeySet, env: Env)
    requires keys.Valid()
    ensures OnKeySet(s, room, epoch, keys, env).session.epoch == if epoch > s.epoch then epoch else s.epoch
  {
    hide SealFor;
    var t := AdoptKeySet(s, epoch, keys);
    if t.keypair.Some? {
      var m := WithLeaderKey(t, env.draw);
      PublishEpoch(m, room, m.leaderKey.value.key, 0, env.accepts);
    }
  }

  lemma {:induction false} PublishEpoch(s: Session, room: Room, key: GroupKey, i: nat, accepts: set<PeerId>)
    requires s.keypair.Some? && s.keySet.Valid() && i <= |s.keySet.ids|
    ensures PublishFrom(s, room, key, i, accepts).session.epoch == s.epoch
    decreases |s.keySet.ids| - i
  {
    hide SealFor;
    if i < |s.keySet.ids| {
      var peer := s.keySet.ids[i];
      if peer == s.id || peer in s.sealedSent {
        PublishEpoch(s, room, key, i + 1, accepts);
      } else {
        PublishEpoch(s.(sealedSent := s.sealedSent + {peer}), Publish(room, SealFor(s, key, peer)), key, i + 1, accepts);
      }
    }
  }

  lemma PauseEpoch(s: Session, room: Room, epoch: nat, keys: KeySet, env: Env)
    requires keys.Valid() && Published(s, room, epoch, keys, env).Some?
    ensures Published(s, room, epoch, keys, env).value.0.session.epoch == if epoch > s.epoch then epoch else s.epoch
  {
    hide OnKeySet;
    PublishedThenInstalled(s, room, epoch, keys, env);
    KeySetEpoch(s, room, epoch, keys, env);
  }

  lemma SealedEpoch(s: Session, room: Room, envelope: Envelope, env: Env)
    requires room.peers.Valid()
    ensures OnSealedKey(s, room, envelope, false, env).session.epoch >= s.epoch
  {
    hide OnKeySet, OpenGroupKey, DerivePairwise;
    KeySetEpoch(s, room, room.epoch, room.peers, env);
    RefreshKeepsRoom(s, room, env);
  }

  lemma StartEpoch(s: Session, room: Room, priv: nat, registers: bool, env: Env)
    requires room.peers.Valid()
    ensures Start(s, room, priv, registers, env).session.epoch >= s.epoch
  {
    hide OnKeySet;
    RegisterKeepsValid(room, s.id, Pub(priv));
    var joined := Register(room, s.id, Pub(priv));
    KeySetEpoch(AdoptEpoch(s.(status := Registering, keypair := Some(priv)), joined.epoch), joined, joined.epoch, joined.peers, env);
  }

  /** No step of any run, however the environment behaves, takes a session back to an earlier epoch. */
  lemma EpochsNeverGoBack(rules: Rules, sys: System, step: Step, id: PeerId)
    requires Possible(rules, sys, step) && id in sys.sessions && step != Construct(id)
    ensures id in Apply(rules, sys, step).sessions
    ensures Apply(rules, sys, step).sessions[id].epoch >= sys.sessions[id].epoch
  {
    hide OnKeySet, OnSealedKey, Start, Published, Unlocked, Relayed;
    match step
    case DeliverKeySet(x, news, env) => KeySetEpoch(sys.sessions[x], sys.room, news.epoch, news.keys, env);
    case DeliverAndPause(x, news, env) => PauseEpoch(sys.sessions[x], sys.room, news.epoch, news.keys, env);
    case DeliverSealed(x, envelope, env) => SealedEpoch(sys.sessions[x], sys.room, envelope, env);
    case OpenAndPause(x, envelope, env) =>
      UnlockedThenInstalled(sys.sessions[x], sys.room, envelope, env);
      SealedEpoch(sys.sessions[x], sys.room, envelope, env);
    case Join(x, priv, registers, env) => StartEpoch(sys.sessions[x], sys.room, priv, registers, env);
    case _ =>
  }

  lemma {:induction false} EpochsNeverGoBackOverRuns(rules: Rules, sys: System, steps: seq<Step>, id: PeerId)
    requires Legal(rules, sys, steps) && id in sys.sessions && Construct(id) !in steps
    ensures id in After(rules, sys, steps).sessions
    ensures After(rules, sys, steps).sessions[id].epoch >= sys.sessions[id].epoch
    decreases |steps|
  {
    hide Possible, Apply;
    if steps != [] {
      EpochsNeverGoBack(rules, sys, steps[0], id);
      EpochsNeverGoBackOverRuns(rules, Apply(rules, sys, steps[0]), steps[1..], id);
    }
  }

  // ---------------------------------------------------------------------------
  // Retries
  // ---------------------------------------------------------------------------

  lemma OneKeyPerEpochSent(rules: Rules, sys: System, i: nat, j: nat)
    requires Inv(rules, sys) && i < j < |sys.room.sent| && sys.room.sent[i].epoch == sys.room.sent[j].epoch
    ensures sys.room.sent[i].blob.plain == sys.room.sent[j].blob.plain && sys.room.sent[i].to != sys.room.sent[j].to
  {
    hide LiveOk, IdleOk, PlainOk, RoomOk, IsLeaderAt, SealedFor;
    assert EnvelopeOk(sys, sys.room.sent[i]) && EnvelopeOk(sys, sys.room.sent[j]);
  }

  lemma LeaderServed(rules: Rules, sys: System, x: PeerId, p: PeerId) returns (env: Envelope)
    requires Inv(rules, sys) && x in sys.sessions && x in sys.live
    requires IsLeader(sys.sessions[x]) && sys.sessions[x].roomKey.Some? && p in sys.sessions[x].keySet.ids && p != x
    ensures env in sys.room.sent && env.to == p && env.epoch == sys.sessions[x].epoch && env.from == x
    ensures env.blob.plain == sys.sessions[x].roomKey.value
  {
    hide IdleOk, PlainOk, RoomOk, LeaderOf, IsLeaderAt, SealedFor;
    var s := sys.sessions[x];
    assert LiveOk(sys, x, s);
    assert WasSent(sys.room, x, p, s.epoch);
    env :| env in sys.room.sent && env.from == x && env.to == p && env.epoch == s.epoch;
    assert EnvelopeOk(sys, env);
  }

  /**
   Whatever publishes were refused and however often key sets were delivered
   again: all blobs of an epoch seal one key, nobody is published to twice in an
   epoch, and a leader that has installed the key has served every other peer.
   */
  lemma RetriesAreStable(rules: Rules, sys: System)
    requires Safe(rules) && Reachable(rules, sys, true)
    ensures forall i, j :: 0 <= i < j < |sys.room.sent| && sys.room.sent[i].epoch == sys.room.sent[j].epoch ==>
              && sys.room.sent[i].blob.plain == sys.room.sent[j].blob.plain
              && sys.room.sent[i].to != sys.room.sent[j].to
    ensures forall x :: x in sys.sessions && x in sys.live && IsLeader(sys.sessions[x]) && sys.sessions[x].roomKey.Some? ==>
              var s := sys.sessions[x];
              forall p :: p in s.keySet.ids && p != x ==>
                exists env :: env in sys.room.sent && env.to == p && env.epoch == s.epoch && env.from == x
                              && env.blob.plain == s.roomKey.value
  {
    hide Inv, Reachable, IsLeader;
    ReachableInv(rules, sys);
    forall i, j | 0 <= i < j < |sys.room.sent| && sys.room.sent[i].epoch == sys.room.sent[j].epoch
      ensures sys.room.sent[i].blob.plain == sys.room.sent[j].blob.plain && sys.room.sent[i].to != sys.room.sent[j].to
    {
      OneKeyPerEpochSent(rules, sys, i, j);
    }
    forall x, p | x in sys.sessions && x in sys.live && IsLeader(sys.sessions[x]) && sys.sessions[x].roomKey.Some?
                  && p in sys.sessions[x].keySet.ids && p != x
      ensures exists env :: env in sys.room.sent && env.to == p && env.epoch == sys.sessions[x].epoch && env.from == x
                            && env.blob.plain == sys.sessions[x].roomKey.value
    {
      var env := LeaderServed(rules, sys, x, p);
    }
  }
}
