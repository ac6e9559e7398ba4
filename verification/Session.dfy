/**
 The key-exchange driver for one peer, step by step as the program runs it.
 Every method is proved to compute the handler of the same name in
 `SessionSpec`, on its own state and the room's.
 */
module Session {
  import opened Common
  import opened Crypto
  import opened KeyEpochs
  import opened Utf16Order
  import Spec = SessionSpec

  /** The server's end of the channel. What it refuses beyond its own rules is up to the caller's environment. */
  class RoomChannel {
    var state: Spec.Room

    constructor (eager: bool)
      ensures state == Spec.Room(eager, 0, Spec.EMPTY_KEYS, map[], [])
    {
      state := Spec.Room(eager, 0, Spec.EMPTY_KEYS, map[], []);
    }

    method RegisterKey(id: PeerId, key: PublicKey) returns (epoch: nat)
      modifies this
      ensures state == Spec.Register(old(state), id, key) && epoch == state.epoch
    {
      if !(id in state.peers.keys && state.peers.keys[id] == key) {
        var ids := state.peers.ids;
        if id !in state.peers.keys {
          ids := ids + [id];
        }
        state := state.(peers := Spec.KeySet(ids, state.peers.keys[id := key]));
        if state.eager || state.sealed != map[] {
          state := state.(epoch := state.epoch + 1, sealed := map[]);
        }
      }
      epoch := state.epoch;
    }

    method PublishSealed(env: Spec.Envelope, accept: bool) returns (ok: bool)
      modifies this
      ensures ok == Spec.Accepted(old(state), env, accept)
      ensures state == if ok then Spec.Publish(old(state), env) else old(state)
    {
      if !accept || env.from !in state.peers.keys || env.to !in state.peers.keys {
        return false;
      }
      if env.epoch != state.epoch || env.to in state.sealed {
        return false;
      }
      state := state.(sealed := state.sealed[env.to := env], sent := state.sent + [env]);
      return true;
    }
  }

  /** One turn of the publish loop. */
  lemma PublishNext(s: Spec.Session, room: Spec.Room, key: GroupKey, i: nat, accepts: set<PeerId>)
    requires s.keypair.Some? && s.keySet.Valid() && i < |s.keySet.ids|
    ensures
      var peer := s.keySet.ids[i];
      Spec.PublishFrom(s, room, key, i, accepts)
        == if peer == s.id || peer in s.sealedSent then Spec.PublishFrom(s, room, key, i + 1, accepts)
           else if Spec.Accepted(room, Spec.SealFor(s, key, peer), peer in accepts) then
             Spec.PublishFrom(s.(sealedSent := s.sealedSent + {peer}), Spec.Publish(room, Spec.SealFor(s, key, peer)), key, i + 1, accepts)
           else Spec.Outcome(s, room, true)
  {
    hide Spec.SealFor;
  }

  lemma PublishEnds(s: Spec.Session, room: Spec.Room, key: GroupKey, accepts: set<PeerId>)
    requires s.keypair.Some? && s.keySet.Valid()
    ensures Spec.PublishFrom(s, room, key, |s.keySet.ids|, accepts) == Spec.Outcome(s, room, false)
  {}

  class E2EESession {
    const roomId: string
    const localId: PeerId
    const channel: RoomChannel
    const epochs: KeyEpoch
    var keypair: Option<nat>
    var keySet: Spec.KeySet
    var status: Spec.Status
    var sealedSent: set<PeerId>
    var leaderKey: Option<Spec.LeaderKey>

    ghost function State(): Spec.Session
      reads this, epochs
    {
      Spec.Session(roomId, localId, epochs.epoch, epochs.roomKey, keypair, keySet, sealedSent, leaderKey, status)
    }

    ghost predicate Valid()
      reads this, channel
    {
      keySet.Valid() && channel.state.peers.Valid()
    }

    constructor (roomId: string, localId: PeerId, channel: RoomChannel)
      requires roomId != "" && localId != "" && channel.state.peers.Valid()
      ensures Valid() && State() == Spec.NewSession(roomId, localId)
      ensures this.channel == channel && fresh(epochs)
    {
      this.roomId, this.localId, this.channel := roomId, localId, channel;
      epochs := new KeyEpoch();
      keypair, leaderKey := None, None;
      keySet := Spec.EMPTY_KEYS;
      status := Spec.Idle;
      sealedSent := {};
    }

    predicate IsLeader()
      reads this
    {
      LeaderOf(keySet.ids) == Some(localId)
    }

    method AdoptEpoch(epoch: nat) returns (moved: bool)
      modifies epochs
      ensures State() == Spec.AdoptEpoch(old(State()), epoch) && moved == (epoch > old(epochs.epoch))
    {
      var r := epochs.AdvanceTo(epoch);
      moved := r.value;
    }

    /** `priv` is the keypair drawn; `registers` and `env` are the channel's answers. */
    method Start(priv: nat, registers: bool, env: Spec.Env) returns (threw: bool)
      requires Valid()
      modifies this, epochs, channel
      ensures Valid()
      ensures
        var o := Spec.Start(old(State()), old(channel.state), priv, registers, env);
        State() == o.session && channel.state == o.room && threw == o.threw
    {
      status := Spec.Registering;
      keypair := Some(priv);
      if !registers {
        status := Spec.Failed;
        return true;
      }
      Spec.RegisterKeepsValid(channel.state, localId, Pub(priv));
      var epoch := channel.RegisterKey(localId, Pub(priv));
      var _ := AdoptEpoch(epoch);
      threw := RefreshKeySet(env);
      if threw {
        status := Spec.Failed;
      }
    }

    method RefreshKeySet(env: Spec.Env) returns (threw: bool)
      requires Valid()
      modifies this, epochs, channel
      ensures Valid()
      ensures
        var o := Spec.RefreshKeySet(old(State()), old(channel.state), env);
        State() == o.session && channel.state == o.room && threw == o.threw
    {
      if !env.refreshes {
        return true;
      }
      threw := OnKeySet(channel.state.epoch, channel.state.peers, env);
    }

    method OnKeySet(epoch: nat, publicKeys: Spec.KeySet, env: Spec.Env) returns (threw: bool)
      requires Valid() && publicKeys.Valid()
      modifies this, epochs, channel
      ensures Valid()
      ensures
        var o := Spec.OnKeySet(old(State()), old(channel.state), epoch, publicKeys, env);
        State() == o.session && channel.state == o.room && threw == o.threw
    {
      var moved := AdoptEpoch(epoch);
      keySet := publicKeys;
      if moved {
        sealedSent := {};
      }
      assert State() == Spec.AdoptKeySet(old(State()), epoch, publicKeys);
      if |keySet.ids| <= 1 {
        // With no second peer a room key would protect nothing.
        status := Spec.AwaitingKey;
        return false;
      }
      if epochs.HasRoomKey() {
        status := Spec.Ready;
        return false;
      }
      if IsLeader() {
        threw := DistributeRoomKey(env);
        return;
      }
      status := Spec.AwaitingKey;
      return false;
    }

    method DistributeRoomKey(env: Spec.Env) returns (threw: bool)
      requires Valid()
      modifies this, epochs, channel
      ensures Valid()
      ensures
        var o := Spec.Distribute(old(State()), old(channel.state), env);
        State() == o.session && channel.state == o.room && threw == o.threw
    {
      hide Spec.SealFor, Spec.PublishFrom, Spec.Accepted;
      if keypair.None? {
        return true;
      }
      var epoch := epochs.epoch;
      if leaderKey.None? || leaderKey.value.epoch != epoch {
        leaderKey := Some(Spec.LeaderKey(epoch, GroupKey(localId, epoch, env.draw)));
      }
      var groupKey := leaderKey.value.key;
      ghost var minted, room := State(), channel.state;
      assert minted == Spec.WithLeaderKey(old(State()), env.draw);
      for i := 0 to |keySet.ids|
        invariant Valid() && keySet == old(keySet) && channel.state.peers == old(channel.state.peers)
        invariant State() == minted.(sealedSent := sealedSent)
        invariant Spec.PublishFrom(State(), channel.state, groupKey, i, env.accepts)
               == Spec.PublishFrom(minted, room, groupKey, 0, env.accepts)
      {
        PublishNext(State(), channel.state, groupKey, i, env.accepts);
        var peer := keySet.ids[i];
        if peer == localId || peer in sealedSent {
          continue;
        }
        var ok := ServePeer(groupKey, peer, peer in env.accepts);
        if !ok {
          return true;
        }
      }
      PublishEnds(State(), channel.state, groupKey, env.accepts);
      epochs.SetRoomKey(groupKey);
      status := Spec.Ready;
      return false;
    }

    /** Seal the key to one peer, publish it, and remember that. */
    method ServePeer(groupKey: GroupKey, peer: PeerId, accept: bool) returns (ok: bool)
      requires Valid() && keypair.Some? && peer in keySet.keys
      modifies this`sealedSent, channel
      ensures Valid() && channel.state.peers == old(channel.state.peers)
      ensures
        var envelope := Spec.SealFor(old(State()), groupKey, peer);
        && ok == Spec.Accepted(old(channel.state), envelope, accept)
        && channel.state == (if ok then Spec.Publish(old(channel.state), envelope) else old(channel.state))
        && State() == old(State()).(sealedSent := if ok then old(sealedSent) + {peer} else old(sealedSent))
    {
      hide DerivePairwise, SealGroupKey, Spec.Accepted;
      var epoch := epochs.epoch;
      var pairwise := DerivePairwise(keypair.value, keySet.keys[peer], roomId, epoch, localId, peer);
      var blob := SealGroupKey(groupKey, pairwise, roomId, epoch, localId, peer);
      ok := channel.PublishSealed(Spec.Envelope(localId, peer, epoch, blob), accept);
      if ok {
        sealedSent := sealedSent + {peer};
      }
    }

    method OnSealedKey(env: Spec.Envelope, retried: bool, answers: Spec.Env) returns (reply: Spec.SealedReply)
      requires Valid()
      modifies this, epochs, channel
      decreases !retried
      ensures Valid()
      ensures
        var o := Spec.OnSealedKey(old(State()), old(channel.state), env, retried, answers);
        State() == o.session && channel.state == o.room && reply == o.reply
    {
      hide DerivePairwise, OpenGroupKey, Spec.RefreshKeySet, Spec.Register;
      if env.to != "" && env.to != localId {
        return Spec.NotForMe;
      }
      if env.from == "" || env.from == localId {
        return Spec.FromSelf;
      }
      if env.epoch > epochs.epoch {
        if !retried {
          var _ := RefreshKeySet(answers);
          if env.epoch == epochs.epoch {
            reply := OnSealedKey(env, true, answers);
            return;
          }
        }
        return Spec.EpochAhead;
      }
      if env.epoch < epochs.epoch {
        return Spec.StaleEpoch;
      }
      if env.from !in keySet.keys && !retried {
        var _ := RefreshKeySet(answers);
      }
      if env.from !in keySet.keys {
        return Spec.UnknownSender;
      }
      if keypair.None? {
        status := Spec.AwaitingKey;
        return Spec.CannotOpen;
      }
      var pairwise := DerivePairwise(keypair.value, keySet.keys[env.from], roomId, env.epoch, localId, env.from);
      var groupKeyOrNone := OpenGroupKey(env.blob, pairwise, roomId, env.epoch, env.from, localId);
      match groupKeyOrNone {
        case Some(groupKey) =>
          epochs.SetRoomKey(groupKey);
          status := Spec.Ready;
          return Spec.Opened;
        case None =>
          status := Spec.AwaitingKey;
          return Spec.CannotOpen;
      }
    }

    /** Everything secret goes; only the epoch number stays. */
    method Clear()
      requires Valid()
      modifies this, epochs
      ensures Valid() && State() == Spec.Clear(old(State()))
    {
      keypair := None;
      keySet := Spec.EMPTY_KEYS;
      sealedSent := {};
      leaderKey := None;
      epochs.Clear();
      status := Spec.Idle;
    }
  }
}
