/**
 Liveness of the key exchange, as a theorem about every schedule that delivers what it
 must, for the server as it is and as it is documented: once the epoch stops moving,
 every member ends with the same room key, whatever else is delivered in between, and
 it can do so exactly when no member's session is ahead of the room.
 */
module SessionConvergence {
  import opened Common
  import opened Crypto
  import opened Utf16Order
  import opened SessionSpec
  import opened SessionSystem
  import opened SessionInvariant
  import opened SessionTheorems
  import opened SessionMembership
  import opened SessionSettled
  import SessionPublishing
  import SessionPrompt

  /**
   What a deployment has to grant for the sessions of the present record to agree. A server that
   bumps on every membership change can do without promptness, if it never drops a record.
   */
  predicate Granted(rules: Rules, eager: bool) {
    && rules.atomic
    && ((rules.prompt && (rules.keeps || rules.anew)) || (rules.keeps && rules.ordered && rules.completes && eager))
  }

  /** Any state that a run can reach, with two members or more, all live. */
  ghost predicate Assembled(rules: Rules, sys: System, eager: bool) {
    Granted(rules, eager) && Reachable(rules, sys, eager) && Together(sys)
  }

  lemma AssembledIsSettled(rules: Rules, sys: System, eager: bool)
    requires Assembled(rules, sys, eager) && Level(sys)
    ensures Settled(rules, sys)
  {
    hide Inv, MembersInv, Reachable, Level;
    if rules.prompt && (rules.keeps || rules.anew) {
      ReachableInformed(rules, sys, eager);
    } else {
      ReachableInv(rules, sys);
    }
  }

  /** Only a room that has had an earlier record can have a member ahead of it. */
  lemma KeptIsLevel(rules: Rules, sys: System, eager: bool)
    requires rules.keeps && Reachable(rules, sys, eager)
    ensures Level(sys)
  {
    hide Reachable, SessionPublishing.Loyal, SessionPublishing.Fine;
    SessionPublishing.SendersAreConsistent(rules, sys, eager);
    forall m | m in sys.room.peers.keys && m in sys.sessions ensures sys.sessions[m].epoch <= sys.room.epoch {
      assert SessionPublishing.SessionFine(sys, m, sys.sessions[m]);
    }
  }

  /** The leader is handed the current key set, and every peer it has not served by then is accepted. */
  predicate ServesAll(sys: System, step: Step) {
    && step.DeliverKeySet? && step.news == Current(sys)
    && LeaderOf(sys.room.peers.ids) == Some(step.id) && step.id in sys.sessions
    && forall p :: p in sys.room.peers.keys && p != step.id ==>
         p in step.env.accepts || (Caught(sys, step.id) && p in sys.sessions[step.id].sealedSent)
  }

  lemma LeaderDistributes(rules: Rules, sys: System, step: Step)
    requires Settled(rules, sys) && ServesAll(sys, step) && Possible(rules, sys, step)
    ensures HasKey(rules, Apply(rules, sys, step), step.id)
  {
    hide SealFor, LeaderOf, Inv, MembersInv, SealedByMembers, PlainNames, Informed, PublishFrom, Level;
    var id, env := step.id, step.env;
    var s := sys.sessions[id];
    LeaderIsMember(rules, sys, id);
    SettledIsSteady(rules, sys);
    assert IsMember(sys, id);
    LeaderCanServe(rules, sys, id);
    var t := AdoptKeySet(s, sys.room.epoch, sys.room.peers);
    var m := WithLeaderKey(t, env.draw);
    AllAccepted(m, sys.room, m.leaderKey.value.key, 0, env.accepts);
  }

  /** Where something is stored for a peer, the leader put it there and remembers. */
  lemma LeaderCanServe(rules: Rules, sys: System, id: PeerId)
    requires Steady(rules, sys) && id in sys.room.peers.keys && LeaderOf(sys.room.peers.ids) == Some(id)
    ensures id in sys.sessions
    ensures forall p :: p in sys.room.sealed ==> Caught(sys, id) && p in sys.sessions[id].sealedSent
  {
    hide LeaderOf, SealedByMembers, PlainNames, Informed;
    assert IsMember(sys, id);
    forall p | p in sys.room.sealed ensures Caught(sys, id) && p in sys.sessions[id].sealedSent {
      var env := sys.room.sealed[p];
      assert env in sys.room.sent && env.epoch == sys.room.epoch;
      assert env.from == id;
    }
  }

  lemma {:induction false} AllAccepted(s: Session, room: Room, key: GroupKey, i: nat, accepts: set<PeerId>)
    requires s.keypair.Some? && s.keySet.Valid() && i <= |s.keySet.ids|
    requires s.epoch == room.epoch && s.keySet == room.peers && s.id in room.peers.keys
    requires forall p :: p in s.keySet.keys && p != s.id ==> p in s.sealedSent || (p in accepts && p !in room.sealed)
    ensures
      var o := PublishFrom(s, room, key, i, accepts);
      !o.threw && o.session == s.(sealedSent := o.session.sealedSent) && o.room.epoch == room.epoch
    decreases |s.keySet.ids| - i
  {
    hide DerivePairwise, SealGroupKey;
    if i < |s.keySet.ids| {
      var peer := s.keySet.ids[i];
      if peer == s.id || peer in s.sealedSent {
        AllAccepted(s, room, key, i + 1, accepts);
      } else {
        AllAccepted(s.(sealedSent := s.sealedSent + {peer}), Publish(room, SealFor(s, key, peer)), key, i + 1, accepts);
      }
    }
  }

  /**
   A blob of the present record is delivered to the peer it was published for, which is at the
   epoch and has the sender's registered key, or gets an answer when it asks for the key set:
   because it is behind, or does not know the sender.
   */
  predicate BlobFor(sys: System, step: Step, m: PeerId) {
    && step.DeliverSealed? && step.id == m && m in sys.sessions
    && step.envelope in sys.room.sent && step.envelope.to == m && step.envelope.epoch == sys.room.epoch
    && Reads(sys, sys.sessions[m], step.envelope, step.env)
  }

  predicate Reads(sys: System, s: Session, envelope: Envelope, env: Env) {
    || (s.epoch == sys.room.epoch && Knows(sys.room, s, envelope.from))
    || (env.refreshes && (s.epoch < sys.room.epoch || (s.epoch == sys.room.epoch && envelope.from !in s.keySet.keys)))
  }

  lemma BlobLands(rules: Rules, sys: System, step: Step, m: PeerId)
    requires Settled(rules, sys) && m in sys.room.peers.keys
    requires BlobFor(sys, step, m) && Possible(rules, sys, step)
    ensures HasKey(rules, Apply(rules, sys, step), m)
  {
    hide Inv, MembersInv, OnKeySet, LeaderOf, DerivePairwise, OpenGroupKey, OpenSealed, Relayed;
    hide SealedByMembers, PlainNames, Informed, Level, Together;
    var envelope, env := step.envelope, step.env;
    SettledIsSteady(rules, sys);
    assert IsMember(sys, m);
    GenuineLabels(rules, sys, envelope);
    QuietStepFrame(rules, sys, step);
    var s := sys.sessions[m];
    if s.epoch == sys.room.epoch && Knows(sys.room, s, envelope.from) {
      GenuineOpens(rules, sys, m, envelope, s, sys.room);
    } else {
      CurrentKeySetLands(rules, sys, m, env);
      RefreshKeepsRoom(s, sys.room, env);
      var o := RefreshKeySet(s, sys.room, env);
      GenuineOpens(rules, sys, m, envelope, o.session, o.room);
      assert !Caught(sys, m) ==>
          OnSealedKey(o.session, o.room, envelope, true, env).session == Install(o.session, envelope.blob.plain);
    }
  }

  // ---------------------------------------------------------------------------
  // Whole schedules
  // ---------------------------------------------------------------------------

  predicate AllQuiet(steps: seq<Step>) {
    forall i :: 0 <= i < |steps| ==> Quiet(steps[i])
  }

  /**
   The leader has the key, or at some point of the schedule is handed the key set with every
   peer still unserved accepted. Rounds before that may be refused anywhere.
   */
  ghost predicate LeaderServes(rules: Rules, sys: System, steps: seq<Step>)
    requires Legal(rules, sys, steps)
    decreases |steps|
  {
    || (exists lead :: LeaderOf(sys.room.peers.ids) == Some(lead) && HasKey(rules, sys, lead))
    || (steps != [] && ServesAll(sys, steps[0]))
    || (steps != [] && LeaderServes(rules, Apply(rules, sys, steps[0]), steps[1..]))
  }

  /** `m` has the key, or at some point of the schedule gets a blob that was published for it. */
  ghost predicate BlobArrives(rules: Rules, sys: System, steps: seq<Step>, m: PeerId)
    requires Legal(rules, sys, steps)
    decreases |steps|
  {
    || HasKey(rules, sys, m)
    || (steps != [] && BlobFor(sys, steps[0], m))
    || (steps != [] && BlobArrives(rules, Apply(rules, sys, steps[0]), steps[1..], m))
  }

  ghost predicate Delivers(rules: Rules, sys: System, steps: seq<Step>)
    requires Legal(rules, sys, steps)
  {
    && AllQuiet(steps) && LeaderServes(rules, sys, steps)
    && forall m :: m in sys.room.peers.keys && LeaderOf(sys.room.peers.ids) != Some(m) ==> BlobArrives(rules, sys, steps, m)
  }

  lemma {:induction false} HasKeyStaysOverRun(rules: Rules, sys: System, steps: seq<Step>, m: PeerId)
    requires Settled(rules, sys) && Legal(rules, sys, steps) && (forall i :: 0 <= i < |steps| ==> Quiet(steps[i]))
    requires m in sys.room.peers.keys && HasKey(rules, sys, m)
    ensures HasKey(rules, After(rules, sys, steps), m) && Current(After(rules, sys, steps)) == Current(sys)
    decreases |steps|
  {
    hide Settled, HasKey, Possible, Apply;
    if steps != [] {
      assert Quiet(steps[0]);
      HasKeyStays(rules, sys, steps[0], m);
      QuietStepStays(rules, sys, steps[0]);
      HasKeyStaysOverRun(rules, Apply(rules, sys, steps[0]), steps[1..], m);
    }
  }

  lemma {:induction false} LeaderEnds(rules: Rules, sys: System, steps: seq<Step>, lead: PeerId)
    requires Settled(rules, sys) && Legal(rules, sys, steps) && AllQuiet(steps)
    requires LeaderOf(sys.room.peers.ids) == Some(lead) && LeaderServes(rules, sys, steps)
    ensures HasKey(rules, After(rules, sys, steps), lead)
    decreases |steps|
  {
    hide Settled, HasKey, Possible, Apply, LeaderOf, Caught;
    LeaderIsMember(rules, sys, lead);
    if HasKey(rules, sys, lead) {
      HasKeyStaysOverRun(rules, sys, steps, lead);
    } else {
      assert Quiet(steps[0]);
      var next := Apply(rules, sys, steps[0]);
      QuietStepStays(rules, sys, steps[0]);
      if ServesAll(sys, steps[0]) {
        LeaderDistributes(rules, sys, steps[0]);
        HasKeyStaysOverRun(rules, next, steps[1..], lead);
      } else {
        LeaderEnds(rules, next, steps[1..], lead);
      }
    }
  }

  lemma LeaderIsMember(rules: Rules, sys: System, id: PeerId)
    requires Settled(rules, sys) && LeaderOf(sys.room.peers.ids) == Some(id)
    ensures id in sys.room.peers.keys && sys.room.peers.Valid()
  {
    hide Settled, LeaderOf, IsMember, SealedByMembers, PlainNames;
    SettledIsSteady(rules, sys);
    LeaderIsLowest(sys.room.peers.ids);
  }

  lemma {:induction false} MemberEnds(rules: Rules, sys: System, steps: seq<Step>, m: PeerId)
    requires Settled(rules, sys) && Legal(rules, sys, steps) && AllQuiet(steps)
    requires m in sys.room.peers.keys && BlobArrives(rules, sys, steps, m)
    ensures HasKey(rules, After(rules, sys, steps), m)
    decreases |steps|
  {
    hide Settled, HasKey, Possible, Apply;
    if HasKey(rules, sys, m) {
      HasKeyStaysOverRun(rules, sys, steps, m);
    } else {
      assert Quiet(steps[0]);
      var next := Apply(rules, sys, steps[0]);
      QuietStepStays(rules, sys, steps[0]);
      if BlobFor(sys, steps[0], m) {
        BlobLands(rules, sys, steps[0], m);
        HasKeyStaysOverRun(rules, next, steps[1..], m);
      } else {
        MemberEnds(rules, next, steps[1..], m);
      }
    }
  }

  /** A member that is handed the current key set is at the epoch from then on (with `CaughtStays`). */
  lemma KeySetCatchesUp(rules: Rules, sys: System, m: PeerId, env: Env)
    requires Settled(rules, sys) && m in sys.room.peers.keys
    requires Possible(rules, sys, DeliverKeySet(m, Current(sys), env))
    ensures
      var sys' := Apply(rules, sys, DeliverKeySet(m, Current(sys), env));
      Caught(sys', m) && sys'.sessions[m].keySet == sys.room.peers
      && (LeaderOf(sys.room.peers.ids) != Some(m) ==> sys'.room == sys.room)
  {
    hide OnKeySet, Settled, Steady, LeaderOf;
    SettledIsSteady(rules, sys);
    QuietStepFrame(rules, sys, DeliverKeySet(m, Current(sys), env));
    CurrentKeySetLands(rules, sys, m, env);
  }

  /** Every member is at the room's epoch, and all hold one key. */
  ghost predicate Converged(sys: System) {
    exists key :: forall m :: m in sys.room.peers.keys ==>
      m in sys.sessions && sys.sessions[m].epoch == sys.room.epoch && sys.sessions[m].roomKey == Some(key)
  }

  /**
   From every reachable state of at least two members, all live and none ahead of the room: a
   schedule that changes no membership, lets the leader serve everyone in however many rounds, and
   lets every other member have a blob published for it, ends with every member at that epoch
   holding one common key, and READY if no blob on the wire can pass for another.
   */
  lemma Convergence(rules: Rules, sys: System, steps: seq<Step>, eager: bool)
    requires Assembled(rules, sys, eager) && Level(sys)
    requires Legal(rules, sys, steps) && Delivers(rules, sys, steps)
    ensures
      var end := After(rules, sys, steps);
      && Current(end) == Current(sys) && Converged(end)
      && (Clean(rules, sys) ==> forall m :: m in sys.room.peers.keys ==> m in end.sessions && end.sessions[m].status == Ready)
  {
    hide Settled, Together, Possible, Apply, LeaderOf, Reachable, LeaderServes, BlobArrives, Level;
    AssembledIsSettled(rules, sys, eager);
    var end := After(rules, sys, steps);
    var lead := SomeLeader(rules, sys);
    LeaderEnds(rules, sys, steps, lead);
    RoomStays(rules, sys, steps);
    var key := end.sessions[lead].roomKey.value;
    forall m | m in sys.room.peers.keys ensures HasKey(rules, end, m) && end.sessions[m].roomKey == Some(key) {
      if m != lead {
        MemberEnds(rules, sys, steps, m);
      }
      SameEpochSameKey(rules, end, m, lead);
    }
  }

  lemma SomeLeader(rules: Rules, sys: System) returns (lead: PeerId)
    requires Settled(rules, sys)
    ensures LeaderOf(sys.room.peers.ids) == Some(lead) && lead in sys.room.peers.keys
  {
    hide LeaderOf, Inv, MembersInv;
    LeaderIsLowest(sys.room.peers.ids);
    lead := LeaderOf(sys.room.peers.ids).value;
    LeaderIsMember(rules, sys, lead);
  }

  lemma {:induction false} RoomStays(rules: Rules, sys: System, steps: seq<Step>)
    requires Settled(rules, sys) && Legal(rules, sys, steps) && AllQuiet(steps)
    ensures
      var end := After(rules, sys, steps);
      Current(end) == Current(sys) && end.earlier == sys.earlier && Settled(rules, end)
    decreases |steps|
  {
    hide Settled, Possible, Apply;
    if steps != [] {
      assert Quiet(steps[0]);
      QuietStepStays(rules, sys, steps[0]);
      RoomStays(rules, Apply(rules, sys, steps[0]), steps[1..]);
    }
  }

  lemma SameEpochSameKey(rules: Rules, sys: System, x: PeerId, y: PeerId)
    requires Settled(rules, sys) && x in sys.room.peers.keys && y in sys.room.peers.keys
    requires HasKey(rules, sys, x) && HasKey(rules, sys, y)
    ensures sys.sessions[x].roomKey == sys.sessions[y].roomKey
  {
    hide SentOk, LeaderOf, WasSent, SessionPrompt.PromptInv, AllInformed, PlainIds, Informed, Level;
    if Safe(rules) && Inv(rules, sys) {
      assert LiveOk(sys, x, sys.sessions[x]) && LiveOk(sys, y, sys.sessions[y]);
    } else {
      MemberIs(rules, sys, x);
      MemberIs(rules, sys, y);
      SessionPrompt.HeldAlike(rules, sys, x, y);
    }
  }

  // ---------------------------------------------------------------------------
  // Such a schedule always exists
  // ---------------------------------------------------------------------------

  /** Once the leader holds the key, every other member's blob is in the network. */
  lemma BlobWaits(rules: Rules, sys: System, lead: PeerId, m: PeerId) returns (envelope: Envelope)
    requires Settled(rules, sys) && LeaderOf(sys.room.peers.ids) == Some(lead) && HasKey(rules, sys, lead)
    requires m in sys.room.peers.keys && m != lead
    ensures envelope in sys.room.sent && envelope.to == m && envelope.epoch == sys.room.epoch
  {
    hide LeaderOf, Settled, SealedByMembers, PlainNames, KnowsSenders, OwnKey;
    SettledIsSteady(rules, sys);
    LeaderIsMember(rules, sys, lead);
    assert IsMember(sys, lead);
    assert SessionPublishing.PublishedTo(sys.room, lead, m, sys.room.epoch);
    envelope :| envelope in sys.room.sent && envelope.from == lead && envelope.to == m && envelope.epoch == sys.room.epoch;
  }

  /** A member that has caught up on the room's own key set is brought its blob. */
  lemma BringBlob(rules: Rules, sys: System, lead: PeerId, m: PeerId) returns (first: Step, second: Step)
    requires Settled(rules, sys) && LeaderOf(sys.room.peers.ids) == Some(lead) && HasKey(rules, sys, lead)
    requires m in sys.room.peers.keys && m != lead
    ensures Quiet(first) && Quiet(second) && Possible(rules, sys, first)
    ensures
      var next := Apply(rules, sys, first);
      Possible(rules, next, second) && BlobFor(next, second, m)
  {
    hide Settled, HasKey, Apply, LeaderOf, Steady;
    var envelope := BlobWaits(rules, sys, lead, m);
    var env := Env(0, {}, true);
    first, second := DeliverKeySet(m, Current(sys), env), DeliverSealed(m, envelope, env);
    MemberIsLive(rules, sys, m);
    var next := Apply(rules, sys, first);
    KeySetCatchesUp(rules, sys, m, env);
    QuietStepStays(rules, sys, first);
    SettledIsSteady(rules, next);
    GenuineLabels(rules, next, envelope);
    assert envelope in AllSent(next) by { assert AllSent(next)[|next.earlier|..] == next.room.sent; }
  }

  lemma {:induction false} BlobSchedule(rules: Rules, sys: System, lead: PeerId, todo: seq<PeerId>) returns (steps: seq<Step>)
    requires Settled(rules, sys) && LeaderOf(sys.room.peers.ids) == Some(lead) && HasKey(rules, sys, lead)
    requires forall m :: m in todo ==> m in sys.room.peers.keys
    ensures Legal(rules, sys, steps) && AllQuiet(steps)
    ensures forall m :: m in todo && m != lead ==> BlobArrives(rules, sys, steps, m)
    decreases |todo|
  {
    hide Settled, HasKey, Apply, LeaderOf, Steady, BlobFor, Possible;
    assert todo != [] ==> todo == [todo[0]] + todo[1..];
    if todo == [] {
      steps := [];
    } else if todo[0] == lead {
      steps := BlobSchedule(rules, sys, lead, todo[1..]);
    } else {
      var m := todo[0];
      var first, second := BringBlob(rules, sys, lead, m);
      var next := Apply(rules, sys, first);
      var last := Apply(rules, next, second);
      LeaderIsMember(rules, sys, lead);
      QuietStepStays(rules, sys, first);
      HasKeyStays(rules, sys, first, lead);
      QuietStepStays(rules, next, second);
      HasKeyStays(rules, next, second, lead);
      var rest := BlobSchedule(rules, last, lead, todo[1..]);
      var later := [second] + rest;
      assert later[0] == second && later[1..] == rest;
      steps := [first] + later;
      assert steps[0] == first && steps[1..] == later;
    }
  }

  lemma MemberIsLive(rules: Rules, sys: System, m: PeerId)
    requires Settled(rules, sys) && m in sys.room.peers.keys
    ensures m in sys.live && m in sys.sessions && sys.room.peers.Valid() && Current(sys) in sys.announced
    ensures sys.sessions[m].epoch <= sys.room.epoch
  {
    hide Settled, SealedByMembers, PlainNames, Informed;
    SettledIsSteady(rules, sys);
    assert IsMember(sys, m);
  }

  /** The hypotheses of `Convergence` can be met from every such state. */
  lemma ConvergenceIsPossible(rules: Rules, sys: System, eager: bool) returns (steps: seq<Step>)
    requires Assembled(rules, sys, eager) && Level(sys)
    ensures Legal(rules, sys, steps) && Delivers(rules, sys, steps)
  {
    hide Settled, Together, Apply, LeaderOf, Reachable, HasKey, Level;
    AssembledIsSettled(rules, sys, eager);
    var lead := SomeLeader(rules, sys);
    var first := DeliverKeySet(lead, Current(sys), Env(0, sys.room.peers.keys.Keys, true));
    MemberIsLive(rules, sys, lead);
    var next := Apply(rules, sys, first);
    QuietStepStays(rules, sys, first);
    assert ServesAll(sys, first);
    LeaderDistributes(rules, sys, first);
    assert forall m :: m in next.room.peers.ids <==> m in next.room.peers.keys by { MemberIsLive(rules, next, lead); }
    var rest := BlobSchedule(rules, next, lead, next.room.peers.ids);
    steps := [first] + rest;
    assert steps[0] == first && steps[1..] == rest;
  }

  // ---------------------------------------------------------------------------
  // Exactly when
  // ---------------------------------------------------------------------------

  /** Deliveries move neither the room's epoch nor a session back: whoever is ahead of the room stays ahead. */
  lemma {:induction false} AheadStaysAhead(rules: Rules, sys: System, steps: seq<Step>, m: PeerId)
    requires Legal(rules, sys, steps) && AllQuiet(steps) && m in sys.sessions && sys.sessions[m].epoch > sys.room.epoch
    ensures
      var end := After(rules, sys, steps);
      m in end.sessions && end.room.peers == sys.room.peers && end.sessions[m].epoch > end.room.epoch
    decreases |steps|
  {
    hide Possible, Apply;
    if steps != [] {
      assert Quiet(steps[0]);
      QuietStepFrame(rules, sys, steps[0]);
      EpochsNeverGoBack(rules, sys, steps[0], m);
      AheadStaysAhead(rules, Apply(rules, sys, steps[0]), steps[1..], m);
    }
  }

  /**
   From a reachable state of at least two members, all live, some schedule of deliveries makes
   them converge exactly when no member's session is ahead of the room.
   */
  lemma ConvergesExactly(rules: Rules, sys: System, eager: bool)
    requires Assembled(rules, sys, eager)
    ensures (exists steps :: Legal(rules, sys, steps) && AllQuiet(steps) && Converged(After(rules, sys, steps))) <==> Level(sys)
  {
    hide Granted, Reachable, Together, Legal, After, LeaderServes, BlobArrives;
    if Level(sys) {
      hide Level, Converged;
      var steps := ConvergenceIsPossible(rules, sys, eager);
      Convergence(rules, sys, steps, eager);
      assert AllQuiet(steps);
    } else {
      var m :| m in sys.room.peers.keys && m in sys.sessions && sys.sessions[m].epoch > sys.room.epoch;
      forall steps | Legal(rules, sys, steps) && AllQuiet(steps) ensures !Converged(After(rules, sys, steps)) {
        AheadStaysAhead(rules, sys, steps, m);
      }
    }
  }
}
