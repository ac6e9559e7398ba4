/**
 Any number of sessions and one room, as a transition system. A run is a list
 of steps; a step is one whole handler, `start()`, `clear()`, or something the
 server does, and, where handlers may interleave, the part of a handler before
 or after it sets the room key. Announced key sets and published blobs
 stay in the network: they may be delivered late, more than once, or never.
 */
module SessionSystem {
  import opened Common
  import opened Text
  import opened Crypto
  import opened Utf16Order
  import opened SessionSpec

  /** A key-set broadcast, or the reply to a request for the key set. */
  datatype Announcement = Announcement(epoch: nat, keys: KeySet)

  /**
   `live` are the sessions whose registration went through and that have not
   been cleared since. `announced` and `minted` record every key set the room
   has had and every room key drawn so far, `earlier` what was published under
   records of the room that are gone. `suspended` are the keys that interrupted
   handlers still have to set.
   */
  datatype System = System(
    roomId: string,
    room: Room,
    sessions: map<PeerId, Session>,
    live: set<PeerId>,
    announced: set<Announcement>,
    minted: set<GroupKey>,
    books: Books,
    earlier: seq<Envelope>,
    suspended: map<PeerId, GroupKey>)

  /** Every private key drawn so far, and the sessions that registered under the room's present record. */
  datatype Books = Books(drawn: set<nat>, admitted: set<PeerId>)

  function Enrol(books: Books, id: PeerId, priv: nat, registers: bool): Books {
    Books(books.drawn + {priv}, if registers then books.admitted + {id} else books.admitted)
  }

  datatype Step =
    | Construct(id: PeerId)
    | Join(id: PeerId, priv: nat, registers: bool, env: Env)
    | DeliverKeySet(id: PeerId, news: Announcement, env: Env)
    | DeliverSealed(id: PeerId, envelope: Envelope, env: Env)
    | Leave(id: PeerId)
    | Drop(id: PeerId)
    | Rotate
    | DeliverAndPause(id: PeerId, news: Announcement, env: Env)
    | OpenAndPause(id: PeerId, envelope: Envelope, env: Env)
    | Resume(id: PeerId)
    | Restart

  /**
   What the environment is held to.
   `ordered`: key sets reach a session in epoch order.
   `completes`: once `start()` has registered, its key-set request is answered.
   `relabels`: the relay may attach other labels to a published blob; then ids and room are free of bars.
   `atomic`: no handler is interrupted.
   `prompt`: a key set is delivered only while it is the room's, a blob only while its label is the room's epoch.
   `keeps`: the record of an emptied room is kept.
   `anew`: every `start()` draws a private key that was never drawn before.
   */
  datatype Rules = Rules(
    ordered: bool,
    completes: bool,
    relabels: bool,
    atomic: bool,
    prompt: bool,
    keeps: bool,
    anew: bool)

  function Current(sys: System): Announcement {
    Announcement(sys.room.epoch, sys.room.peers)
  }

  /** Everything that was ever published, oldest first. */
  function AllSent(sys: System): seq<Envelope> {
    sys.earlier + sys.room.sent
  }

  ghost predicate Relayed(rules: Rules, sys: System, env: Envelope) {
    env in AllSent(sys) || (rules.relabels && exists sent :: sent in AllSent(sys) && sent.blob == env.blob)
  }

  /** Broadcasts reach registered sessions, and sessions that have no keypair yet or no longer. */
  predicate Listening(sys: System, id: PeerId) {
    id in sys.sessions && (id in sys.live || sys.sessions[id].keypair.None?)
  }

  predicate Timely(rules: Rules, sys: System, id: PeerId, news: Announcement)
    requires id in sys.sessions
  {
    && news in sys.announced
    && (rules.ordered ==> news.epoch >= sys.sessions[id].epoch)
    && (rules.prompt ==> news == Current(sys))
  }

  ghost predicate Possible(rules: Rules, sys: System, step: Step) {
    sys.room.peers.Valid() &&
    match step
    case Construct(id) => id != "" && id !in sys.live && (rules.relabels ==> BAR !in id)
    case Join(id, priv, registers, env) =>
      id in sys.sessions && id !in sys.live && id !in sys.room.peers.keys &&
      (rules.completes && registers ==> env.refreshes) && (rules.anew ==> priv !in sys.books.drawn)
    case DeliverKeySet(id, news, env) =>
      Listening(sys, id) && news.keys.Valid() && Timely(rules, sys, id, news)
    case DeliverSealed(id, envelope, env) =>
      Listening(sys, id) && Relayed(rules, sys, envelope) && (rules.prompt ==> envelope.epoch == sys.room.epoch)
    case Leave(id) => id in sys.sessions
    case Drop(id) => id in sys.room.peers.keys
    case Rotate => true
    case DeliverAndPause(id, news, env) =>
      !rules.atomic && Listening(sys, id) && news.keys.Valid() && Timely(rules, sys, id, news) &&
      Published(sys.sessions[id], sys.room, news.epoch, news.keys, env).Some?
    case OpenAndPause(id, envelope, env) =>
      !rules.atomic && Listening(sys, id) && Relayed(rules, sys, envelope) &&
      (rules.prompt ==> envelope.epoch == sys.room.epoch) && Unlocked(sys.sessions[id], sys.room, envelope, env).Some?
    case Resume(id) => !rules.atomic && id in sys.sessions && id in sys.suspended
    case Restart => !rules.keeps && sys.room.peers.ids == []
  }

  function With(sys: System, id: PeerId, s: Session): System {
    sys.(sessions := sys.sessions[id := s])
  }

  function WithRoom(sys: System, room: Room): System {
    sys.(room := room, announced := sys.announced + {Announcement(room.epoch, room.peers)})
  }

  function Drawn(s: Session): set<GroupKey> {
    if s.leaderKey.Some? then {s.leaderKey.value.key} else {}
  }

  /** The system after session `id` has run one handler. */
  function Put(sys: System, id: PeerId, s: Session, room: Room): System {
    WithRoom(With(sys, id, s), room).(minted := sys.minted + Drawn(s))
  }

  ghost function Apply(rules: Rules, sys: System, step: Step): System
    requires Possible(rules, sys, step)
  {
    match step
    case Construct(id) => With(sys, id, NewSession(sys.roomId, id)).(suspended := sys.suspended - {id})
    case Join(id, priv, registers, env) =>
      var o := Start(sys.sessions[id], sys.room, priv, registers, env);
      var books := Enrol(sys.books, id, priv, registers);
      Put(sys, id, o.session, o.room).(live := if registers then sys.live + {id} else sys.live, books := books)
    case DeliverKeySet(id, news, env) =>
      var o := OnKeySet(sys.sessions[id], sys.room, news.epoch, news.keys, env);
      Put(sys, id, o.session, o.room)
    case DeliverSealed(id, envelope, env) =>
      var o := OnSealedKey(sys.sessions[id], sys.room, envelope, false, env);
      Put(sys, id, o.session, o.room)
    case Leave(id) => With(sys, id, Clear(sys.sessions[id])).(live := sys.live - {id})
    case Drop(id) => WithRoom(sys, Remove(sys.room, id))
    case Rotate => WithRoom(sys, Bump(sys.room))
    case DeliverAndPause(id, news, env) =>
      var (o, key) := Published(sys.sessions[id], sys.room, news.epoch, news.keys, env).value;
      Put(sys, id, o.session, o.room).(suspended := sys.suspended[id := key])
    case OpenAndPause(id, envelope, env) =>
      var (o, key) := Unlocked(sys.sessions[id], sys.room, envelope, env).value;
      Put(sys, id, o.session, o.room).(suspended := sys.suspended[id := key])
    case Resume(id) =>
      With(sys, id, Install(sys.sessions[id], sys.suspended[id])).(suspended := sys.suspended - {id})
    case Restart =>
      WithRoom(sys, Restarted(sys.room)).(earlier := AllSent(sys), books := sys.books.(admitted := {}))
  }

  ghost predicate Legal(rules: Rules, sys: System, steps: seq<Step>)
    decreases |steps|
  {
    steps == [] || (Possible(rules, sys, steps[0]) && Legal(rules, Apply(rules, sys, steps[0]), steps[1..]))
  }

  ghost function After(rules: Rules, sys: System, steps: seq<Step>): System
    requires Legal(rules, sys, steps)
    decreases |steps|
  {
    if steps == [] then sys else After(rules, Apply(rules, sys, steps[0]), steps[1..])
  }

  /** An empty room at epoch 0 and no sessions. */
  function Initial(roomId: string, eager: bool): System {
    System(roomId, Room(eager, 0, EMPTY_KEYS, map[], []), map[], {}, {Announcement(0, EMPTY_KEYS)}, {}, Books({}, {}), [], map[])
  }

  ghost predicate Reachable(rules: Rules, sys: System, eager: bool) {
    exists steps :: Legal(rules, Initial(sys.roomId, eager), steps) && After(rules, Initial(sys.roomId, eager), steps) == sys
                    && (rules.relabels ==> BAR !in sys.roomId)
  }

  /** The rules under which the documented server keeps sessions agreed, with or without relabelling. */
  predicate Safe(rules: Rules) {
    rules.ordered && rules.completes && rules.atomic && rules.keeps
  }
}
