/** Sealing and opening media frames, as functions on a cryptor's state and the shared epoch tracker's. */
module FrameSpec {
  import opened Common
  import opened Text
  import opened Crypto
  import opened ReplayWindows

  type Plain = seq<int>

  /** HKDF over a room key, a salt text and an info text. */
  datatype FrameKey = FrameKey(key: GroupKey, salt: string, info: string)

  function DeriveFrameKey(key: GroupKey, epoch: nat, senderId: string, counter: nat): FrameKey {
    FrameKey(key, "frame" + [BAR] + Decimal(epoch),
             LABEL_FRAME + [BAR] + "sender" + [BAR] + senderId + [BAR] + Decimal(counter))
  }

  /** The encrypted part of a frame, or bytes that no key authenticates. */
  datatype Body = Cipher(key: FrameKey, aad: string, plain: Plain) | Noise

  /** A parsed header; the sender is empty when the frame carries none. */
  datatype Head = Head(senderId: string, epoch: nat, counter: nat)

  /** A frame as it arrives; `head` is None when the bytes do not parse as a header. */
  datatype Wire = Wire(head: Option<Head>, body: Body)

  datatype FrameError =
    | CounterExhausted | NoRoomKey | HeaderTooBig
    | BadHeader | WrongEpoch | NoSender | WrongSender | BadWindowSize | Replay | TooShort | NotAuthentic

  datatype Tracker = Tracker(epoch: nat, roomKey: Option<GroupKey>)

  datatype Cryptor = Cryptor(
    roomId: string,
    localId: string,
    remoteId: Option<string>,
    windowSize: nat,
    counter: nat,
    windows: map<string, Window>)

  function NewCryptor(roomId: string, localId: string, remoteId: Option<string>, windowSize: nat): Cryptor {
    Cryptor(roomId, localId, remoteId, windowSize, 0, map[])
  }

  function Reset(c: Cryptor): Cryptor {
    c.(counter := 0, windows := map[])
  }

  /** The number of UTF-8 bytes of a text. */
  function Utf8Length(s: string): nat {
    if s == [] then 0
    else
      var n := s[0] as int;
      (if n < 0x80 then 1 else if n < 0x800 then 2 else if n < 0x1_0000 then 3 else 4) + Utf8Length(s[1..])
  }

  /** A counter is spent even when sealing fails; an exhausted one is not advanced. */
  function Seal(c: Cryptor, t: Tracker, plain: Plain): (r: (Cryptor, Result<Wire, FrameError>)) {
    if c.counter > UINT32_MAX then (c, Err(CounterExhausted))
    else
      var spent := c.(counter := c.counter + 1);
      if t.roomKey.None? then (spent, Err(NoRoomKey))
      else if t.epoch > UINT32_MAX || Utf8Length(c.localId) > 255 then (spent, Err(HeaderTooBig))
      else
        var body := Cipher(DeriveFrameKey(t.roomKey.value, t.epoch, c.localId, c.counter),
                           FrameAad(c.roomId, t.epoch, c.localId, c.counter), plain);
        (spent, Ok(Wire(Some(Head(c.localId, t.epoch, c.counter)), body)))
  }

  /** Authentication succeeds exactly when key and AAD match; an empty plaintext is refused as too short. */
  function Decrypt(key: FrameKey, body: Body, aad: string): Result<Plain, FrameError> {
    match body
    case Noise => Err(NotAuthentic)
    case Cipher(k, a, plain) =>
      if plain == [] then Err(TooShort)
      else if k == key && a == aad then Ok(plain)
      else Err(NotAuthentic)
  }

  /** The window of a sender: a new one until its first frame. */
  function View(c: Cryptor, senderId: string): Window {
    if senderId in c.windows then c.windows[senderId] else NewWindow(c.windowSize)
  }

  /** The end of an open, once the sender's window exists: check the window, decrypt, and only then spend the counter. */
  function Release(c: Cryptor, t: Tracker, senderId: string, epoch: nat, counter: nat, body: Body)
    : (r: (Cryptor, Result<Plain, FrameError>))
    requires senderId in c.windows
  {
    if !c.windows[senderId].WouldAccept(counter) then (c, Err(Replay))
    else if t.roomKey.None? then (c, Err(NoRoomKey))
    else
      var key := DeriveFrameKey(t.roomKey.value, epoch, senderId, counter);
      match Decrypt(key, body, FrameAad(c.roomId, epoch, senderId, counter))
      case Err(e) => (c, Err(e))
      case Ok(plain) => (c.(windows := c.windows[senderId := c.windows[senderId].Accept(counter)]), Ok(plain))
  }

  function Open(c: Cryptor, t: Tracker, wire: Wire, expected: Option<string>): (r: (Cryptor, Result<Plain, FrameError>)) {
    match wire.head
    case None => (c, Err(BadHeader))
    case Some(Head(senderId, epoch, counter)) =>
      if epoch != t.epoch then (c, Err(WrongEpoch))
      else if senderId == "" then (c, Err(NoSender))
      else if expected.Some? && senderId != expected.value then (c, Err(WrongSender))
      else if senderId !in c.windows && c.windowSize < 1 then (c, Err(BadWindowSize))
      else
        Release(c.(windows := c.windows[senderId := View(c, senderId)]), t, senderId, epoch, counter, wire.body)
  }

  // ---------------------------------------------------------------------------
  // Frame keys
  // ---------------------------------------------------------------------------

  /** A frame key belongs to one room key, epoch, sender and counter, whatever characters the id holds. */
  lemma FrameKeyInjective(k: GroupKey, e: nat, s: string, c: nat, k': GroupKey, e': nat, s': string, c': nat)
    requires DeriveFrameKey(k, e, s, c) == DeriveFrameKey(k', e', s', c')
    ensures k == k' && e == e' && s == s' && c == c'
  {
    DecimalHasNoBar(c);
    DecimalHasNoBar(c');
    var prefix := LABEL_FRAME + [BAR] + "sender" + [BAR];
    var info, info' := prefix + s + [BAR] + Decimal(c), prefix + s' + [BAR] + Decimal(c');
    assert info == DeriveFrameKey(k, e, s, c).info && info' == DeriveFrameKey(k', e', s', c').info;
    CutAtLastBar(prefix + s, Decimal(c), prefix + s', Decimal(c'));
    assert s == (prefix + s)[|prefix|..] && s' == (prefix + s')[|prefix|..];
    DecimalInjective(c, c');
    var salt := "frame" + [BAR];
    assert Decimal(e) == (salt + Decimal(e))[|salt|..] && Decimal(e') == (salt + Decimal(e'))[|salt|..];
    DecimalInjective(e, e');
  }

  // ---------------------------------------------------------------------------
  // A failed open leaves no trace
  // ---------------------------------------------------------------------------

  datatype Call = SealCall(plain: Plain) | OpenCall(wire: Wire, expected: Option<string>) | ResetCall

  datatype Answer = Sealed(wire: Result<Wire, FrameError>) | Released(plain: Result<Plain, FrameError>) | WasReset

  function Respond(c: Cryptor, t: Tracker, call: Call): (Cryptor, Answer) {
    match call
    case SealCall(plain) => var r := Seal(c, t, plain); (r.0, Sealed(r.1))
    case OpenCall(wire, expected) => var r := Open(c, t, wire, expected); (r.0, Released(r.1))
    case ResetCall => (Reset(c), WasReset)
  }

  /** The answers to any calls, the tracker being in any state at each of them. */
  function Respondings(c: Cryptor, calls: seq<(Tracker, Call)>): seq<Answer>
    decreases |calls|
  {
    if calls == [] then []
    else var r := Respond(c, calls[0].0, calls[0].1); [r.1] + Respondings(r.0, calls[1..])
  }

  /** Two cryptors that differ at most in whether an untouched window has been created. */
  ghost predicate Indistinct(c: Cryptor, c': Cryptor) {
    c' == c.(windows := c'.windows) && (forall s :: View(c, s) == View(c', s)) &&
    (c.windowSize < 1 ==> c.windows == c'.windows)
  }

  lemma FailedOpenIndistinct(c: Cryptor, t: Tracker, wire: Wire, expected: Option<string>)
    requires Open(c, t, wire, expected).1.Err?
    ensures Indistinct(c, Open(c, t, wire, expected).0)
  {
    hide DeriveFrameKey, FrameAad;
  }

  lemma IndistinctAnswers(c: Cryptor, c': Cryptor, t: Tracker, call: Call)
    requires Indistinct(c, c')
    ensures Respond(c, t, call).1 == Respond(c', t, call).1
    ensures Indistinct(Respond(c, t, call).0, Respond(c', t, call).0)
  {
    hide DeriveFrameKey, FrameAad;
    if c.windowSize < 1 {
      assert c' == c;
    } else {
      match call
      case OpenCall(wire, expected) => IndistinctOpens(c, c', t, wire, expected);
      case SealCall(plain) =>
        var r, r' := Seal(c, t, plain).0, Seal(c', t, plain).0;
        assert r.windows == c.windows && r'.windows == c'.windows;
        forall s ensures View(r, s) == View(r', s) {
          assert View(c, s) == View(c', s);
        }
        assert r' == r.(windows := r'.windows);
      case ResetCall =>
        assert Reset(c') == Reset(c);
    }
  }

  lemma IndistinctOpens(c: Cryptor, c': Cryptor, t: Tracker, wire: Wire, expected: Option<string>)
    requires Indistinct(c, c') && c.windowSize >= 1
    ensures Open(c, t, wire, expected).1 == Open(c', t, wire, expected).1
    ensures Indistinct(Open(c, t, wire, expected).0, Open(c', t, wire, expected).0)
  {
    hide DeriveFrameKey, FrameAad;
    var r, r' := Open(c, t, wire, expected).0, Open(c', t, wire, expected).0;
    if wire.head.Some? {
      var s := wire.head.value.senderId;
      assert View(c, s) == View(c', s);
      forall x ensures View(r, x) == View(r', x) {
        assert View(c, x) == View(c', x);
      }
    }
    assert r' == r.(windows := r'.windows);
  }

  lemma {:induction false} IndistinctForever(c: Cryptor, c': Cryptor, calls: seq<(Tracker, Call)>)
    requires Indistinct(c, c')
    ensures Respondings(c, calls) == Respondings(c', calls)
    decreases |calls|
  {
    hide Indistinct, Respond;
    if calls != [] {
      IndistinctAnswers(c, c', calls[0].0, calls[0].1);
      IndistinctForever(Respond(c, calls[0].0, calls[0].1).0, Respond(c', calls[0].0, calls[0].1).0, calls[1..]);
    }
  }

  /** A failed open changes no later answer, over any further calls. */
  lemma FailedOpenChangesNothing(c: Cryptor, t: Tracker, wire: Wire, expected: Option<string>, calls: seq<(Tracker, Call)>)
    requires Open(c, t, wire, expected).1.Err?
    ensures Respondings(Open(c, t, wire, expected).0, calls) == Respondings(c, calls)
  {
    FailedOpenIndistinct(c, t, wire, expected);
    IndistinctForever(c, Open(c, t, wire, expected).0, calls);
  }
}
