/**
 The cryptor of one peer connection as an object: its send counter and one
 replay-window object per speaker, over an epoch tracker it shares.
 */
module FrameCryptors {
  import opened Common
  import opened Text
  import opened Crypto
  import opened KeyEpochs
  import opened ReplayWindows
  import opened FrameSpec

  class FrameCryptor {
    const epochs: KeyEpoch
    const roomId: string
    const localId: string
    const remoteId: Option<string>
    const windowSize: nat
    var counter: nat
    var windows: map<string, ReplayWindow>

    constructor (epochs: KeyEpoch, roomId: string, localId: string, remoteId: Option<string>, windowSize: nat)
      requires roomId != "" && localId != "" && remoteId != Some("")
      ensures Valid() && State() == NewCryptor(roomId, localId, remoteId, windowSize)
      ensures this.epochs == epochs
    {
      this.epochs, this.roomId, this.localId, this.remoteId := epochs, roomId, localId, remoteId;
      this.windowSize := windowSize;
      counter, windows := 0, map[];
    }

    /** Every speaker has a window object of its own. */
    ghost predicate Valid()
      reads this
    {
      forall s, s' :: s in windows && s' in windows && s != s' ==> windows[s] != windows[s']
    }

    ghost function State(): Cryptor
      reads this, windows.Values
    {
      Cryptor(roomId, localId, remoteId, windowSize, counter, map s | s in windows :: windows[s].State())
    }

    ghost function Now(): Tracker
      reads this, epochs
    {
      Tracker(epochs.epoch, epochs.roomKey)
    }

    /** A new epoch starts counting, and forgets what was received, from the beginning. */
    method Reset()
      requires Valid()
      modifies this
      ensures Valid() && State() == FrameSpec.Reset(old(State()))
    {
      counter := 0;
      windows := map[];
    }

    method Seal(plain: Plain) returns (r: Result<Wire, FrameError>)
      requires Valid()
      modifies this`counter
      ensures Valid()
      ensures (State(), r) == FrameSpec.Seal(old(State()), Now(), plain)
    {
      hide DeriveFrameKey, FrameAad;
      if counter > UINT32_MAX {
        return Err(CounterExhausted);
      }
      var epoch := epochs.epoch;
      var spent := counter;
      counter := counter + 1;
      assert State().windows == old(State()).windows;
      if epochs.roomKey.None? {
        return Err(NoRoomKey);
      }
      var key := DeriveFrameKey(epochs.roomKey.value, epoch, localId, spent);
      var body := Cipher(key, FrameAad(roomId, epoch, localId, spent), plain);
      if epoch > UINT32_MAX || Utf8Length(localId) > 255 {
        return Err(HeaderTooBig);
      }
      return Ok(Wire(Some(Head(localId, epoch, spent)), body));
    }

    /** The window of a speaker, created on first use; None when the configured size is not a window size. */
    method WindowFor(senderId: string) returns (window: Option<ReplayWindow>)
      requires Valid()
      modifies this`windows
      ensures Valid()
      ensures window.None? <==> senderId !in old(windows) && windowSize < 1
      ensures window.None? ==> windows == old(windows)
      ensures window.Some? ==>
        && State() == old(State()).(windows := old(State()).windows[senderId := View(old(State()), senderId)])
        && windows == old(windows)[senderId := window.value]
        && (if senderId in old(windows) then window.value == old(windows)[senderId] else fresh(window.value))
        && window.value.State() == View(old(State()), senderId)
    {
      if senderId in windows {
        assert windows[senderId] in windows.Values;
        assert State().windows == State().windows[senderId := View(State(), senderId)];
        return Some(windows[senderId]);
      }
      if windowSize < 1 {
        return None;
      }
      var made := new ReplayWindow(windowSize);
      windows := windows[senderId := made];
      assert State().windows == old(State()).windows[senderId := made.State()];
      return Some(made);
    }

    method Open(wire: Wire, expected: Option<string>) returns (r: Result<Plain, FrameError>)
      requires Valid()
      modifies this`windows, windows.Values
      ensures Valid()
      ensures (State(), r) == FrameSpec.Open(old(State()), Now(), wire, expected)
    {
      hide DeriveFrameKey, FrameAad, Release, View;
      if wire.head.None? {
        return Err(BadHeader);
      }
      var Head(senderId, epoch, counter) := wire.head.value;
      if epoch != epochs.epoch {
        return Err(WrongEpoch);
      }
      if senderId == "" {
        return Err(NoSender);
      }
      if expected.Some? && senderId != expected.value {
        return Err(WrongSender);
      }
      var found := WindowFor(senderId);
      if found.None? {
        return Err(BadWindowSize);
      }
      assert senderId in old(windows) ==> old(windows)[senderId] in old(windows.Values);
      r := Finish(found.value, senderId, epoch, counter, wire.body);
    }

    /** The end of `Open`: the window is asked, the body decrypted, and only then the counter spent. */
    method Finish(window: ReplayWindow, senderId: string, epoch: nat, counter: nat, body: Body)
      returns (r: Result<Plain, FrameError>)
      requires Valid() && senderId in windows && windows[senderId] == window
      modifies window
      ensures Valid()
      ensures (State(), r) == Release(old(State()), Now(), senderId, epoch, counter, body)
    {
      hide DeriveFrameKey, FrameAad;
      var would := window.WouldAccept(counter);
      if !would.value {
        return Err(Replay);
      }
      if epochs.roomKey.None? {
        return Err(NoRoomKey);
      }
      var key := DeriveFrameKey(epochs.roomKey.value, epoch, senderId, counter);
      var plaintext := Decrypt(key, body, FrameAad(roomId, epoch, senderId, counter));
      if plaintext.Err? {
        return plaintext;
      }
      var _ := window.Accept(counter);
      assert State().windows == old(State()).windows[senderId := old(window.State()).Accept(counter)];
      return plaintext;
    }
  }
}
