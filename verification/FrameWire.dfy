/** The head of a frame on the wire: the header's bytes, with the sender's id in UTF-8. */
module FrameWire {
  import opened Common
  import opened Text
  import opened FrameHeader
  import FrameSpec

  function Utf8Char(c: char): (b: seq<byte>)
    ensures b != []
  {
    var n := c as int;
    if n < 0x80 then [n]
    else if n < 0x800 then [0xC0 + n / 0x40, 0x80 + n % 0x40]
    else if n < 0x1_0000 then [0xE0 + n / 0x1000, 0x80 + n / 0x40 % 0x40, 0x80 + n % 0x40]
    else [0xF0 + n / 0x4_0000, 0x80 + n / 0x1000 % 0x40, 0x80 + n / 0x40 % 0x40, 0x80 + n % 0x40]
  }

  function Utf8(s: string): seq<byte> {
    if s == [] then [] else Utf8Char(s[0]) + Utf8(s[1..])
  }

  lemma {:induction false} Utf8HasLength(s: string)
    ensures |Utf8(s)| == FrameSpec.Utf8Length(s)
  {
    if s != [] {
      Utf8HasLength(s[1..]);
    }
  }

  /** The bytes of a character say which it is. */
  lemma Utf8CharInjective(x: char, y: char)
    requires Utf8Char(x) == Utf8Char(y)
    ensures x == y
  {
    var m, n := x as int, y as int;
    assert Utf8Char(x)[0] == Utf8Char(y)[0];
    if m >= 0x80 {
      assert Utf8Char(x)[1] == Utf8Char(y)[1];
    }
    if m >= 0x800 {
      assert Utf8Char(x)[2] == Utf8Char(y)[2];
    }
    if m >= 0x1_0000 {
      assert Utf8Char(x)[3] == Utf8Char(y)[3];
      assert m / 0x1000 / 0x40 == m / 0x4_0000 && n / 0x1000 / 0x40 == n / 0x4_0000;
    }
    if m >= 0x800 {
      assert m / 0x40 / 0x40 == m / 0x1000 && n / 0x40 / 0x40 == n / 0x1000;
    }
  }

  /** The first byte of a character says how many there are. */
  lemma Utf8PrefixCode(x: char, y: char, a: seq<byte>, b: seq<byte>)
    requires Utf8Char(x) + a == Utf8Char(y) + b
    ensures x == y && a == b
  {
    var e, f, s := Utf8Char(x), Utf8Char(y), Utf8Char(x) + a;
    assert e[0] == s[0] == f[0];
    assert |e| == |f|;
    assert s[..|e|] == e && s[..|e|] == f;
    Utf8CharInjective(x, y);
    assert a == s[|e|..] && b == s[|e|..];
  }

  lemma {:induction false} Utf8Injective(s: string, t: string)
    requires Utf8(s) == Utf8(t)
    ensures s == t
    decreases |s|
  {
    hide Utf8Char;
    if s != [] && t != [] {
      Utf8PrefixCode(s[0], t[0], Utf8(s[1..]), Utf8(t[1..]));
      Utf8Injective(s[1..], t[1..]);
      assert s == [s[0]] + s[1..] && t == [t[0]] + t[1..];
    }
  }

  /** The header that goes out in front of a sealed body. */
  function HeadBytes(h: FrameSpec.Head): Result<seq<byte>, HeaderError> {
    Encode(h.epoch, h.counter, Some(Utf8(h.senderId)))
  }

  /** Bytes that two heads have in common are those of one head. */
  lemma HeadBytesInjective(g: FrameSpec.Head, h: FrameSpec.Head, body: seq<byte>, body': seq<byte>)
    requires HeadBytes(g).Ok? && HeadBytes(h).Ok? && HeadBytes(g).value + body == HeadBytes(h).value + body'
    ensures g == h && body == body'
  {
    hide Encode, Decode;
    DecodeEncode(g.epoch, g.counter, Some(Utf8(g.senderId)), body);
    DecodeEncode(h.epoch, h.counter, Some(Utf8(h.senderId)), body');
    Utf8Injective(g.senderId, h.senderId);
  }

  /**
   Sealing and the byte codec agree: a seal whose counter is not exhausted and that has a key is
   refused exactly when its head has no bytes; and the head of a sealed frame, in front of any
   body, decodes to its epoch, its counter, the UTF-8 form of its sender and that body.
   */
  lemma SealedHeadsTravel(c: FrameSpec.Cryptor, t: FrameSpec.Tracker, plain: FrameSpec.Plain, body: seq<byte>)
    requires c.localId != "" && c.counter <= UINT32_MAX && t.roomKey.Some?
    ensures
      var head := FrameSpec.Head(c.localId, t.epoch, c.counter);
      var r := FrameSpec.Seal(c, t, plain).1;
      && (r.Ok? <==> HeadBytes(head).Ok?)
      && (r.Ok? ==> r.value.head == Some(head)
                    && Decode(HeadBytes(head).value + body)
                       == Ok(Header(Some(Utf8(c.localId)), t.epoch, c.counter, body)))
  {
    hide Decode;
    var head := FrameSpec.Head(c.localId, t.epoch, c.counter);
    Utf8HasLength(c.localId);
    if HeadBytes(head).Ok? {
      DecodeEncode(t.epoch, c.counter, Some(Utf8(c.localId)), body);
      assert Utf8(c.localId) != [];
    }
  }

  // ---------------------------------------------------------------------------
  // The bytes of a header
  // ---------------------------------------------------------------------------

  /** Four bytes from `at` on, as a number: the first counts most. */
  function BigEndian(b: seq<byte>, at: nat): int
    requires at + 4 <= |b|
  {
    b[at] as int * 16777216 + b[at + 1] as int * 65536 + b[at + 2] as int * 256 + b[at + 3] as int
  }

  lemma PutIsBigEndian(n: int)
    requires IsUint32(n)
    ensures BigEndian(PutUint32(n), 0) == n
  {
    Uint32RoundTrip(n);
    var b := PutUint32(n);
    assert GetUint32(b) == BigEndian(b, 0);
  }

  /** Version 1, the length of the sender's bytes, those bytes, then epoch and counter, and nothing else. */
  lemma HeaderLayout(epoch: int, counter: int, sender: Option<seq<byte>>)
    requires Encode(epoch, counter, sender).Ok?
    ensures
      var h := Encode(epoch, counter, sender).value;
      var id := if sender == None then [] else sender.value;
      && |h| == |id| + 10 && h[0] == 1 && h[1] as int == |id| && h[2..|id| + 2] == id
      && BigEndian(h, |id| + 2) == epoch && BigEndian(h, |id| + 6) == counter
  {
    hide PutUint32;
    var h, id := Encode(epoch, counter, sender).value, SenderBytes(sender);
    PutIsBigEndian(epoch);
    PutIsBigEndian(counter);
    var e, n := PutUint32(epoch), PutUint32(counter);
    assert h[|id| + 2..|id| + 6] == e && h[|id| + 6..|id| + 10] == n;
    SameNumber(h, |id| + 2, e);
    SameNumber(h, |id| + 6, n);
  }

  lemma SameNumber(h: seq<byte>, at: nat, b: seq<byte>)
    requires at + 4 <= |h| && |b| == 4 && h[at..at + 4] == b
    ensures BigEndian(h, at) == BigEndian(b, 0)
  {
    assert h[at..at + 4][0] == h[at] && h[at..at + 4][1] == h[at + 1];
    assert h[at..at + 4][2] == h[at + 2] && h[at..at + 4][3] == h[at + 3];
  }

  /** Which headers there are, and why there is no other. */
  lemma EncodesExactly(epoch: int, counter: int, sender: Option<seq<byte>>)
    ensures
      var fits, counts := 0 <= epoch < 4294967296, 0 <= counter < 4294967296;
      var named := sender != None && |sender.value| > 255;
      && (Encode(epoch, counter, sender) == Err(BadEpoch) <==> !fits)
      && (Encode(epoch, counter, sender) == Err(BadCounter) <==> fits && !counts)
      && (Encode(epoch, counter, sender) == Err(SenderTooLong) <==> fits && counts && named)
      && (Encode(epoch, counter, sender).Ok? <==> fits && counts && !named)
  {
    hide PutUint32;
  }

  /** Which bytes are refused, and as what. */
  lemma DecodesExactly(b: seq<byte>)
    ensures Decode(b) == Err(TooShort) <==> |b| < 10 || (b[0] == 1 && |b| < 10 + b[1] as int)
    ensures (Decode(b).Err? && Decode(b).error.BadVersion?) <==> |b| >= 10 && b[0] != 1
    ensures Decode(b).Err? && Decode(b).error.BadVersion? ==> Decode(b).error.version == b[0]
    ensures Decode(b).Ok? <==> |b| >= 10 && b[0] == 1 && |b| >= 10 + b[1] as int
  {
    hide GetUint32;
  }
}
