/**
 The frame header as bytes: one for the version, one for the length of the sender's
 UTF-8 form, that form, and epoch and counter in four bytes each.
 */
module FrameHeader {
  import opened Common
  import opened Text

  type byte = b: int | 0 <= b < 256

  const FRAME_VERSION: byte := 1
  const FRAME_HEADER_BYTES := 10

  datatype Header = Header(sender: Option<seq<byte>>, epoch: nat, counter: nat, body: seq<byte>)

  datatype HeaderError = BadEpoch | BadCounter | SenderTooLong | TooShort | BadVersion(version: byte)

  predicate IsUint32(n: int) {
    0 <= n <= UINT32_MAX
  }

  /** `setUint32`: four bytes, the most significant first. */
  function PutUint32(n: int): (b: seq<byte>)
    requires IsUint32(n)
    ensures |b| == 4
  {
    [n / 0x100_0000, n / 0x1_0000 % 0x100, n / 0x100 % 0x100, n % 0x100]
  }

  function GetUint32(b: seq<byte>): (n: nat)
    requires |b| == 4
    ensures IsUint32(n)
  {
    ((b[0] as int * 0x100 + b[1] as int) * 0x100 + b[2] as int) * 0x100 + b[3] as int
  }

  function SenderBytes(sender: Option<seq<byte>>): seq<byte> {
    if sender.None? then [] else sender.value
  }

  function Encode(epoch: int, counter: int, sender: Option<seq<byte>>): Result<seq<byte>, HeaderError> {
    if !IsUint32(epoch) then Err(BadEpoch)
    else if !IsUint32(counter) then Err(BadCounter)
    else if |SenderBytes(sender)| > 255 then Err(SenderTooLong)
    else Ok([FRAME_VERSION, |SenderBytes(sender)|] + SenderBytes(sender) + PutUint32(epoch) + PutUint32(counter))
  }

  function Decode(bytes: seq<byte>): Result<Header, HeaderError> {
    if |bytes| < FRAME_HEADER_BYTES then Err(TooShort)
    else if bytes[0] != FRAME_VERSION then Err(BadVersion(bytes[0]))
    else
      var tail := 2 + bytes[1] as int;
      if |bytes| < tail + 8 then Err(TooShort)
      else Ok(Header(if bytes[1] == 0 then None else Some(bytes[2..tail]),
                     GetUint32(bytes[tail..tail + 4]),
                     GetUint32(bytes[tail + 4..tail + 8]),
                     bytes[tail + 8..]))
  }

  lemma Uint32RoundTrip(n: int)
    requires IsUint32(n)
    ensures GetUint32(PutUint32(n)) == n
  {
    var high, mid := n / 0x1_0000, n / 0x100;
    assert n / 0x100_0000 == high / 0x100 && n / 0x1_0000 == mid / 0x100;
    assert high / 0x100 * 0x100 + high % 0x100 == high;
    assert mid / 0x100 * 0x100 + mid % 0x100 == mid;
  }

  lemma BytesRoundTrip(b: seq<byte>)
    requires |b| == 4
    ensures PutUint32(GetUint32(b)) == b
  {
    var b0: int, b1: int, b2: int, b3: int := b[0], b[1], b[2], b[3];
    var n := GetUint32(b);
    var high := b0 * 0x100 + b1;
    var mid := high * 0x100 + b2;
    assert n == mid * 0x100 + b3;
    assert n / 0x100 == mid && n % 0x100 == b3;
    assert mid / 0x100 == high && mid % 0x100 == b2;
    assert n / 0x1_0000 == high;
    assert n / 0x100_0000 == b0;
  }

  /**
   An encoded header in front of any body decodes to what was encoded, and to
   that body. The one sender that does not come back is the empty string, which
   is encoded as no sender.
   */
  lemma DecodeEncode(epoch: int, counter: int, sender: Option<seq<byte>>, body: seq<byte>)
    requires Encode(epoch, counter, sender).Ok?
    ensures
      var wire := Encode(epoch, counter, sender).value + body;
      && Decode(wire) == Ok(Header(if sender == Some([]) then None else sender, epoch, counter, body))
      && (Decode(wire) == Ok(Header(sender, epoch, counter, body)) <==> sender != Some([]))
  {
    var id := SenderBytes(sender);
    var wire := Encode(epoch, counter, sender).value + body;
    var tail := 2 + |id|;
    assert wire[0] == FRAME_VERSION && wire[1] == |id|;
    assert wire[2..tail] == id;
    assert wire[tail..tail + 4] == PutUint32(epoch);
    assert wire[tail + 4..tail + 8] == PutUint32(counter);
    assert wire[tail + 8..] == body;
    Uint32RoundTrip(epoch);
    Uint32RoundTrip(counter);
  }

  /** Whatever the decoder accepts re-encodes to the very bytes it was given. */
  lemma EncodeDecode(bytes: seq<byte>)
    requires Decode(bytes).Ok?
    ensures
      var h := Decode(bytes).value;
      Encode(h.epoch, h.counter, h.sender).Ok? && Encode(h.epoch, h.counter, h.sender).value + h.body == bytes
  {
    var h := Decode(bytes).value;
    var tail := 2 + bytes[1] as int;
    BytesRoundTrip(bytes[tail..tail + 4]);
    BytesRoundTrip(bytes[tail + 4..tail + 8]);
    assert SenderBytes(h.sender) == bytes[2..tail];
    var wire := Encode(h.epoch, h.counter, h.sender).value + h.body;
    assert wire == bytes[..2] + bytes[2..tail] + bytes[tail..tail + 4] + bytes[tail + 4..tail + 8] + bytes[tail + 8..];
  }

  /** The encoder as it fills its buffer. */
  method EncodeFrameHeader(epoch: int, counter: int, sender: Option<seq<byte>>) returns (r: Result<seq<byte>, HeaderError>)
    ensures r == Encode(epoch, counter, sender)
  {
    hide PutUint32;
    if epoch < 0 || epoch > UINT32_MAX {
      return Err(BadEpoch);
    }
    if counter < 0 || counter > UINT32_MAX {
      return Err(BadCounter);
    }
    var id := if sender.None? then [] else sender.value;
    if |id| > 255 {
      return Err(SenderTooLong);
    }
    var header := new byte[1 + 1 + |id| + 4 + 4];
    PutSender(header, id);
    var tail := 2 + |id|;
    SetUint32(header, tail, epoch);
    assert header[..tail + 4] == header[..tail] + header[tail..tail + 4];
    SetUint32(header, tail + 4, counter);
    assert header[..] == header[..tail + 4] + header[tail + 4..tail + 8];
    return Ok(header[..]);
  }

  /** Version, length and text of the sender, at the front. */
  method PutSender(header: array<byte>, id: seq<byte>)
    requires |id| <= 255 && header.Length == 2 + |id| + 8
    modifies header
    ensures header[..2 + |id|] == [FRAME_VERSION, |id|] + id
  {
    header[0] := FRAME_VERSION;
    header[1] := |id|;
    for i := 0 to |id|
      invariant header[..2 + i] == [FRAME_VERSION, |id|] + id[..i]
    {
      header[2 + i] := id[i];
    }
    assert id[..|id|] == id;
  }

  method SetUint32(view: array<byte>, at: nat, n: int)
    requires at + 4 <= view.Length && IsUint32(n)
    modifies view
    ensures view[at..at + 4] == PutUint32(n)
    ensures view[..at] == old(view[..at]) && view[at + 4..] == old(view[at + 4..])
  {
    view[at] := n / 0x100_0000;
    view[at + 1] := n / 0x1_0000 % 0x100;
    view[at + 2] := n / 0x100 % 0x100;
    view[at + 3] := n % 0x100;
  }
}
