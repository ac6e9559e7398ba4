/**
 The peer-side crypto, symbolically. A key derivation is a constructor over its
 inputs, sealing is a constructor over key, AAD and plaintext, and opening
 succeeds exactly when key and AAD are the ones sealed with. The texts that go
 into salts, infos and AADs are the program's own.
 */
module Crypto {
  import opened Common
  import opened Text
  import opened Utf16Order

  type PeerId = string

  // ---------------------------------------------------------------------------
  // AAD texts
  // ---------------------------------------------------------------------------

  const LABEL_PAIRWISE := "burble-e2ee-pairwise-v1"
  const LABEL_GROUP := "burble-e2ee-group-v1"
  const LABEL_FRAME := "burble-e2ee-frame-v1"
  const LABEL_FRAME_AAD := "frame-aad"

  function SealAad(roomId: string, epoch: nat, fromId: PeerId, toId: PeerId): string {
    JoinBars([LABEL_GROUP, roomId, Decimal(epoch), fromId, toId])
  }

  function FrameAad(roomId: string, epoch: nat, senderId: PeerId, counter: nat): string {
    JoinBars([LABEL_FRAME_AAD, roomId, Decimal(epoch), senderId, Decimal(counter)])
  }

  lemma SealAadBarFree(roomId: string, epoch: nat, fromId: PeerId, toId: PeerId)
    requires BAR !in roomId && BAR !in fromId && BAR !in toId
    ensures BarFree([LABEL_GROUP, roomId, Decimal(epoch), fromId, toId])
  {
    DecimalHasNoBar(epoch);
  }

  lemma FrameAadBarFree(roomId: string, epoch: nat, senderId: PeerId, counter: nat)
    requires BAR !in roomId && BAR !in senderId
    ensures BarFree([LABEL_FRAME_AAD, roomId, Decimal(epoch), senderId, Decimal(counter)])
  {
    DecimalHasNoBar(epoch);
    DecimalHasNoBar(counter);
  }

  /** A sealed blob's AAD names its room, epoch, sender and recipient. */
  lemma SealAadInjective(r: string, e: nat, f: PeerId, t: PeerId, r': string, e': nat, f': PeerId, t': PeerId)
    requires BAR !in r && BAR !in f && BAR !in t && BAR !in r' && BAR !in f' && BAR !in t'
    requires SealAad(r, e, f, t) == SealAad(r', e', f', t')
    ensures r == r' && e == e' && f == f' && t == t'
  {
    var a, b := [LABEL_GROUP, r, Decimal(e), f, t], [LABEL_GROUP, r', Decimal(e'), f', t'];
    SealAadBarFree(r, e, f, t);
    SealAadBarFree(r', e', f', t');
    JoinBarsInjective(a, b);
    assert a[1] == b[1] && a[2] == b[2] && a[3] == b[3] && a[4] == b[4];
    DecimalInjective(e, e');
  }

  /** A frame's AAD names its room, epoch, sender and counter. */
  lemma FrameAadInjective(r: string, e: nat, s: PeerId, c: nat, r': string, e': nat, s': PeerId, c': nat)
    requires BAR !in r && BAR !in s && BAR !in r' && BAR !in s'
    requires FrameAad(r, e, s, c) == FrameAad(r', e', s', c')
    ensures r == r' && e == e' && s == s' && c == c'
  {
    var a, b := [LABEL_FRAME_AAD, r, Decimal(e), s, Decimal(c)], [LABEL_FRAME_AAD, r', Decimal(e'), s', Decimal(c')];
    FrameAadBarFree(r, e, s, c);
    FrameAadBarFree(r', e', s', c');
    JoinBarsInjective(a, b);
    assert a[1] == b[1] && a[2] == b[2] && a[3] == b[3] && a[4] == b[4];
    DecimalInjective(e, e');
    DecimalInjective(c, c');
  }

  /** No frame AAD is ever a sealed-key AAD: the first field tells them apart, whatever the ids hold. */
  lemma AadPurposesDisjoint(r: string, e: nat, s: PeerId, c: nat, r': string, e': nat, f: PeerId, t: PeerId)
    ensures FrameAad(r, e, s, c) != SealAad(r', e', f, t)
  {
    assert FrameAad(r, e, s, c)[0] == 'f';
    assert SealAad(r', e', f, t)[0] == 'b';
  }

  /** The part of a sealed blob's AAD that one room and epoch fix. */
  function SealAadHead(roomId: string, epoch: nat): string {
    LABEL_GROUP + [BAR] + roomId + [BAR] + Decimal(epoch) + [BAR]
  }

  lemma SealAadSplits(roomId: string, epoch: nat, fromId: PeerId, toId: PeerId)
    ensures SealAad(roomId, epoch, fromId, toId) == SealAadHead(roomId, epoch) + (fromId + [BAR] + toId)
  {
    var d := Decimal(epoch);
    var f1, f2, f3 := [roomId, d, fromId, toId], [d, fromId, toId], [fromId, toId];
    assert [LABEL_GROUP, roomId, d, fromId, toId][1..] == f1;
    assert f1[1..] == f2 && f2[1..] == f3 && f3[1..] == [toId];
    assert JoinBars(f3) == fromId + [BAR] + toId;
    assert JoinBars(f2) == d + [BAR] + JoinBars(f3);
    assert JoinBars(f1) == roomId + [BAR] + JoinBars(f2);
    assert SealAad(roomId, epoch, fromId, toId) == LABEL_GROUP + [BAR] + JoinBars(f1);
  }

  /** Within one room a sealed blob's AAD names the epoch, whatever the ids hold. */
  lemma SealAadNamesEpoch(r: string, e: nat, f: PeerId, t: PeerId, e': nat, f': PeerId, t': PeerId)
    requires SealAad(r, e, f, t) == SealAad(r, e', f', t')
    ensures e == e'
  {
    SealAadSplits(r, e, f, t);
    SealAadSplits(r, e', f', t');
    var head := LABEL_GROUP + [BAR] + r + [BAR];
    var x, x' := f + [BAR] + t, f' + [BAR] + t';
    assert SealAad(r, e, f, t)[|head|..] == Decimal(e) + [BAR] + x;
    assert SealAad(r, e', f', t')[|head|..] == Decimal(e') + [BAR] + x';
    DecimalHasNoBar(e);
    DecimalHasNoBar(e');
    CutAtFirstBar(Decimal(e), x, Decimal(e'), x');
    DecimalInjective(e, e');
  }

  /**
   Within one room and epoch, the AAD of `from -> to` can be produced by another
   pair of peers exactly when one of the two ids holds a bar.
   */
  lemma SealAadAmbiguousIffBar(r: string, e: nat, f: PeerId, t: PeerId)
    ensures (exists f', t' :: (f', t') != (f, t) && SealAad(r, e, f', t') == SealAad(r, e, f, t))
            <==> BAR in f || BAR in t
  {
    var head := SealAadHead(r, e);
    SealAadSplits(r, e, f, t);
    if BAR in f {
      var i :| 0 <= i < |f| && f[i] == BAR;
      var f', t' := f[..i], f[i + 1..] + [BAR] + t;
      SealAadSplits(r, e, f', t');
      assert f + [BAR] + t == f' + [BAR] + t';
      assert |f'| < |f|;
    } else if BAR in t {
      var i :| 0 <= i < |t| && t[i] == BAR;
      var f', t' := f + [BAR] + t[..i], t[i + 1..];
      SealAadSplits(r, e, f', t');
      assert f + [BAR] + t == f' + [BAR] + t';
      assert |f'| > |f|;
    } else {
      forall f', t' | SealAad(r, e, f', t') == SealAad(r, e, f, t) ensures (f', t') == (f, t) {
        SealAadSplits(r, e, f', t');
        var s, s' := f + [BAR] + t, f' + [BAR] + t';
        assert s == SealAad(r, e, f, t)[|head|..] && s' == SealAad(r, e, f, t)[|head|..];
        assert s[|f'|] == BAR && s[|f|] == BAR;
        assert |f'| == |f|;
        assert f' == s[..|f|] && t' == s[|f| + 1..] && f == s[..|f|] && t == s[|f| + 1..];
      }
    }
  }

  // ---------------------------------------------------------------------------
  // Pairwise agreement
  // ---------------------------------------------------------------------------

  /** The public half of private key `priv`. */
  datatype PublicKey = Pub(priv: nat)

  datatype SharedSecret = Shared(low: nat, high: nat)

  /** HKDF over a shared secret, a salt text and an info text. */
  datatype PairwiseKey = PairwiseKey(secret: SharedSecret, salt: string, info: string)

  function Agree(priv: nat, pub: PublicKey): SharedSecret {
    if priv <= pub.priv then Shared(priv, pub.priv) else Shared(pub.priv, priv)
  }

  function DerivePairwise(priv: nat, pub: PublicKey, roomId: string, epoch: nat, myId: PeerId, theirId: PeerId)
    : PairwiseKey
  {
    PairwiseKey(Agree(priv, pub),
                "pairwise" + [BAR] + roomId + [BAR] + Decimal(epoch),
                LABEL_PAIRWISE + [BAR] + JoinBars(Sort([myId, theirId])))
  }

  /** The derivation is symmetric: swapping own and other peer changes nothing. */
  lemma PairwiseSymmetric(p: nat, q: nat, roomId: string, epoch: nat, a: PeerId, b: PeerId)
    ensures DerivePairwise(p, Pub(q), roomId, epoch, a, b) == DerivePairwise(q, Pub(p), roomId, epoch, b, a)
  {
    SortPairCommutes(a, b);
  }

  // ---------------------------------------------------------------------------
  // Sealing a room key
  // ---------------------------------------------------------------------------

  /** A room key, identified by the peer that drew it, the epoch it was drawn for and the draw. */
  datatype GroupKey = GroupKey(minter: PeerId, epoch: nat, draw: nat)

  datatype Blob = Blob(key: PairwiseKey, aad: string, plain: GroupKey)

  /** One end of the pairwise key is `priv`. */
  predicate Uses(blob: Blob, priv: nat) {
    blob.key.secret.low == priv || blob.key.secret.high == priv
  }

  function SealGroupKey(key: GroupKey, pairwise: PairwiseKey, roomId: string, epoch: nat, fromId: PeerId, toId: PeerId)
    : Blob
  {
    Blob(pairwise, SealAad(roomId, epoch, fromId, toId), key)
  }

  function OpenGroupKey(blob: Blob, pairwise: PairwiseKey, roomId: string, epoch: nat, fromId: PeerId, toId: PeerId)
    : Option<GroupKey>
  {
    if blob.key == pairwise && blob.aad == SealAad(roomId, epoch, fromId, toId) then Some(blob.plain) else None
  }

  /** What the sender seals for the recipient opens there, to the key that was sealed. */
  lemma SealOpenRoundTrip(k: GroupKey, p: nat, q: nat, roomId: string, epoch: nat, a: PeerId, b: PeerId)
    ensures OpenGroupKey(SealGroupKey(k, DerivePairwise(p, Pub(q), roomId, epoch, a, b), roomId, epoch, a, b),
                         DerivePairwise(q, Pub(p), roomId, epoch, b, a), roomId, epoch, a, b) == Some(k)
  {
    PairwiseSymmetric(p, q, roomId, epoch, a, b);
  }

  /** A blob that opens at all opens under the labels it was sealed with, and under no others. */
  lemma OpensOnlyAsSealed(k: GroupKey, w: PairwiseKey, r: string, e: nat, f: PeerId, t: PeerId,
                          w': PairwiseKey, r': string, e': nat, f': PeerId, t': PeerId)
    requires BAR !in r && BAR !in f && BAR !in t && BAR !in r' && BAR !in f' && BAR !in t'
    ensures OpenGroupKey(SealGroupKey(k, w, r, e, f, t), w', r', e', f', t')
         == if (w', r', e', f', t') == (w, r, e, f, t) then Some(k) else None
  {
    if SealAad(r, e, f, t) == SealAad(r', e', f', t') {
      SealAadInjective(r, e, f, t, r', e', f', t');
    }
  }
}
