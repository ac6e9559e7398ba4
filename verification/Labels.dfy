/**
 What the derivation and AAD texts say, read back field by field; and that keys and
 sealed blobs of one room, epoch or pair of peers are of no use in another.
 */
module Labels {
  import opened Common
  import opened Text
  import opened Utf16Order
  import opened Crypto
  import FrameSpec
  import Sorting

  // ---------------------------------------------------------------------------
  // The texts
  // ---------------------------------------------------------------------------

  predicate NoBar(s: string) {
    '|' !in s
  }

  /** `n` written in decimal, and nothing else. */
  predicate Writes(s: string, n: nat) {
    s != "" && (forall i :: 0 <= i < |s| ==> 48 <= s[i] as int <= 57) && Number(s) == n && (s[0] as int == 48 ==> n == 0 && |s| == 1)
  }

  lemma DecimalWrites(n: nat)
    ensures Writes(Decimal(n), n) && NoBar(Decimal(n))
  {
    DecimalReads(n);
    DecimalHasNoBar(n);
  }

  /** A text is the given fields with bars between them, the numbers in decimal. */
  predicate Spells(text: string, fields: seq<string>) {
    SplitBars(text) == fields
  }

  lemma SealAadSpells(roomId: string, epoch: nat, fromId: PeerId, toId: PeerId)
    requires NoBar(roomId) && NoBar(fromId) && NoBar(toId)
    ensures exists e :: Writes(e, epoch) && Spells(SealAad(roomId, epoch, fromId, toId), ["burble-e2ee-group-v1", roomId, e, fromId, toId])
  {
    DecimalWrites(epoch);
    LabelsHaveNoBar();
    SplitUndoesJoin([LABEL_GROUP, roomId, Decimal(epoch), fromId, toId]);
    assert Spells(SealAad(roomId, epoch, fromId, toId), ["burble-e2ee-group-v1", roomId, Decimal(epoch), fromId, toId]);
  }

  lemma FrameAadSpells(roomId: string, epoch: nat, senderId: PeerId, counter: nat)
    requires NoBar(roomId) && NoBar(senderId)
    ensures exists e, n :: Writes(e, epoch) && Writes(n, counter)
              && Spells(FrameAad(roomId, epoch, senderId, counter), ["frame-aad", roomId, e, senderId, n])
  {
    DecimalWrites(epoch);
    DecimalWrites(counter);
    LabelsHaveNoBar();
    SplitUndoesJoin([LABEL_FRAME_AAD, roomId, Decimal(epoch), senderId, Decimal(counter)]);
    assert Spells(FrameAad(roomId, epoch, senderId, counter), ["frame-aad", roomId, Decimal(epoch), senderId, Decimal(counter)]);
  }

  lemma LabelsHaveNoBar()
    ensures NoBar(LABEL_GROUP) && NoBar(LABEL_FRAME_AAD) && NoBar(LABEL_PAIRWISE) && NoBar(LABEL_FRAME)
    ensures NoBar("pairwise") && NoBar("frame") && NoBar("sender")
  {}

  /** The salt names room and epoch, the info both peers, the lower id first. */
  lemma PairwiseSpells(priv: nat, pub: PublicKey, roomId: string, epoch: nat, myId: PeerId, theirId: PeerId)
    requires NoBar(roomId) && NoBar(myId) && NoBar(theirId)
    ensures
      var key := DerivePairwise(priv, pub, roomId, epoch, myId, theirId);
      && (exists e :: Writes(e, epoch) && Spells(key.salt, ["pairwise", roomId, e]))
      && (exists low, high :: multiset{low, high} == multiset{myId, theirId} && !Utf16Less(high, low)
                              && Spells(key.info, ["burble-e2ee-pairwise-v1", low, high]))
  {
    hide Sort, JoinBars, Decimal, SplitBars, Spells, Writes, Utf16Less;
    SaltSpells(roomId, epoch);
    InfoSpells(myId, theirId);
  }

  lemma SaltSpells(roomId: string, epoch: nat)
    requires NoBar(roomId)
    ensures Writes(Decimal(epoch), epoch)
    ensures Spells("pairwise" + [BAR] + roomId + [BAR] + Decimal(epoch), ["pairwise", roomId, Decimal(epoch)])
  {
    hide Decimal;
    DecimalWrites(epoch);
    LabelsHaveNoBar();
    JoinThree("pairwise", roomId, Decimal(epoch));
    SplitUndoesJoin(["pairwise", roomId, Decimal(epoch)]);
  }

  lemma InfoSpells(a: PeerId, b: PeerId)
    requires NoBar(a) && NoBar(b)
    ensures
      var ids := Sort([a, b]);
      && |ids| == 2 && multiset{ids[0], ids[1]} == multiset{a, b} && !Utf16Less(ids[1], ids[0])
      && Spells(LABEL_PAIRWISE + [BAR] + JoinBars(ids), ["burble-e2ee-pairwise-v1", ids[0], ids[1]])
  {
    hide Utf16Less, SplitBars;
    LabelsHaveNoBar();
    SortedPair(a, b);
    var ids := Sort([a, b]);
    JoinThree(LABEL_PAIRWISE, ids[0], ids[1]);
    JoinTwo(ids[0], ids[1]);
    assert ids == [ids[0], ids[1]];
    SplitUndoesJoin([LABEL_PAIRWISE, ids[0], ids[1]]);
  }

  lemma JoinTwo(a: string, b: string)
    ensures JoinBars([a, b]) == a + ['|'] + b
  {
    assert [a, b][1..] == [b];
  }

  lemma JoinThree(a: string, b: string, c: string)
    ensures JoinBars([a, b, c]) == a + ['|'] + b + ['|'] + c == a + ['|'] + (b + ['|'] + c)
  {
    assert [a, b, c][1..] == [b, c];
    JoinTwo(b, c);
  }

  lemma SortedPair(a: PeerId, b: PeerId)
    ensures
      var ids := Sort([a, b]);
      |ids| == 2 && multiset{ids[0], ids[1]} == multiset{a, b} && !Utf16Less(ids[1], ids[0]) && ids[0] in {a, b} && ids[1] in {a, b}
  {
    var ids := Sort([a, b]);
    Utf16IsTotal();
    Sorting.SortAscends(Utf16Less, [a, b]);
    assert multiset([a, b]) == multiset{a, b} && |multiset(ids)| == |ids|;
    assert ids == [ids[0], ids[1]] && multiset(ids) == multiset{ids[0], ids[1]};
    assert ids[0] in multiset(ids) && ids[1] in multiset(ids);
  }

  lemma FrameKeySpells(key: GroupKey, epoch: nat, senderId: string, counter: nat)
    requires NoBar(senderId)
    ensures
      var k := FrameSpec.DeriveFrameKey(key, epoch, senderId, counter);
      && k.key == key
      && (exists e :: Writes(e, epoch) && Spells(k.salt, ["frame", e]))
      && (exists n :: Writes(n, counter) && Spells(k.info, ["burble-e2ee-frame-v1", "sender", senderId, n]))
  {
    var k := FrameSpec.DeriveFrameKey(key, epoch, senderId, counter);
    DecimalWrites(epoch);
    DecimalWrites(counter);
    LabelsHaveNoBar();
    var fields := ["burble-e2ee-frame-v1", "sender", senderId, Decimal(counter)];
    JoinTwo("frame", Decimal(epoch));
    SplitUndoesJoin(["frame", Decimal(epoch)]);
    assert Spells(k.salt, ["frame", Decimal(epoch)]);
    assert fields[1..] == ["sender", senderId, Decimal(counter)];
    JoinThree("sender", senderId, Decimal(counter));
    assert k.info == JoinBars(fields);
    SplitUndoesJoin(fields);
    assert Spells(k.info, fields);
  }

  /** A sealed key and a sealed frame carry these very texts. */
  lemma SealedSpells(k: GroupKey, w: PairwiseKey, roomId: string, epoch: nat, fromId: PeerId, toId: PeerId)
    requires NoBar(roomId) && NoBar(fromId) && NoBar(toId)
    ensures
      var blob := SealGroupKey(k, w, roomId, epoch, fromId, toId);
      && blob.key == w && blob.plain == k
      && exists e :: Writes(e, epoch) && Spells(blob.aad, ["burble-e2ee-group-v1", roomId, e, fromId, toId])
  {
    hide SealAad;
    SealAadSpells(roomId, epoch, fromId, toId);
  }

  lemma SealedFrameSpells(c: FrameSpec.Cryptor, t: FrameSpec.Tracker, plain: FrameSpec.Plain)
    requires NoBar(c.roomId) && NoBar(c.localId) && FrameSpec.Seal(c, t, plain).1.Ok?
    ensures
      var wire := FrameSpec.Seal(c, t, plain).1.value;
      && wire.head == Some(FrameSpec.Head(c.localId, t.epoch, c.counter))
      && wire.body.Cipher? && wire.body.plain == plain && Some(wire.body.key.key) == t.roomKey
      && (exists e :: Writes(e, t.epoch) && Spells(wire.body.key.salt, ["frame", e]))
      && (exists n :: Writes(n, c.counter) && Spells(wire.body.key.info, ["burble-e2ee-frame-v1", "sender", c.localId, n]))
      && (exists e, n :: Writes(e, t.epoch) && Writes(n, c.counter)
                         && Spells(wire.body.aad, ["frame-aad", c.roomId, e, c.localId, n]))
  {
    hide FrameAad, FrameSpec.DeriveFrameKey, SplitBars, Writes;
    FrameKeySpells(t.roomKey.value, t.epoch, c.localId, c.counter);
    FrameAadSpells(c.roomId, t.epoch, c.localId, c.counter);
  }

  // ---------------------------------------------------------------------------
  // Keys of different rooms, epochs and pairs
  // ---------------------------------------------------------------------------

  lemma AgreeNames(p: nat, q: nat, p': nat, q': nat)
    requires Agree(p, Pub(q)) == Agree(p', Pub(q'))
    ensures multiset{p, q} == multiset{p', q'}
  {
  }

  lemma SaltNames(r: string, e: nat, r': string, e': nat)
    requires "pairwise" + [BAR] + r + [BAR] + Decimal(e) == "pairwise" + [BAR] + r' + [BAR] + Decimal(e')
    ensures r == r' && e == e'
  {
    hide Decimal;
    DecimalHasNoBar(e);
    DecimalHasNoBar(e');
    var head := "pairwise" + [BAR];
    CutAtLastBar(head + r, Decimal(e), head + r', Decimal(e'));
    SameTail(head, r, r');
    DecimalInjective(e, e');
  }

  lemma InfoNames(a: PeerId, b: PeerId, a': PeerId, b': PeerId)
    requires LABEL_PAIRWISE + [BAR] + JoinBars(Sort([a, b])) == LABEL_PAIRWISE + [BAR] + JoinBars(Sort([a', b']))
    requires NoBar(a) && NoBar(b) && NoBar(a') && NoBar(b')
    ensures multiset{a, b} == multiset{a', b'}
  {
    SortedPair(a, b);
    SortedPair(a', b');
    hide Sort, JoinBars, Utf16Less;
    SameFields(Sort([a, b]), Sort([a', b']));
  }

  lemma SameFields(ids: seq<string>, ids': seq<string>)
    requires |ids| > 0 && |ids'| > 0 && BarFree(ids) && BarFree(ids')
    requires LABEL_PAIRWISE + [BAR] + JoinBars(ids) == LABEL_PAIRWISE + [BAR] + JoinBars(ids')
    ensures ids == ids'
  {
    SameTail(LABEL_PAIRWISE + [BAR], JoinBars(ids), JoinBars(ids'));
    JoinBarsInjective(ids, ids');
  }

  lemma SameTail(head: string, x: string, y: string)
    requires head + x == head + y
    ensures x == y
  {
    assert x == (head + x)[|head|..] && y == (head + y)[|head|..];
  }

  /** A pairwise key belongs to one room, epoch and pair of private keys, and for ids without bars to one pair of peers. */
  lemma PairwiseKeyInjective(p: nat, q: nat, r: string, e: nat, a: PeerId, b: PeerId,
                             p': nat, q': nat, r': string, e': nat, a': PeerId, b': PeerId)
    requires DerivePairwise(p, Pub(q), r, e, a, b) == DerivePairwise(p', Pub(q'), r', e', a', b')
    ensures r == r' && e == e' && multiset{p, q} == multiset{p', q'}
    ensures NoBar(a) && NoBar(b) && NoBar(a') && NoBar(b') ==> multiset{a, b} == multiset{a', b'}
  {
    hide Sort, JoinBars, Decimal, Agree, NoBar;
    AgreeNames(p, q, p', q');
    SaltNames(r, e, r', e');
    if NoBar(a) && NoBar(b) && NoBar(a') && NoBar(b') {
      InfoNames(a, b, a', b');
    }
  }

  /** A blob sealed with the key of one room and epoch opens with no key derived for another, whatever the labels. */
  lemma KeysDoNotTravel(k: GroupKey, p: nat, q: nat, r: string, e: nat, a: PeerId, b: PeerId,
                        p': nat, q': nat, r': string, e': nat, a': PeerId, b': PeerId,
                        sealedRoom: string, sealedEpoch: nat, from: PeerId, to: PeerId,
                        room: string, epoch: nat, from': PeerId, to': PeerId)
    requires r != r' || e != e' || multiset{p, q} != multiset{p', q'}
    ensures OpenGroupKey(SealGroupKey(k, DerivePairwise(p, Pub(q), r, e, a, b), sealedRoom, sealedEpoch, from, to),
                         DerivePairwise(p', Pub(q'), r', e', a', b'), room, epoch, from', to') == None
  {
    hide DerivePairwise, SealAad;
    if DerivePairwise(p, Pub(q), r, e, a, b) == DerivePairwise(p', Pub(q'), r', e', a', b') {
      PairwiseKeyInjective(p, q, r, e, a, b, p', q', r', e', a', b');
    }
  }

  /** What two peers derive for each other, one opens what the other sealed, and no third private key does. */
  lemma OnlyTheTwoOpen(k: GroupKey, p: nat, q: nat, roomId: string, epoch: nat, a: PeerId, b: PeerId, x: nat, y: nat)
    ensures
      var blob := SealGroupKey(k, DerivePairwise(p, Pub(q), roomId, epoch, a, b), roomId, epoch, a, b);
      OpenGroupKey(blob, DerivePairwise(x, Pub(y), roomId, epoch, b, a), roomId, epoch, a, b)
        == if multiset{x, y} == multiset{p, q} then Some(k) else None
  {
    hide SealAad;
    if multiset{x, y} == multiset{p, q} {
      PairwiseSymmetric(p, q, roomId, epoch, a, b);
      SortPairCommutes(a, b);
      TwoOfTwo(x, y, p, q);
    } else {
      KeysDoNotTravel(k, p, q, roomId, epoch, a, b, x, y, roomId, epoch, b, a, roomId, epoch, a, b, roomId, epoch, a, b);
    }
  }

  lemma TwoOfTwo(x: nat, y: nat, p: nat, q: nat)
    requires multiset{x, y} == multiset{p, q}
    ensures (x == p && y == q) || (x == q && y == p)
  {
    assert x in multiset{p, q} && y in multiset{p, q};
    if x == y {
      assert multiset{x, y}[x] == 2;
    }
  }
}
