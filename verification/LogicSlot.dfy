/** The user-id side of order sharding: SplitMix64 and the ten "gene" bits taken from it.
    A user id is its 64-bit word, as in `uint64(userID)`; genes and slots are small integers. */
module LogicSlot {

  /** A 64-bit machine word. */
  type Word = bv64


  // The stages of SplitMix64, named so that each can be undone by itself.
  function Advance(v: Word): Word { v + 0x9e3779b97f4a7c15 }
  function Fold30(v: Word): Word { v ^ (v >> 30) }
  function Scale1(v: Word): Word { v * 0xbf58476d1ce4e5b9 }
  function Fold27(v: Word): Word { v ^ (v >> 27) }
  function Scale2(v: Word): Word { v * 0x94d049bb133111eb }
  function Fold31(v: Word): Word { v ^ (v >> 31) }

  function SplitMix64(v: Word): Word {
    Fold31(Scale2(Fold27(Scale1(Fold30(Advance(v))))))
  }

  // The two genes of a user: the low five mixed bits choose the database, the next five the table.
  function DbGeneBits(userID: Word): bv5 { (SplitMix64(userID) & 31) as bv5 }
  function TableGeneBits(userID: Word): bv5 { ((SplitMix64(userID) >> 5) & 31) as bv5 }

  function DbGene(userID: Word): (g: int)
    ensures 0 <= g < 32
  {
    DbGeneBits(userID) as int
  }

  function TableGene(userID: Word): (g: int)
    ensures 0 <= g < 32
  {
    TableGeneBits(userID) as int
  }

  /** `dbGene << 5 | tableGene` on five-bit genes. */
  function SlotOfGenes(dbGene: int, tableGene: int): int {
    dbGene * 32 + tableGene
  }

  function LogicSlotByUserID(userID: Word): int {
    SlotOfGenes(DbGene(userID), TableGene(userID))
  }

  // ----- SplitMix64 is a bijection

  // A xor-shift is inverted by xoring the missing shifts back in, an odd multiplier by its
  // inverse modulo 2^64.
  function Retreat(v: Word): Word { v - 0x9e3779b97f4a7c15 }
  function Unfold30(w: Word): Word { w ^ (w >> 30) ^ (w >> 60) }
  function Unscale1(w: Word): Word { w * 0x96de1b173f119089 }
  function Unfold27(w: Word): Word { w ^ (w >> 27) ^ (w >> 54) }
  function Unscale2(w: Word): Word { w * 0x319642b2d24d8ec3 }
  function Unfold31(w: Word): Word { w ^ (w >> 31) ^ (w >> 62) }

  function Unmix64(w: Word): Word {
    Retreat(Unfold30(Unscale1(Unfold27(Unscale2(Unfold31(w))))))
  }

  lemma Fold30Undone(v: Word)
    ensures Unfold30(Fold30(v)) == v && Fold30(Unfold30(v)) == v
  {
    assert Unfold30(v ^ (v >> 30)) == v;
    assert Fold30(v ^ (v >> 30) ^ (v >> 60)) == v;
  }

  lemma Fold27Undone(v: Word)
    ensures Unfold27(Fold27(v)) == v && Fold27(Unfold27(v)) == v
  {
    assert Unfold27(v ^ (v >> 27)) == v;
    assert Fold27(v ^ (v >> 27) ^ (v >> 54)) == v;
  }

  lemma Fold31Undone(v: Word)
    ensures Unfold31(Fold31(v)) == v && Fold31(Unfold31(v)) == v
  {
    assert Unfold31(v ^ (v >> 31)) == v;
    assert Fold31(v ^ (v >> 31) ^ (v >> 62)) == v;
  }

  lemma Scale1Undone(v: Word)
    ensures Unscale1(Scale1(v)) == v && Scale1(Unscale1(v)) == v
  {
    assert Unscale1(v * 0xbf58476d1ce4e5b9) == v;
    assert Scale1(v * 0x96de1b173f119089) == v;
  }

  lemma Scale2Undone(v: Word)
    ensures Unscale2(Scale2(v)) == v && Scale2(Unscale2(v)) == v
  {
    assert Unscale2(v * 0x94d049bb133111eb) == v;
    assert Scale2(v * 0x319642b2d24d8ec3) == v;
  }

  lemma UnmixAfterMix(v: Word)
    ensures Unmix64(SplitMix64(v)) == v
  {
    hide Fold30, Scale1, Fold27, Scale2, Fold31, Unfold30, Unscale1, Unfold27, Unscale2, Unfold31;
    var a := Advance(v);
    var b := Scale1(Fold30(a));
    Fold30Undone(a);
    Scale1Undone(Fold30(a));
    Fold27Undone(b);
    Scale2Undone(Fold27(b));
    Fold31Undone(Scale2(Fold27(b)));
  }

  lemma MixAfterUnmix(w: Word)
    ensures SplitMix64(Unmix64(w)) == w
  {
    hide Fold30, Scale1, Fold27, Scale2, Fold31, Unfold30, Unscale1, Unfold27, Unscale2, Unfold31;
    var b := Unscale2(Unfold31(w));
    var a := Unscale1(Unfold27(b));
    Fold31Undone(w);
    Scale2Undone(Unfold31(w));
    Fold27Undone(b);
    Scale1Undone(Unfold27(b));
    Fold30Undone(a);
  }

  /** SplitMix64 is injective and onto. */
  lemma SplitMixBijective(u: Word, v: Word)
    ensures SplitMix64(u) == SplitMix64(v) <==> u == v
    ensures exists x :: SplitMix64(x) == v
  {
    UnmixAfterMix(u);
    UnmixAfterMix(v);
    MixAfterUnmix(v);
  }

  // ----- every slot has exactly 2^54 users

  /** A user's position within its slot. */
  function RankInSlot(userID: Word): Word {
    SplitMix64(userID) >> 10
  }

  /** The mixed word with the given genes and rank. */
  function Compose(dbGene: bv5, tableGene: bv5, rank: Word): Word {
    (rank << 10) | ((tableGene as Word) << 5) | (dbGene as Word)
  }

  /** The user at a position of a slot. */
  function UserAt(slot: int, rank: Word): Word
    requires 0 <= slot < 1024
  {
    Unmix64(Compose((slot / 32) as bv5, (slot % 32) as bv5, rank))
  }

  lemma ComposeSplit(w: Word)
    ensures w >> 10 < 0x40_0000_0000_0000
    ensures Compose((w & 31) as bv5, ((w >> 5) & 31) as bv5, w >> 10) == w
  {}

  lemma SplitCompose(dbGene: bv5, tableGene: bv5, rank: Word)
    requires rank < 0x40_0000_0000_0000
    ensures var w := Compose(dbGene, tableGene, rank);
            w >> 10 == rank && (w & 31) as bv5 == dbGene && ((w >> 5) & 31) as bv5 == tableGene
  {}

  lemma SlotHalves(dbGene: int, tableGene: int)
    requires 0 <= dbGene < 32 && 0 <= tableGene < 32
    ensures var slot := SlotOfGenes(dbGene, tableGene);
            0 <= slot < 1024 && slot / 32 == dbGene && slot % 32 == tableGene
  {}

  lemma GeneToInt(n: int)
    requires 0 <= n < 32
    ensures (n as bv5) as int == n
  {}

  lemma IntToGene(g: bv5)
    ensures (g as int) as bv5 == g
  {}

  lemma SlotInRange(userID: Word)
    ensures 0 <= LogicSlotByUserID(userID) < 1024
  {
    hide DbGene, TableGene;
    SlotHalves(DbGene(userID), TableGene(userID));
  }

  /** RankInSlot and UserAt are mutually inverse between all user ids and
      {0, ..., 1023} x {0, ..., 2^54 - 1}: every slot holds exactly 2^54 ids. */
  lemma SlotsAreEven(userID: Word, slot: int, rank: Word)
    requires 0 <= slot < 1024 && rank < 0x40_0000_0000_0000
    ensures 0 <= LogicSlotByUserID(userID) < 1024 && RankInSlot(userID) < 0x40_0000_0000_0000
    ensures UserAt(LogicSlotByUserID(userID), RankInSlot(userID)) == userID
    ensures LogicSlotByUserID(UserAt(slot, rank)) == slot && RankInSlot(UserAt(slot, rank)) == rank
  {
    UserIsAtItsRank(userID);
    RankOfUserAt(slot, rank);
  }

  lemma UserIsAtItsRank(userID: Word)
    ensures 0 <= LogicSlotByUserID(userID) < 1024 && RankInSlot(userID) < 0x40_0000_0000_0000
    ensures UserAt(LogicSlotByUserID(userID), RankInSlot(userID)) == userID
  {
    hide SplitMix64, Unmix64, Compose;
    SlotHalves(DbGene(userID), TableGene(userID));
    IntToGene(DbGeneBits(userID));
    IntToGene(TableGeneBits(userID));
    ComposeSplit(SplitMix64(userID));
    UnmixAfterMix(userID);
  }

  lemma RankOfUserAt(slot: int, rank: Word)
    requires 0 <= slot < 1024 && rank < 0x40_0000_0000_0000
    ensures LogicSlotByUserID(UserAt(slot, rank)) == slot && RankInSlot(UserAt(slot, rank)) == rank
  {
    hide SplitMix64, Unmix64, Compose;
    GeneToInt(slot / 32);
    GeneToInt(slot % 32);
    SplitCompose((slot / 32) as bv5, (slot % 32) as bv5, rank);
    MixAfterUnmix(Compose((slot / 32) as bv5, (slot % 32) as bv5, rank));
  }
}
