/** Order numbers: time, two genes, worker and sequence packed in one non-negative int64.
    All fields are non-negative when they are packed and unpacked, so a left shift is a
    multiplication, a right shift a division, a mask a remainder, and the bitwise or of disjoint
    fields a sum. Clock readings are Unix seconds. */
module OrderNumber {
  import opened LogicSlot

  const EPOCH := 1767225600            // 2026-01-01T00:00:00Z
  const MAX_TIME_PART := 0x7fff_ffff
  const MAX_WORKER := 0x3ff
  const MAX_SEQUENCE := 0xfff
  const TOLERANCE := 604800            // seven days
  const INT64_LIMIT := 0x8000_0000_0000_0000

  datatype Parts = Parts(timePart: int, dbGene: int, tableGene: int, workerID: int, sequence: int) {
    predicate InRange() {
      && 0 <= timePart <= MAX_TIME_PART && 0 <= dbGene < 32 && 0 <= tableGene < 32
      && 0 <= workerID <= MAX_WORKER && 0 <= sequence <= MAX_SEQUENCE
    }

    function LogicSlot(): int {
      SlotOfGenes(dbGene, tableGene)
    }

    /** Fields compared left to right. */
    ghost predicate Before(that: Parts) {
      if timePart != that.timePart then timePart < that.timePart
      else if dbGene != that.dbGene then dbGene < that.dbGene
      else if tableGene != that.tableGene then tableGene < that.tableGene
      else if workerID != that.workerID then workerID < that.workerID
      else sequence < that.sequence
    }
  }

  datatype BuildResult = Built(number: int) | OutOfRange
  datatype ParseResult = Parsed(parts: Parts) | InvalidOrderNumber
  datatype SlotResult = Slot(slot: int) | NoSlot

  function Pack(p: Parts): int {
    p.timePart * 0x1_0000_0000 + p.dbGene * 0x800_0000 + p.tableGene * 0x40_0000 + p.workerID * 0x1000 + p.sequence
  }

  function Unpack(n: int): Parts {
    Parts(n / 0x1_0000_0000, n / 0x800_0000 % 32, n / 0x40_0000 % 32, n / 0x1000 % 0x400, n % 0x1000)
  }

  /** The fields of a number built for a user. */
  function PartsFor(userID: Word, now: int, workerID: int, seqNo: int): Parts {
    Parts(now - EPOCH, DbGene(userID), TableGene(userID), workerID, seqNo)
  }

  /** Go panics on the out-of-range arguments. */
  function BuildOrderNumber(userID: Word, now: int, workerID: int, seqNo: int): BuildResult {
    var p := PartsFor(userID, now, workerID, seqNo);
    if p.timePart < 0 || p.timePart > MAX_TIME_PART then OutOfRange
    else if workerID < 0 || workerID > MAX_WORKER then OutOfRange
    else if seqNo < 0 || seqNo > MAX_SEQUENCE then OutOfRange
    else Built(Pack(p))
  }

  predicate IsOldFormat(timePart: int, now: int) {
    timePart < 0 || timePart > MAX_TIME_PART || timePart > (now - EPOCH) + TOLERANCE
  }

  function ParseOrderNumber(orderNumber: int, now: int): ParseResult {
    if orderNumber <= 0 then InvalidOrderNumber
    else if IsOldFormat(orderNumber / 0x1_0000_0000, now) then InvalidOrderNumber
    else Parsed(Unpack(orderNumber))
  }

  function LogicSlotByOrderNumber(orderNumber: int, now: int): SlotResult {
    match ParseOrderNumber(orderNumber, now)
    case InvalidOrderNumber => NoSlot
    case Parsed(parts) => Slot(parts.LogicSlot())
  }

  // ----- layout

  lemma PackUnpack(n: int)
    requires 0 <= n < INT64_LIMIT
    ensures Unpack(n).InRange() && Pack(Unpack(n)) == n
  {
    var a := n / 0x1000;
    var b := n / 0x40_0000;
    var c := n / 0x800_0000;
    assert a / 0x400 == b && b / 32 == c && c / 32 == n / 0x1_0000_0000;
  }

  lemma UnpackPack(p: Parts)
    requires p.InRange()
    ensures Unpack(Pack(p)) == p && 0 <= Pack(p) < INT64_LIMIT
  {
    var c := p.timePart * 32 + p.dbGene;
    var b := c * 32 + p.tableGene;
    var a := b * 0x400 + p.workerID;
    var n := a * 0x1000 + p.sequence;
    assert Pack(p) == n;
    assert n / 0x1000 == a && n % 0x1000 == p.sequence;
    assert a / 0x400 == b && a % 0x400 == p.workerID;
    assert b / 32 == c && b % 32 == p.tableGene;
    assert c / 32 == p.timePart && c % 32 == p.dbGene;
    NestedShifts(n);
    hide Pack;
  }

  /** Shifting twice is shifting once. */
  lemma NestedShifts(n: int)
    requires n >= 0
    ensures n / 0x1000 / 0x400 == n / 0x40_0000
    ensures n / 0x40_0000 / 32 == n / 0x800_0000
    ensures n / 0x800_0000 / 32 == n / 0x1_0000_0000
  {}

  /** Exactly when a build succeeds; its result fits 63 bits and determines its fields. */
  lemma BuildSpec(userID: Word, now: int, workerID: int, seqNo: int)
    ensures BuildOrderNumber(userID, now, workerID, seqNo).Built? <==>
            0 <= now - EPOCH <= MAX_TIME_PART && 0 <= workerID <= MAX_WORKER && 0 <= seqNo <= MAX_SEQUENCE
    ensures var p := PartsFor(userID, now, workerID, seqNo);
            var b := BuildOrderNumber(userID, now, workerID, seqNo);
            b.Built? ==> p.InRange() && 0 <= b.number < INT64_LIMIT && Unpack(b.number) == p
  {
    hide DbGene, TableGene;
    var p := PartsFor(userID, now, workerID, seqNo);
    if p.InRange() {
      UnpackPack(p);
    }
  }

  // ----- round trips

  /** Build then parse returns all five fields, for exactly the numbers that are not zero and whose
      time part the reader's clock accepts; nothing else is ever returned for a built number. */
  lemma BuildParseRoundTrip(userID: Word, now: int, workerID: int, seqNo: int, later: int)
    requires BuildOrderNumber(userID, now, workerID, seqNo).Built?
    ensures var n := BuildOrderNumber(userID, now, workerID, seqNo).number;
            ParseOrderNumber(n, later) ==
              if n != 0 && now <= later + TOLERANCE
              then Parsed(PartsFor(userID, now, workerID, seqNo)) else InvalidOrderNumber
  {
    hide DbGene, TableGene;
    BuildSpec(userID, now, workerID, seqNo);
  }

  /** The one number a build can produce that a parse refuses at every clock: every field zero. */
  lemma ZeroOrderNumber(userID: Word, now: int, workerID: int, seqNo: int)
    requires BuildOrderNumber(userID, now, workerID, seqNo).Built?
    ensures BuildOrderNumber(userID, now, workerID, seqNo).number == 0 <==>
            now == EPOCH && LogicSlotByUserID(userID) == 0 && workerID == 0 && seqNo == 0
    ensures var n := BuildOrderNumber(userID, now, workerID, seqNo).number;
            n == 0 <==> forall later :: ParseOrderNumber(n, later) == InvalidOrderNumber
  {
    hide DbGene, TableGene, Unpack;
    BuildSpec(userID, now, workerID, seqNo);
    ZeroParts(PartsFor(userID, now, workerID, seqNo));
    hide ParseOrderNumber;
    AlwaysRefusedIff(BuildOrderNumber(userID, now, workerID, seqNo).number);
  }

  /** There is such a user: at the epoch, worker 0 and sequence 0 build zero for the first user of slot 0. */
  lemma ZeroIsBuilt()
    ensures BuildOrderNumber(UserAt(0, 0), EPOCH, 0, 0) == Built(0)
  {
    hide DbGene, TableGene, UserAt, RankInSlot, LogicSlotByUserID, BuildOrderNumber, ParseOrderNumber, PartsFor, Unpack;
    var u := UserAt(0, 0);
    RankOfUserAt(0, 0);
    BuildSpec(u, EPOCH, 0, 0);
    ZeroOrderNumber(u, EPOCH, 0, 0);
  }

  /** An int64 is refused at every clock exactly if it is not positive. */
  lemma AlwaysRefusedIff(n: int)
    requires n < INT64_LIMIT
    ensures n <= 0 <==> forall later :: ParseOrderNumber(n, later) == InvalidOrderNumber
  {
    if n > 0 {
      var later := EPOCH + Unpack(n).timePart;
      ParseRepack(n, later);
      assert ParseOrderNumber(n, later) != InvalidOrderNumber;
    } else {
      forall later ensures ParseOrderNumber(n, later) == InvalidOrderNumber {}
    }
  }

  lemma ZeroParts(p: Parts)
    requires p.InRange()
    ensures Pack(p) == 0 <==> p.timePart == 0 && p.LogicSlot() == 0 && p.workerID == 0 && p.sequence == 0
  {}

  /** An int64 is accepted exactly if it is positive and its time part is within the window; it then
      repacks to itself from fields that are all in range. */
  lemma ParseRepack(n: int, now: int)
    requires n < INT64_LIMIT
    ensures ParseOrderNumber(n, now).Parsed? <==> n > 0 && Unpack(n).timePart <= now - EPOCH + TOLERANCE
    ensures ParseOrderNumber(n, now).Parsed? ==>
              var p := ParseOrderNumber(n, now).parts; p.InRange() && Pack(p) == n
  {
    if n > 0 {
      PackUnpack(n);
    }
  }

  // ----- order

  /** Numeric order is the lexicographic order of the fields; in particular packing is injective. */
  lemma OrderIsLexicographic(p: Parts, q: Parts)
    requires p.InRange() && q.InRange()
    ensures Pack(p) < Pack(q) <==> p.Before(q)
    ensures Pack(p) == Pack(q) <==> p == q
  {}

  /** Numbers built for users in different slots, or at different times, workers or sequence
      numbers, differ; equal numbers come from equal inputs up to the slot of the user. */
  lemma BuildInjective(u: Word, now: int, workerID: int, seqNo: int, u2: Word, now2: int, workerID2: int, seqNo2: int)
    requires BuildOrderNumber(u, now, workerID, seqNo).Built?
    requires BuildOrderNumber(u2, now2, workerID2, seqNo2).Built?
    ensures BuildOrderNumber(u, now, workerID, seqNo) == BuildOrderNumber(u2, now2, workerID2, seqNo2) <==>
            now == now2 && workerID == workerID2 && seqNo == seqNo2 && LogicSlotByUserID(u) == LogicSlotByUserID(u2)
  {
    hide DbGene, TableGene;
    BuildSpec(u, now, workerID, seqNo);
    BuildSpec(u2, now2, workerID2, seqNo2);
    OrderIsLexicographic(PartsFor(u, now, workerID, seqNo), PartsFor(u2, now2, workerID2, seqNo2));
  }

  // ----- the clock

  /** A number once accepted stays accepted, with the same fields; one refused by a later clock
      was refused before. */
  lemma AcceptanceMonotone(n: int, now: int, later: int)
    requires now <= later
    ensures ParseOrderNumber(n, now).Parsed? ==> ParseOrderNumber(n, later) == ParseOrderNumber(n, now)
  {}

  // ----- the two routes meet

  /** A number built for a user carries that user's slot, at every clock that accepts it. */
  lemma NumberSlotIsUserSlot(userID: Word, now: int, workerID: int, seqNo: int, later: int)
    requires BuildOrderNumber(userID, now, workerID, seqNo).Built?
    ensures var n := BuildOrderNumber(userID, now, workerID, seqNo).number;
            LogicSlotByOrderNumber(n, later) ==
              if n != 0 && now <= later + TOLERANCE then Slot(LogicSlotByUserID(userID)) else NoSlot
  {
    hide DbGene, TableGene;
    BuildParseRoundTrip(userID, now, workerID, seqNo, later);
  }
}
