// Flat numbers: clamping a society's block configuration, generating its flats and storing them under a unique number.
module FlatNumbers {
  import opened Wrappers
  import opened Seqs
  import opened Text

  // ---- Decimal text ----

  function Digit(d: nat): (c: char)
    requires d < 10
    ensures '0' <= c <= '9'
  {
    '0' + d as char
  }

  function DigitValue(c: char): nat {
    if '0' <= c <= '9' then (c - '0') as nat else 0
  }

  function Decimal(n: nat): (s: string)
    ensures |s| > 0 && forall c | c in s :: '0' <= c <= '9'
  {
    if n < 10 then [Digit(n)] else Decimal(n / 10) + [Digit(n % 10)]
  }

  /** The :02d format. */
  function TwoDigits(n: nat): string {
    if n < 10 then "0" + Decimal(n) else Decimal(n)
  }

  predicate AllDigits(s: string) {
    forall c | c in s :: '0' <= c <= '9'
  }

  function Value(s: string): nat {
    if |s| == 0 then 0 else 10 * Value(s[..|s| - 1]) + DigitValue(s[|s| - 1])
  }

  lemma {:induction false} ValueOfDecimal(n: nat)
    ensures Value(Decimal(n)) == n
  {
    var s := Decimal(n);
    if n < 10 {
      assert s[..0] == "";
      assert Value(s[..0]) == 0;
    } else {
      ValueOfDecimal(n / 10);
      assert s[..|s| - 1] == Decimal(n / 10);
    }
  }

  // ---- Numbers ----

  function FlatNumber(name: string, floor: nat, idx: nat): string {
    name + "-" + Decimal(floor) + TwoDigits(idx)
  }

  /** Where the last two digits end the floor: an index of three digits lends its leading digit to the floor. */
  function ReadAs(floor: nat, idx: nat): (nat, nat) {
    if idx < 100 then (floor, idx) else (10 * floor + idx / 100, idx % 100)
  }

  lemma TwoDigitsShape(n: nat)
    requires n < 100
    ensures TwoDigits(n) == [Digit(n / 10), Digit(n % 10)]
  {
    if n < 10 {
      assert TwoDigits(n) == ['0', Digit(n)];
    } else {
      assert Decimal(n / 10) == [Digit(n / 10)];
      assert Decimal(n) == Decimal(n / 10) + [Digit(n % 10)];
    }
  }

  lemma ThreeDigitsShape(n: nat)
    requires 100 <= n < 1000
    ensures TwoDigits(n) == [Digit(n / 100)] + TwoDigits(n % 100)
  {
    var m := n / 10;
    assert Decimal(n) == Decimal(m) + [Digit(n % 10)];
    assert Decimal(m) == Decimal(m / 10) + [Digit(m % 10)];
    assert m / 10 == n / 100 && m % 10 == n % 100 / 10 && n % 100 % 10 == n % 10;
    assert Decimal(n / 100) == [Digit(n / 100)];
    TwoDigitsShape(n % 100);
  }

  /** A three-digit index prints like a two-digit index on a later floor. */
  lemma PrintsAsRead(name: string, floor: nat, idx: nat)
    requires floor >= 1 && idx < 1000
    ensures var r := ReadAs(floor, idx); r.1 < 100 && FlatNumber(name, floor, idx) == FlatNumber(name, r.0, r.1)
  {
    if idx >= 100 {
      var t := idx / 100;
      ThreeDigitsShape(idx);
      var later := 10 * floor + t;
      assert later / 10 == floor && later % 10 == t;
      assert Decimal(later) == Decimal(floor) + [Digit(t)];
      assert Decimal(floor) + ([Digit(t)] + TwoDigits(idx % 100)) == Decimal(later) + TwoDigits(idx % 100);
    }
  }

  // ---- Reading a number back ----

  datatype Flatmark = Flatmark(block: string, floor: nat, idx: nat)

  /** The position of the last '-', or -1. */
  function LastDash(s: string): (i: int)
    ensures -1 <= i < |s| && (i >= 0 ==> s[i] == '-') && forall j | i < j < |s| :: s[j] != '-'
  {
    if |s| == 0 then -1
    else if s[|s| - 1] == '-' then |s| - 1
    else LastDash(s[..|s| - 1])
  }

  /** Splits at the last dash; the last two digits are the index, the digits before them the floor. */
  function Decode(s: string): Option<Flatmark> {
    var i := LastDash(s);
    if i < 0 || |s| < i + 3 || !AllDigits(s[i + 1..|s| - 2]) || !AllDigits(s[|s| - 2..]) then None
    else Some(Flatmark(s[..i], Value(s[i + 1..|s| - 2]), Value(s[|s| - 2..])))
  }

  lemma ValueOfTwo(n: nat)
    requires n < 100
    ensures |TwoDigits(n)| == 2 && AllDigits(TwoDigits(n)) && Value(TwoDigits(n)) == n
  {
    TwoDigitsShape(n);
    var s := TwoDigits(n);
    assert s[..1] == [Digit(n / 10)];
    assert s[..1][..0] == "";
    assert Value(s[..1][..0]) == 0;
    assert Value(s[..1]) == n / 10;
  }

  lemma DecodeParts(name: string, a: string, b: string)
    requires AllDigits(a) && AllDigits(b) && |b| == 2
    ensures Decode(name + "-" + a + b) == Some(Flatmark(name, Value(a), Value(b)))
  {
    var s := name + "-" + a + b;
    var n := |name|;
    assert s[..n] == name && s[n] == '-';
    assert s[n + 1..|s| - 2] == a && s[|s| - 2..] == b;
    forall j | n < j < |s| ensures s[j] != '-' {
      if j < |s| - 2 { assert s[j] == a[j - n - 1] && a[j - n - 1] in a; }
          else { assert s[j] == b[j - (|s| - 2)] && b[j - (|s| - 2)] in b; }
    }
    assert LastDash(s) == n;
  }

  /** With a two-digit index the number reads back as what was printed, whatever the block is called. */
  lemma DecodeRoundTrip(name: string, floor: nat, idx: nat)
    requires idx < 100
    ensures Decode(FlatNumber(name, floor, idx)) == Some(Flatmark(name, floor, idx))
  {
    ValueOfTwo(idx);
    ValueOfDecimal(floor);
    DecodeParts(name, Decimal(floor), TwoDigits(idx));
  }

  /** Two numbers agree exactly when block and reading agree. */
  lemma NumbersAgreeIff(m: string, f: nat, i: nat, n: string, g: nat, j: nat)
    requires f >= 1 && g >= 1 && i < 1000 && j < 1000
    ensures FlatNumber(m, f, i) == FlatNumber(n, g, j) <==> m == n && ReadAs(f, i) == ReadAs(g, j)
  {
    PrintsAsRead(m, f, i);
    PrintsAsRead(n, g, j);
    DecodeRoundTrip(m, ReadAs(f, i).0, ReadAs(f, i).1);
    DecodeRoundTrip(n, ReadAs(g, j).0, ReadAs(g, j).1);
  }

  /** Floor 1 flat 101 and floor 11 flat 1 print the same number. */
  lemma Clash1101()
    ensures FlatNumber("A", 1, 101) == FlatNumber("A", 11, 1) == "A-1101"
  {
    NumbersAgreeIff("A", 1, 101, "A", 11, 1);
    assert Decimal(1) == "1" && Decimal(11) == Decimal(1) + "1";
    TwoDigitsShape(1);
    assert "A-" + "11" + "01" == "A-1101";
  }

  // ---- Block configuration ----

  datatype Block = Block(name: string, floors: int, flatsPerFloor: int, flatsByFloor: seq<int>)

  /** The stored name, stripped; an empty one becomes A. Upper-casing is part of the input. */
  function BlockName(b: Block): string {
    if Strip(b.name) == "" then "A" else Strip(b.name)
  }

  const POSITIVE: int -> bool := x => x > 0

  /** How many flats a floor gets: its own positive entry, else the block's default. */
  function Count(b: Block, floor: int): int {
    var own := Filter(b.flatsByFloor, POSITIVE);
    if 0 < floor <= |own| then own[floor - 1] else b.flatsPerFloor
  }

  /** A payload entry; None marks a missing name or a number int() rejects. */
  datatype Entry =
    | NotADict
    | Entry(name: Option<string>, floors: Option<int>, flatsPerFloor: Option<int>,
        flatsByFloor: Option<seq<Option<int>>>)

  function Clamp(x: int): (r: int)
    ensures 1 <= r <= 200 && (1 <= x <= 200 ==> r == x)
  {
    if x < 1 then 1 else if x > 200 then 200 else x
  }

  function Letter(idx: nat): char {
    'A' + (idx % 26) as char
  }

  /** The first ten characters of the stripped name; a missing name gives a letter by position. */
  function SavedName(name: Option<string>, idx: nat): (r: string)
    ensures 0 < |r| <= 10
  {
    var s := if name.Some? && name.value != "" then Strip(name.value) else [Letter(idx)];
    var cut := if |s| > 10 then s[..10] else s;
    if cut == "" then "A" else cut
  }

  /** What the settings may hold after a save. */
  predicate Clamped(b: Block) {
    && 1 <= b.floors <= 200 && 1 <= b.flatsPerFloor <= 200
    && |b.flatsByFloor| <= b.floors && forall x | x in b.flatsByFloor :: 1 <= x <= 200
  }

  /** At most 200 entries are read, unreadable ones are skipped (later ones move up), the rest are clamped, and the list
      is cut to the number of floors. */
  function SavedCounts(raw: seq<Option<int>>): (r: seq<int>)
    ensures |r| <= |raw| && forall x | x in r :: 1 <= x <= 200
  {
    if |raw| == 0 then []
    else
      var front := SavedCounts(raw[..|raw| - 1]);
      if raw[|raw| - 1].Some? then front + [Clamp(raw[|raw| - 1].value)] else front
  }

  function Cut<T>(s: seq<T>, n: nat): (r: seq<T>)
    ensures |r| <= n && |r| <= |s| && r == s[..|r|] && (|s| <= n ==> r == s)
    ensures forall x | x in r :: x in s
  {
    if |s| > n then s[..n] else s
  }

  function SavedBlock(e: Entry, idx: nat): (b: Block)
    requires e.Entry?
    ensures Clamped(b)
  {
    var floors := Clamp(e.floors.GetOr(1));
    var counts := if e.flatsByFloor.Some? then SavedCounts(Cut(e.flatsByFloor.value, 200)) else [];
    Block(SavedName(e.name, idx), floors, Clamp(e.flatsPerFloor.GetOr(1)), Cut(counts, floors))
  }

  function SavedBlocks(raw: seq<Entry>): (r: seq<Block>)
    ensures |r| <= |raw| && forall b | b in r :: Clamped(b)
  {
    if |raw| == 0 then []
    else
      var front := SavedBlocks(raw[..|raw| - 1]);
      if raw[|raw| - 1].NotADict? then front else front + [SavedBlock(raw[|raw| - 1], |raw| - 1)]
  }

  // ---- Slots: the flats a configuration asks for ----

  datatype Slot = Slot(block: nat, name: string, floor: int, idx: int)

  datatype Flat = Flat(flatNumber: string, block: string, floor: int)

  function FlatOf(s: Slot): Flat {
    Flat(if s.floor >= 0 && s.idx >= 0 then FlatNumber(s.name, s.floor, s.idx) else "", s.name, s.floor)
  }

  function FloorSlots(k: nat, name: string, floor: int, count: int): seq<Slot>
    decreases count
  {
    if count <= 0 then [] else FloorSlots(k, name, floor, count - 1) + [Slot(k, name, floor, count)]
  }

  function BlockSlots(k: nat, b: Block, floors: int): seq<Slot>
    decreases floors
  {
    if floors <= 0 then [] else BlockSlots(k, b, floors - 1) + FloorSlots(k, BlockName(b), floors, Count(b, floors))
  }

  function Slots(blocks: seq<Block>): seq<Slot> {
    if |blocks| == 0 then []
    else Slots(blocks[..|blocks| - 1]) + BlockSlots(|blocks| - 1, blocks[|blocks| - 1], blocks[|blocks| - 1].floors)
  }

  function Flats(slots: seq<Slot>): (r: seq<Flat>)
    ensures |r| == |slots| && forall p | 0 <= p < |r| :: r[p] == FlatOf(slots[p])
  {
    seq(|slots|, i requires 0 <= i < |slots| => FlatOf(slots[i]))
  }

  /** s names a flat the configuration asks for. */
  predicate Wanted(blocks: seq<Block>, s: Slot) {
    && s.block < |blocks| && s.name == BlockName(blocks[s.block])
    && 1 <= s.floor <= blocks[s.block].floors && 1 <= s.idx <= Count(blocks[s.block], s.floor)
  }

  lemma {:induction false} AllPositive(own: seq<int>)
    requires forall x | x in own :: x > 0
    ensures Filter(own, POSITIVE) == own
  {
    if |own| == 0 {
    } else {
      var front := own[..|own| - 1];
      forall x | x in front ensures x > 0 {
        var i :| 0 <= i < |front| && front[i] == x;
        assert own[i] in own;
      }
      AllPositive(front);
      assert own[|own| - 1] in own && POSITIVE(own[|own| - 1]);
      assert own == front + [own[|own| - 1]];
    }
  }

  /** In stored settings a floor gets its own entry of the per-floor list, and the block's default beyond the list. */
  lemma FloorGets(blocks: seq<Block>, s: Slot)
    requires forall b | b in blocks :: Clamped(b)
    ensures Wanted(blocks, s) <==>
              && s.block < |blocks| && 1 <= s.floor <= blocks[s.block].floors && 1 <= s.idx
              && s.name == (if Strip(blocks[s.block].name) == "" then "A" else Strip(blocks[s.block].name))
              && s.idx <= (if s.floor <= |blocks[s.block].flatsByFloor| then blocks[s.block].flatsByFloor[s.floor - 1]
                           else blocks[s.block].flatsPerFloor)
  {
    if s.block < |blocks| {
      assert Clamped(blocks[s.block]);
      AllPositive(blocks[s.block].flatsByFloor);
    }
  }

  /** What a save reads from one entry: counts clamped to 1..200, with 1 for what is missing or unreadable, and at most
      one per-floor entry for each floor. */
  lemma SavedBlockIs(e: Entry, idx: nat)
    requires e.Entry?
    ensures var b := SavedBlock(e, idx);
      && b.floors == (if e.floors.None? || e.floors.value < 1 then 1 else if e.floors.value > 200 then 200
                      else e.floors.value)
      && b.flatsPerFloor == (if e.flatsPerFloor.None? || e.flatsPerFloor.value < 1 then 1
                             else if e.flatsPerFloor.value > 200 then 200 else e.flatsPerFloor.value)
      && (e.flatsByFloor.None? ==> b.flatsByFloor == [])
      && |b.flatsByFloor| <= b.floors
  {
  }

  /** With every entry readable, the stored per-floor list is the clamped beginning of the one sent. */
  lemma SavedCountsAre(e: Entry, idx: nat, k: nat)
    requires e.Entry? && e.flatsByFloor.Some? && forall x | x in e.flatsByFloor.value :: x.Some?
    ensures var (raw, b) := (e.flatsByFloor.value, SavedBlock(e, idx));
      && |b.flatsByFloor| == (if |raw| <= b.floors then |raw| else b.floors)
      && (k < |b.flatsByFloor| ==> b.flatsByFloor[k] == (if raw[k].value < 1 then 1
                                                         else if raw[k].value > 200 then 200 else raw[k].value))
  {
    var raw := e.flatsByFloor.value;
    AllReadable(Cut(raw, 200));
  }

  lemma {:induction false} AllReadable(raw: seq<Option<int>>)
    requires forall x | x in raw :: x.Some?
    ensures |SavedCounts(raw)| == |raw|
    ensures forall k | 0 <= k < |raw| :: SavedCounts(raw)[k] == Clamp(raw[k].value)
  {
    if |raw| == 0 {
    } else {
      AllReadable(raw[..|raw| - 1]);
      assert raw[|raw| - 1] in raw;
    }
  }

  /** The stored name is the first ten characters of the stripped one, A when nothing is left, and a letter by position
      when none was sent. */
  lemma SavedNameIs(name: Option<string>, idx: nat)
    ensures name.Some? && name.value != "" && Strip(name.value) != "" ==>
              SavedName(name, idx) == if |Strip(name.value)| > 10 then Strip(name.value)[..10] else Strip(name.value)
    ensures name.Some? && name.value != "" && Strip(name.value) == "" ==> SavedName(name, idx) == "A"
    ensures name.None? || name.value == "" ==> SavedName(name, idx) == ["ABCDEFGHIJKLMNOPQRSTUVWXYZ"[idx % 26]]
  {
  }

  /** The order in which flats are generated. */
  predicate Before(a: Slot, b: Slot) {
    a.block < b.block || (a.block == b.block && (a.floor < b.floor || (a.floor == b.floor && a.idx < b.idx)))
  }

  predicate Ascending(s: seq<Slot>) {
    forall p, q | 0 <= p < q < |s| :: Before(s[p], s[q])
  }

  lemma AscendingConcat(s: seq<Slot>, t: seq<Slot>)
    requires Ascending(s) && Ascending(t) && forall x, y | x in s && y in t :: Before(x, y)
    ensures Ascending(s + t)
  {
    forall p, q | 0 <= p < q < |s + t| ensures Before((s + t)[p], (s + t)[q]) {
      if p < |s| <= q { assert s[p] in s && t[q - |s|] in t; }
    }
  }

  lemma {:induction false} FloorSlotsAre(k: nat, name: string, floor: int, count: int)
    ensures Ascending(FloorSlots(k, name, floor, count))
    ensures forall s :: s in FloorSlots(k, name, floor, count) <==>
              s.block == k && s.name == name && s.floor == floor && 1 <= s.idx <= count
    decreases count
  {
    if count > 0 {
      FloorSlotsAre(k, name, floor, count - 1);
      AscendingConcat(FloorSlots(k, name, floor, count - 1), [Slot(k, name, floor, count)]);
    }
  }

  lemma {:induction false} BlockSlotsAre(k: nat, b: Block, floors: int)
    ensures Ascending(BlockSlots(k, b, floors))
    ensures forall s :: s in BlockSlots(k, b, floors) <==>
              s.block == k && s.name == BlockName(b) && 1 <= s.floor <= floors && 1 <= s.idx <= Count(b, s.floor)
    decreases floors
  {
    if floors > 0 {
      BlockSlotsAre(k, b, floors - 1);
      FloorSlotsAre(k, BlockName(b), floors, Count(b, floors));
      AscendingConcat(BlockSlots(k, b, floors - 1), FloorSlots(k, BlockName(b), floors, Count(b, floors)));
    }
  }

  /** Exactly the wanted flats are generated, each once, in ascending order. */
  lemma {:induction false} SlotsAre(blocks: seq<Block>)
    ensures Ascending(Slots(blocks))
    ensures forall s :: s in Slots(blocks) <==> Wanted(blocks, s)
  {
    if |blocks| == 0 {
    } else {
      var n := |blocks| - 1;
      var front := blocks[..n];
      SlotsAre(front);
      BlockSlotsAre(n, blocks[n], blocks[n].floors);
      AscendingConcat(Slots(front), BlockSlots(n, blocks[n], blocks[n].floors));
      forall s ensures s in Slots(blocks) <==> Wanted(blocks, s) {
        if s.block < n { assert front[s.block] == blocks[s.block]; }
      }
    }
  }

  // ---- When are the generated numbers distinct? ----

  predicate NumbersDistinct(flats: seq<Flat>) {
    forall p, q | 0 <= p < q < |flats| :: flats[p].flatNumber != flats[q].flatNumber
  }

  predicate NamesDistinct(blocks: seq<Block>) {
    forall k, l | 0 <= k < l < |blocks| :: BlockName(blocks[k]) != BlockName(blocks[l])
  }

  /** A floor of more than 100 flats whose number followed by 1 is again a floor. */
  predicate Overflows(b: Block, floor: int) {
    1 <= floor && 10 * floor + 1 <= b.floors && Count(b, floor) >= 101
  }

  ghost predicate NoOverflow(blocks: seq<Block>) {
    forall k, f | 0 <= k < |blocks| :: !Overflows(blocks[k], f)
  }

  ghost predicate SlotsAgree(blocks: seq<Block>, s: Slot, t: Slot) {
    Wanted(blocks, s) && Wanted(blocks, t) && s != t && FlatOf(s).flatNumber == FlatOf(t).flatNumber
  }

  lemma AgreementRepeats(blocks: seq<Block>, s: Slot, t: Slot)
    requires SlotsAgree(blocks, s, t)
    ensures !NumbersDistinct(Flats(Slots(blocks)))
  {
    SlotsAre(blocks);
    var slots := Slots(blocks);
    assert s in slots && t in slots;
    var p :| 0 <= p < |slots| && slots[p] == s;
    var q :| 0 <= q < |slots| && slots[q] == t;
    assert Flats(slots)[p].flatNumber == Flats(slots)[q].flatNumber;
    assert p != q;
  }

  lemma RepeatAgrees(blocks: seq<Block>, p: nat, q: nat)
    requires p < q < |Slots(blocks)| && Flats(Slots(blocks))[p].flatNumber == Flats(Slots(blocks))[q].flatNumber
    ensures SlotsAgree(blocks, Slots(blocks)[p], Slots(blocks)[q])
  {
    SlotsAre(blocks);
    var slots := Slots(blocks);
    assert slots[p] in slots && slots[q] in slots && Before(slots[p], slots[q]);
  }

  lemma DistinctIffNoAgreement(blocks: seq<Block>)
    ensures NumbersDistinct(Flats(Slots(blocks))) <==> forall s, t :: !SlotsAgree(blocks, s, t)
  {
    if s, t :| SlotsAgree(blocks, s, t) {
      AgreementRepeats(blocks, s, t);
    } else if !NumbersDistinct(Flats(Slots(blocks))) {
      var rows := Flats(Slots(blocks));
      var p, q :| 0 <= p < q < |rows| && rows[p].flatNumber == rows[q].flatNumber;
      RepeatAgrees(blocks, p, q);
    }
  }

  lemma CountClamped(b: Block, floor: int)
    requires Clamped(b)
    ensures 1 <= Count(b, floor) <= 200
  {
    var own := Filter(b.flatsByFloor, POSITIVE);
    if 0 < floor <= |own| { assert own[floor - 1] in own; }
  }

  /** Two flats of clamped blocks share a number only across equal names or over an overflowing floor. */
  lemma AgreementCause(blocks: seq<Block>, s: Slot, t: Slot)
    requires (forall b | b in blocks :: Clamped(b)) && SlotsAgree(blocks, s, t)
    ensures s.name == t.name
    ensures s.block == t.block ==> Overflows(blocks[s.block], s.floor) || Overflows(blocks[s.block], t.floor)
  {
    assert blocks[s.block] in blocks && blocks[t.block] in blocks;
    CountClamped(blocks[s.block], s.floor);
    CountClamped(blocks[t.block], t.floor);
    NumbersAgreeIff(s.name, s.floor, s.idx, t.name, t.floor, t.idx);
    if s.block == t.block {
      ReadingsMeet(s.floor, s.idx, t.floor, t.idx);
    }
  }

  lemma ReadingsMeet(f: nat, i: nat, g: nat, j: nat)
    requires 1 <= i <= 200 && 1 <= j <= 200 && ReadAs(f, i) == ReadAs(g, j) && (f != g || i != j)
    ensures (i >= 101 && g == 10 * f + 1) || (j >= 101 && f == 10 * g + 1)
  {
  }

  /** For settings a save can store: all flat numbers are distinct exactly when the block names are distinct and no
      block has an overflowing floor. */
  lemma DistinctIff(blocks: seq<Block>)
    requires forall b | b in blocks :: Clamped(b)
    ensures NumbersDistinct(Flats(Slots(blocks))) <==> NamesDistinct(blocks) && NoOverflow(blocks)
  {
    DistinctIffNoAgreement(blocks);
    if NamesDistinct(blocks) && NoOverflow(blocks) {
      forall s, t ensures !SlotsAgree(blocks, s, t) { NoCause(blocks, s, t); }
    } else {
      SomeAgreement(blocks);
    }
  }

  lemma NoCause(blocks: seq<Block>, s: Slot, t: Slot)
    requires (forall b | b in blocks :: Clamped(b)) && NamesDistinct(blocks) && NoOverflow(blocks)
    ensures !SlotsAgree(blocks, s, t)
  {
    if SlotsAgree(blocks, s, t) {
      AgreementCause(blocks, s, t);
      assert false;
    }
  }

  lemma SomeAgreement(blocks: seq<Block>)
    requires (forall b | b in blocks :: Clamped(b)) && !(NamesDistinct(blocks) && NoOverflow(blocks))
    ensures exists s, t :: SlotsAgree(blocks, s, t)
  {
    if !NamesDistinct(blocks) {
      var k, l :| 0 <= k < l < |blocks| && BlockName(blocks[k]) == BlockName(blocks[l]);
      SameNamesAgree(blocks, k, l);
    } else {
      var k, f :| 0 <= k < |blocks| && Overflows(blocks[k], f);
      OverflowAgrees(blocks, k, f);
    }
  }

  lemma SameNamesAgree(blocks: seq<Block>, k: nat, l: nat)
    requires (forall b | b in blocks :: Clamped(b)) && k < l < |blocks| && BlockName(blocks[k]) == BlockName(blocks[l])
    ensures SlotsAgree(blocks, Slot(k, BlockName(blocks[k]), 1, 1), Slot(l, BlockName(blocks[l]), 1, 1))
  {
    assert blocks[k] in blocks && blocks[l] in blocks;
    CountClamped(blocks[k], 1);
    CountClamped(blocks[l], 1);
  }

  lemma OverflowAgrees(blocks: seq<Block>, k: nat, f: int)
    requires (forall b | b in blocks :: Clamped(b)) && k < |blocks| && Overflows(blocks[k], f)
    ensures var n := BlockName(blocks[k]); SlotsAgree(blocks, Slot(k, n, f, 101), Slot(k, n, 10 * f + 1, 1))
  {
    var n := BlockName(blocks[k]);
    assert blocks[k] in blocks;
    CountClamped(blocks[k], 10 * f + 1);
    NumbersAgreeIff(n, f, 101, n, 10 * f + 1, 1);
  }

  /** With at most 99 flats a floor and distinct names, any configuration gives distinct numbers that decode to their
      block, floor and index. */
  lemma AtMost99(blocks: seq<Block>)
    requires NamesDistinct(blocks)
    requires forall k, f | 0 <= k < |blocks| && 1 <= f <= blocks[k].floors :: Count(blocks[k], f) <= 99
    ensures NumbersDistinct(Flats(Slots(blocks)))
    ensures forall s | s in Slots(blocks) ::
              s.floor >= 1 && s.idx >= 1 && Decode(FlatOf(s).flatNumber) == Some(Flatmark(s.name, s.floor, s.idx))
  {
    SlotsAre(blocks);
    forall s | Wanted(blocks, s) ensures Decode(FlatOf(s).flatNumber) == Some(Flatmark(s.name, s.floor, s.idx)) {
      DecodeRoundTrip(s.name, s.floor, s.idx);
    }
    DistinctIffNoAgreement(blocks);
    if s, t :| SlotsAgree(blocks, s, t) {
      assert false;
    }
  }

  /** Cutting names to ten characters can merge two blocks, and so can the second strip after the cut. */
  lemma CutNamesMerge()
    ensures SavedName(Some("RIVERSIDE EAST"), 0) == "RIVERSIDE " && SavedName(Some("RIVERSIDE"), 1) == "RIVERSIDE"
    ensures BlockName(Block("RIVERSIDE ", 1, 1, [])) == BlockName(Block("RIVERSIDE", 1, 1, []))
  {
    assert Strip("RIVERSIDE EAST") == "RIVERSIDE EAST";
    assert "RIVERSIDE EAST"[..10] == "RIVERSIDE ";
    assert Strip("RIVERSIDE") == "RIVERSIDE";
    assert "RIVERSIDE "[..9] == "RIVERSIDE";
  }

  // ---- The generator and the save ----

  method PositiveCounts(raw: seq<int>) returns (own: seq<int>)
    ensures own == Filter(raw, POSITIVE)
  {
    own := [];
    for i := 0 to |raw|
      invariant own == Filter(raw[..i], POSITIVE)
    {
      assert raw[..i + 1][..i] == raw[..i];
      if raw[i] > 0 { own := own + [raw[i]]; }
    }
    assert raw[..|raw|] == raw;
  }

  lemma FlatsConcat(s: seq<Slot>, t: seq<Slot>)
    ensures Flats(s + t) == Flats(s) + Flats(t)
  {
  }

  method GenerateFloor(k: nat, name: string, floor: nat, count: int) returns (rows: seq<Flat>)
    ensures rows == Flats(FloorSlots(k, name, floor, count))
  {
    rows := [];
    var idx := 1;
    while idx <= count
      invariant idx >= 1 && (count >= 1 ==> idx <= count + 1) && (count < 1 ==> idx == 1)
      invariant rows == Flats(FloorSlots(k, name, floor, idx - 1))
    {
      FlatsConcat(FloorSlots(k, name, floor, idx - 1), [Slot(k, name, floor, idx)]);
      rows := rows + [Flat(FlatNumber(name, floor, idx), name, floor)];
      idx := idx + 1;
    }
  }

  lemma NextFloor(k: nat, b: Block, floor: nat)
    requires floor >= 1
    ensures Flats(BlockSlots(k, b, floor)) ==
              Flats(BlockSlots(k, b, floor - 1)) + Flats(FloorSlots(k, BlockName(b), floor, Count(b, floor)))
  {
    FlatsConcat(BlockSlots(k, b, floor - 1), FloorSlots(k, BlockName(b), floor, Count(b, floor)));
  }

  method GenerateBlock(k: nat, b: Block) returns (rows: seq<Flat>)
    ensures rows == Flats(BlockSlots(k, b, b.floors))
  {
    rows := [];
    var name := Strip(b.name);
    if name == "" { name := "A"; }
    var own := PositiveCounts(b.flatsByFloor);
    var floor := 1;
    while floor <= b.floors
      invariant floor >= 1 && (b.floors >= 1 ==> floor <= b.floors + 1) && (b.floors < 1 ==> floor == 1)
      invariant rows == Flats(BlockSlots(k, b, floor - 1))
    {
      var count := b.flatsPerFloor;
      if floor - 1 < |own| { count := own[floor - 1]; }
      var next := GenerateFloor(k, name, floor, count);
      NextFloor(k, b, floor);
      rows := rows + next;
      floor := floor + 1;
    }
  }

  /** Generates exactly the flats of the wanted slots, in order. */
  method GenerateFlats(blocks: seq<Block>) returns (rows: seq<Flat>)
    ensures rows == Flats(Slots(blocks))
  {
    rows := [];
    for k := 0 to |blocks|
      invariant rows == Flats(Slots(blocks[..k]))
    {
      var next := GenerateBlock(k, blocks[k]);
      assert blocks[..k + 1][..k] == blocks[..k];
      FlatsConcat(Slots(blocks[..k]), BlockSlots(k, blocks[k], blocks[k].floors));
      rows := rows + next;
    }
    assert blocks[..|blocks|] == blocks;
  }

  /** Reads and clamps the payload. */
  method ReadBlocks(raw: seq<Entry>) returns (blocks: seq<Block>)
    ensures blocks == SavedBlocks(raw)
  {
    blocks := [];
    for i := 0 to |raw|
      invariant blocks == SavedBlocks(raw[..i])
    {
      assert raw[..i + 1][..i] == raw[..i];
      if raw[i].Entry? { blocks := blocks + [SavedBlock(raw[i], i)]; }
    }
    assert raw[..|raw|] == raw;
  }

  datatype SaveError = RefusedToClear | DuplicateFlat

  /** One society's settings and flats; flat numbers carry a unique index. */
  class Society {
    var blocks: seq<Block>
    var flats: seq<Flat>

    ghost predicate Valid()
      reads this
    {
      (forall b | b in blocks :: Clamped(b)) && NumbersDistinct(flats)
    }

    constructor ()
      ensures Valid() && blocks == [] && flats == []
    {
      blocks, flats := [], [];
    }

    /** Ordered insertion: stops at the first duplicate and leaves what came before it. */
    method InsertMany(rows: seq<Flat>) returns (ok: bool)
      requires flats == []
      modifies this`flats
      ensures flats <= rows && NumbersDistinct(flats)
      ensures ok <==> NumbersDistinct(rows)
      ensures ok ==> flats == rows
      ensures !ok ==> |flats| < |rows| && exists p | 0 <= p < |flats| :: flats[p].flatNumber == rows[|flats|].flatNumber
    {
      for i := 0 to |rows|
        invariant flats == rows[..i] && NumbersDistinct(flats)
      {
        var taken := FindFirst(flats, Numbered(rows[i].flatNumber));
        if taken.Some? {
          assert rows[taken.value].flatNumber == rows[i].flatNumber;
          return false;
        }
        flats := flats + [rows[i]];
      }
      ok := true;
    }

    /** A save that names blocks replaces settings and flats. It succeeds exactly when the new blocks have distinct
        names and no overflowing floor; when it fails there, the old flats are gone and only a prefix of the new is
        stored. */
    method SaveSettings(raw: Option<seq<Entry>>) returns (r: Result<(), SaveError>)
      requires Valid()
      modifies this
      ensures Valid()
      ensures raw.None? ==> r == Ok(()) && blocks == old(blocks) && flats == old(flats)
      ensures r == Err(RefusedToClear) <==> raw == Some([]) && old(blocks) != []
      ensures r == Err(RefusedToClear) ==> blocks == old(blocks) && flats == old(flats)
      ensures raw.Some? && r != Err(RefusedToClear) ==> blocks == SavedBlocks(raw.value)
      ensures raw.Some? && r != Err(RefusedToClear) ==>
                (r == Ok(()) <==> NamesDistinct(blocks) && NoOverflow(blocks))
      ensures raw.Some? && r == Ok(()) ==> flats == Flats(Slots(blocks))
      ensures r == Err(DuplicateFlat) ==> flats < Flats(Slots(blocks))
    {
      if raw.None? {
        return Ok(());
      }
      if |raw.value| == 0 && |blocks| > 0 {
        return Err(RefusedToClear);
      }
      blocks := ReadBlocks(raw.value);
      DistinctIff(blocks);
      flats := [];
      var rows := GenerateFlats(blocks);
      var ok := InsertMany(rows);
      r := if ok then Ok(()) else Err(DuplicateFlat);
    }
  }

  function Numbered(number: string): Flat -> bool {
    (f: Flat) => f.flatNumber == number
  }
}
