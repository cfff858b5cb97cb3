// What one billing run charges: every flat's shares, and what the run as a whole conserves.
module BillGeneration {
  import opened Wrappers
  import opened Seqs
  import opened Sums
  import opened Money
  import opened Splits
  import opened Bills
  import opened BillRuns
  import opened ActiveBills

  /** A flat with the resident count to bill it for. */
  datatype Flat = Flat(id: string, number: string, area: real, inmates: nat)

  /** The month's totals in paise, each either overridden by the request or taken from the ledger or the settings. */
  datatype Charges = Charges(
    sqftRate: real, water: real, fixed: real, sinking: real, repair: real, association: real, corpus: real,
    fixedByArea: bool, sinkingByArea: bool, repairByArea: bool, corpusByArea: bool)

  datatype Fund = Fixed | Sinking | Repair | Association | Corpus

  function TotalOf(c: Charges, f: Fund): real {
    match f
    case Fixed => c.fixed
    case Sinking => c.sinking
    case Repair => c.repair
    case Association => c.association
    case Corpus => c.corpus
  }

  function ByArea(c: Charges, f: Fund): bool {
    match f
    case Fixed => c.fixedByArea
    case Sinking => c.sinkingByArea
    case Repair => c.repairByArea
    case Association => false
    case Corpus => c.corpusByArea
  }

  function FundOf(a: Amounts, f: Fund): real {
    match f
    case Fixed => a.fixed
    case Sinking => a.sinking
    case Repair => a.repair
    case Association => a.association
    case Corpus => a.corpus
  }

  function Areas(flats: seq<Flat>): (r: seq<real>)
    ensures |r| == |flats| && forall i :: 0 <= i < |r| ==> r[i] == flats[i].area
  {
    seq(|flats|, i requires 0 <= i < |flats| => flats[i].area)
  }

  function Inmates(flats: seq<Flat>): (r: seq<nat>)
    ensures |r| == |flats| && forall i :: 0 <= i < |r| ==> r[i] == flats[i].inmates
  {
    seq(|flats|, i requires 0 <= i < |flats| => flats[i].inmates)
  }

  function FundShare(flats: seq<Flat>, c: Charges, f: Fund, i: nat): int
    requires i < |flats|
  {
    SplitCharge(TotalOf(c, f), i, |flats|, flats[i].area, if ByArea(c, f) then RealSum(Areas(flats)) else 0.0)
  }

  function MaintenanceShare(flats: seq<Flat>, c: Charges, i: nat): int
    requires i < |flats|
  {
    if c.sqftRate > 0.0 then RoundMoney(flats[i].area * c.sqftRate) else 0
  }

  function WaterPart(flats: seq<Flat>, c: Charges, i: nat): int
    requires i < |flats|
  {
    RoundMoney((WaterRate(c.water, Inmates(flats)) * flats[i].inmates) as real)
  }

  function AmountsFor(flats: seq<Flat>, c: Charges, i: nat): Amounts
    requires i < |flats|
  {
    Whole(MaintenanceShare(flats, c, i), WaterPart(flats, c, i),
      FundShare(flats, c, Fixed, i), FundShare(flats, c, Sinking, i), FundShare(flats, c, Repair, i),
      FundShare(flats, c, Association, i), FundShare(flats, c, Corpus, i))
  }

  /** Whole-paise components without extra charges. */
  function Whole(maintenance: int, water: int, fixed: int, sinking: int, repair: int, association: int,
      corpus: int): Amounts {
    Amounts(maintenance as real, water as real, fixed as real, sinking as real, repair as real, association as real,
        corpus as real, 0.0)
  }

  function AmountTotal(a: Amounts): real {
    RoundMoney(a.maintenance + a.water + a.fixed + a.sinking + a.repair + a.association + a.corpus) as real
  }

  function BillFor(flats: seq<Flat>, c: Charges, month: int, year: int, id: string, i: nat): Bill
    requires i < |flats|
  {
    var a := AmountsFor(flats, c, i);
    Bill(id, flats[i].id, flats[i].number, month, year, Generated, false, None, a, AmountTotal(a))
  }

  predicate IsBillRun(flats: seq<Flat>, c: Charges, month: int, year: int, ids: seq<string>, docs: seq<Bill>) {
    |docs| == |flats| == |ids| && forall i | 0 <= i < |docs| :: docs[i] == BillFor(flats, c, month, year, ids[i], i)
  }

  function FlatIds(flats: seq<Flat>): (r: seq<string>)
    ensures |r| == |flats| && forall i :: 0 <= i < |r| ==> r[i] == flats[i].id
  {
    seq(|flats|, i requires 0 <= i < |flats| => flats[i].id)
  }

  /** Over different flats, generation leaves one active bill per flat and month. */
  lemma BillRunStaysOne(s: Shop, flats: seq<Flat>, c: Charges, month: int, year: int, ids: seq<string>, docs: seq<Bill>)
    requires OneActive(s.bills) && NoDup(FlatIds(flats)) && IsBillRun(flats, c, month, year, ids, docs)
    ensures OneActive(Generate(s, month, year, docs).bills)
  {
    forall i, j | 0 <= i < j < |docs| ensures docs[i].flatId != docs[j].flatId {
      assert FlatIds(flats)[i] != FlatIds(flats)[j];
    }
    GenerateOne(s, month, year, docs);
  }

  // ---- What generation conserves ----

  function FundAmount(f: Fund): Bill -> int {
    (b: Bill) => RoundMoney(FundOf(b.amounts, f))
  }

  /** A fund split equally is billed to the last paisa; one split by area, within half a paisa per flat. */
  lemma FundConserved(flats: seq<Flat>, c: Charges, month: int, year: int, ids: seq<string>, docs: seq<Bill>, f: Fund)
    requires IsBillRun(flats, c, month, year, ids, docs) && |flats| > 0 && TotalOf(c, f) > 0.0
    ensures !ByArea(c, f) || RealSum(Areas(flats)) <= 0.0 ==> SumBy(docs, FundAmount(f)) == RoundMoney(TotalOf(c, f))
    ensures ByArea(c, f) && RealSum(Areas(flats)) > 0.0 ==>
              Within(SumBy(docs, FundAmount(f)) as real - TotalOf(c, f), |flats|)
  {
    var n, total := |flats|, TotalOf(c, f);
    forall i | 0 <= i < n ensures FundAmount(f)(docs[i]) == FundShare(flats, c, f, i) {
    }
    if ByArea(c, f) && RealSum(Areas(flats)) > 0.0 {
      SumZip(docs, Range(n), FundAmount(f), WeightedShare(total, Areas(flats), RealSum(Areas(flats))));
      WeightedSharesNearTotal(total, Areas(flats));
    } else {
      SumZip(docs, Range(n), FundAmount(f), EqualShare(total, n));
      EqualSharesConserve(total, n);
    }
  }

  const WATER_AMOUNT: Bill -> int := (b: Bill) => RoundMoney(b.amounts.water)

  /** Water is billed within half a paisa per resident, exactly when someone is resident or there is nothing to bill. */
  lemma WaterConservedIff(flats: seq<Flat>, c: Charges, month: int, year: int, ids: seq<string>, docs: seq<Bill>)
    requires IsBillRun(flats, c, month, year, ids, docs)
    ensures SumBy(Inmates(flats), HEADS) >= 0
    ensures Within(SumBy(docs, WATER_AMOUNT) as real - c.water, SumBy(Inmates(flats), HEADS))
            <==> SumBy(Inmates(flats), HEADS) > 0 || c.water == 0.0
  {
    var rate := WaterRate(c.water, Inmates(flats));
    forall i | 0 <= i < |docs| ensures WATER_AMOUNT(docs[i]) == WaterShare(rate)(Inmates(flats)[i]) {
      WholePaise(RoundMoney((rate * flats[i].inmates) as real));
    }
    SumZip(docs, Inmates(flats), WATER_AMOUNT, WaterShare(rate));
    WaterNearTotalIff(c.water, Inmates(flats));
  }

  // ---- Each flat's own charges, in the words of the request ----

  function Column(docs: seq<Bill>, part: Amounts -> real): (r: seq<real>)
    ensures |r| == |docs| && forall i :: 0 <= i < |r| ==> r[i] == part(docs[i].amounts)
  {
    seq(|docs|, i requires 0 <= i < |docs| => part(docs[i].amounts))
  }

  const MAINTENANCE: Amounts -> real := (a: Amounts) => a.maintenance
  const FIXED: Amounts -> real := (a: Amounts) => a.fixed
  const SINKING: Amounts -> real := (a: Amounts) => a.sinking
  const REPAIR: Amounts -> real := (a: Amounts) => a.repair
  const ASSOCIATION: Amounts -> real := (a: Amounts) => a.association
  const CORPUS: Amounts -> real := (a: Amounts) => a.corpus

  lemma {:induction false} RealSumOf(xs: seq<real>, n: nat, f: nat -> int)
    requires n <= |xs| && forall i: nat | i < n :: xs[i] == f(i) as real
    ensures RealSum(xs[..n]) == SumBy(Range(|xs|)[..n], f) as real
  {
    if n > 0 {
      RealSumOf(xs, n - 1, f);
      SumStep(Range(|xs|), n - 1, f);
      RealSumStep(xs, n - 1);
    }
  }

  lemma RealSumAll(xs: seq<real>, f: nat -> int)
    requires forall i: nat | i < |xs| :: xs[i] == f(i) as real
    ensures RealSum(xs) == SumBy(Range(|xs|), f) as real
  {
    RealSumOf(xs, |xs|, f);
    assert xs[..|xs|] == xs && Range(|xs|)[..|xs|] == Range(|xs|);
  }

  /** The shares of a total over the flats: in proportion to the areas if so asked and there is any area, else equal,
      the last one taking up the rounding. */
  ghost predicate SharedOut(total: real, byArea: bool, areas: seq<real>, shares: seq<real>) {
    var n, area := |areas|, RealSum(areas);
    && |shares| == n
    && (total <= 0.0 ==> forall i | 0 <= i < n :: shares[i] == 0.0)
    && (total > 0.0 && byArea && area > 0.0 ==>
         && (forall i | 0 <= i < n :: -0.5 <= shares[i] - total * areas[i] / area <= 0.5)
         && Within(RealSum(shares) - total, n))
    && (total > 0.0 && n > 0 && !(byArea && area > 0.0) ==>
         && (forall i | 0 <= i < n - 1 :: -0.5 <= shares[i] - total / n as real <= 0.5)
         && Within(shares[n - 1] - total / n as real, n) && RealSum(shares) == RoundMoney(total) as real)
  }

  lemma SharesAre(total: real, byArea: bool, flats: seq<Flat>, shares: seq<real>)
    requires |shares| == |flats|
    requires forall i | 0 <= i < |flats| :: shares[i] ==
               SplitCharge(total, i, |flats|, flats[i].area, if byArea then RealSum(Areas(flats)) else 0.0) as real
    ensures SharedOut(total, byArea, Areas(flats), shares)
  {
    var n, area := |flats|, RealSum(Areas(flats));
    if total > 0.0 && byArea && area > 0.0 {
      AreaSum(total, flats, shares);
      forall i | 0 <= i < n ensures -0.5 <= shares[i] - total * Areas(flats)[i] / area <= 0.5 {
        AreaShare(total, i, n, flats[i].area, area);
      }
    } else if total > 0.0 && n > 0 {
      RealSumAll(shares, EqualShare(total, n));
      EqualSharesConserve(total, n);
      LastShareBounds(total, n);
      forall i | 0 <= i < n - 1 ensures -0.5 <= shares[i] - total / n as real <= 0.5 {
        OtherShareBounds(total, n, i);
      }
    }
  }

  lemma AreaSum(total: real, flats: seq<Flat>, shares: seq<real>)
    requires |shares| == |flats| && total > 0.0 && RealSum(Areas(flats)) > 0.0
    requires forall i | 0 <= i < |flats| :: shares[i] ==
               SplitCharge(total, i, |flats|, flats[i].area, RealSum(Areas(flats))) as real
    ensures Within(RealSum(shares) - total, |flats|)
  {
    RealSumAll(shares, WeightedShare(total, Areas(flats), RealSum(Areas(flats))));
    WeightedSharesNearTotal(total, Areas(flats));
  }

  lemma AreaShare(total: real, i: nat, n: nat, area: real, whole: real)
    requires total > 0.0 && n > 0 && whole > 0.0
    ensures -0.5 <= SplitCharge(total, i, n, area, whole) as real - total * area / whole <= 0.5
  {
    Nearest(total * area / whole);
  }

  /** Every fund is shared out by its own total and its own method; the association fund always equally. */
  lemma FundsBilled(flats: seq<Flat>, c: Charges, month: int, year: int, ids: seq<string>, docs: seq<Bill>)
    requires IsBillRun(flats, c, month, year, ids, docs)
    ensures SharedOut(c.fixed, c.fixedByArea, Areas(flats), Column(docs, FIXED))
    ensures SharedOut(c.sinking, c.sinkingByArea, Areas(flats), Column(docs, SINKING))
    ensures SharedOut(c.repair, c.repairByArea, Areas(flats), Column(docs, REPAIR))
    ensures SharedOut(c.association, false, Areas(flats), Column(docs, ASSOCIATION))
    ensures SharedOut(c.corpus, c.corpusByArea, Areas(flats), Column(docs, CORPUS))
  {
    FundBilled(flats, c, month, year, ids, docs, Fixed, FIXED);
    FundBilled(flats, c, month, year, ids, docs, Sinking, SINKING);
    FundBilled(flats, c, month, year, ids, docs, Repair, REPAIR);
    FundBilled(flats, c, month, year, ids, docs, Association, ASSOCIATION);
    FundBilled(flats, c, month, year, ids, docs, Corpus, CORPUS);
  }

  lemma FundBilled(flats: seq<Flat>, c: Charges, month: int, year: int, ids: seq<string>, docs: seq<Bill>, f: Fund,
      part: Amounts -> real)
    requires IsBillRun(flats, c, month, year, ids, docs) && forall a: Amounts :: part(a) == FundOf(a, f)
    ensures SharedOut(TotalOf(c, f), ByArea(c, f), Areas(flats), Column(docs, part))
  {
    forall i | 0 <= i < |docs| ensures FundOf(docs[i].amounts, f) == FundShare(flats, c, f, i) as real {
    }
    SharesAre(TotalOf(c, f), ByArea(c, f), flats, Column(docs, part));
  }

  function ByRate(flats: seq<Flat>, rate: real): (r: seq<real>)
    ensures |r| == |flats| && forall i :: 0 <= i < |r| ==> r[i] == flats[i].area * rate
  {
    seq(|flats|, i requires 0 <= i < |flats| => flats[i].area * rate)
  }

  lemma {:induction false} RateTimesArea(flats: seq<Flat>, rate: real, n: nat)
    requires n <= |flats|
    ensures RealSum(ByRate(flats, rate)[..n]) == RealSum(Areas(flats)[..n]) * rate
  {
    if n > 0 {
      RateTimesArea(flats, rate, n - 1);
      RealSumStep(ByRate(flats, rate), n - 1);
      RealSumStep(Areas(flats), n - 1);
      var s, x := RealSum(Areas(flats)[..n - 1]), flats[n - 1].area;
      assert (s + x) * rate == s * rate + x * rate;
    }
  }

  /** Every flat is charged its own area at the rate per square foot, to the nearest paisa; over the run that is the
      rate times the whole area within half a paisa per flat. Without a positive rate nothing is charged. */
  lemma MaintenanceBilled(flats: seq<Flat>, c: Charges, month: int, year: int, ids: seq<string>, docs: seq<Bill>)
    requires IsBillRun(flats, c, month, year, ids, docs)
    ensures forall i | 0 <= i < |docs| ::
              if c.sqftRate > 0.0 then -0.5 < docs[i].amounts.maintenance - flats[i].area * c.sqftRate <= 0.5
              else docs[i].amounts.maintenance == 0.0
    ensures c.sqftRate > 0.0 ==>
              Within(RealSum(Column(docs, MAINTENANCE)) - RealSum(Areas(flats)) * c.sqftRate, |flats|)
  {
    forall i | 0 <= i < |docs| ensures docs[i].amounts.maintenance == MaintenanceShare(flats, c, i) as real {
      MaintenanceIs(flats, c, i);
    }
    forall i | 0 <= i < |docs|
      ensures if c.sqftRate > 0.0 then -0.5 < docs[i].amounts.maintenance - flats[i].area * c.sqftRate <= 0.5
              else docs[i].amounts.maintenance == 0.0
    {
      MaintenanceNear(flats, c, i);
    }
    if c.sqftRate > 0.0 { MaintenanceSum(flats, c, Column(docs, MAINTENANCE)); }
  }

  lemma MaintenanceIs(flats: seq<Flat>, c: Charges, i: nat)
    requires i < |flats|
    ensures AmountsFor(flats, c, i).maintenance == MaintenanceShare(flats, c, i) as real
  {
  }

  lemma MaintenanceNear(flats: seq<Flat>, c: Charges, i: nat)
    requires i < |flats|
    ensures if c.sqftRate > 0.0 then -0.5 < MaintenanceShare(flats, c, i) as real - flats[i].area * c.sqftRate <= 0.5
            else MaintenanceShare(flats, c, i) == 0
  {
    Nearest(flats[i].area * c.sqftRate);
  }

  lemma MaintenanceSum(flats: seq<Flat>, c: Charges, charged: seq<real>)
    requires |charged| == |flats| && c.sqftRate > 0.0
    requires forall i: nat | i < |flats| :: charged[i] == MaintenanceShare(flats, c, i) as real
    ensures Within(RealSum(charged) - RealSum(Areas(flats)) * c.sqftRate, |flats|)
  {
    RoundedByRate(flats, c);
    RoundedSum(ByRate(flats, c.sqftRate), charged);
    RateTimesWhole(flats, c.sqftRate);
  }

  lemma RoundedSum(parts: seq<real>, charged: seq<real>)
    requires |charged| == |parts| && forall i: nat | i < |parts| :: charged[i] == RoundAt(parts)(i) as real
    ensures Within(RealSum(charged) - RealSum(parts), |parts|)
  {
    RealSumAll(charged, RoundAt(parts));
    RoundedPrefix(parts, |parts|);
    assert parts[..|parts|] == parts && Range(|parts|)[..|parts|] == Range(|parts|);
  }

  lemma RoundedByRate(flats: seq<Flat>, c: Charges)
    requires c.sqftRate > 0.0
    ensures forall i: nat | i < |flats| :: MaintenanceShare(flats, c, i) == RoundAt(ByRate(flats, c.sqftRate))(i)
  {
  }

  lemma RateTimesWhole(flats: seq<Flat>, rate: real)
    ensures RealSum(ByRate(flats, rate)) == RealSum(Areas(flats)) * rate
  {
    RateTimesArea(flats, rate, |flats|);
    assert ByRate(flats, rate)[..|flats|] == ByRate(flats, rate) && Areas(flats)[..|flats|] == Areas(flats);
  }

  /** Every flat pays water for its own residents, within half a paisa for each of them of their part of the total; a
      flat without residents pays none. */
  lemma WaterBilled(flats: seq<Flat>, c: Charges, month: int, year: int, ids: seq<string>, docs: seq<Bill>, i: nat)
    requires IsBillRun(flats, c, month, year, ids, docs) && i < |docs|
    ensures flats[i].inmates == 0 || c.water == 0.0 ==> docs[i].amounts.water == 0.0
    ensures flats[i].inmates > 0 ==>
              SumBy(Inmates(flats), HEADS) > 0
              && Within(docs[i].amounts.water
                          - c.water / SumBy(Inmates(flats), HEADS) as real * flats[i].inmates as real,
                        flats[i].inmates)
  {
    WaterIs(flats, c, i);
    WaterPartIs(flats, c, i);
    if flats[i].inmates > 0 { WaterPartNear(flats, c, i); }
  }

  lemma WaterPartNear(flats: seq<Flat>, c: Charges, i: nat)
    requires i < |flats| && flats[i].inmates > 0
    ensures SumBy(Inmates(flats), HEADS) > 0
    ensures Within(WaterPart(flats, c, i) as real
                     - c.water / SumBy(Inmates(flats), HEADS) as real * flats[i].inmates as real, flats[i].inmates)
  {
    Resident(flats, i);
    RateIs(c.water, Inmates(flats));
    WaterPartIs(flats, c, i);
    WaterShareNear(c.water, SumBy(Inmates(flats), HEADS), flats[i].inmates, WaterRate(c.water, Inmates(flats)));
  }

  lemma Resident(flats: seq<Flat>, i: nat)
    requires i < |flats| && flats[i].inmates > 0
    ensures SumBy(Inmates(flats), HEADS) > 0
  {
    assert Inmates(flats)[i] == flats[i].inmates && Inmates(flats)[i] in Inmates(flats);
    SumAtLeast(Inmates(flats), HEADS, flats[i].inmates);
  }

  lemma RateIs(total: real, inmates: seq<nat>)
    requires SumBy(inmates, HEADS) > 0
    ensures WaterRate(total, inmates)
         == if total != 0.0 then RoundMoney(total / SumBy(inmates, HEADS) as real) else 0
  {
  }

  lemma WaterIs(flats: seq<Flat>, c: Charges, i: nat)
    requires i < |flats|
    ensures AmountsFor(flats, c, i).water == WaterPart(flats, c, i) as real
  {
  }

  lemma WaterPartIs(flats: seq<Flat>, c: Charges, i: nat)
    requires i < |flats|
    ensures WaterPart(flats, c, i) == WaterRate(c.water, Inmates(flats)) * flats[i].inmates
    ensures flats[i].inmates == 0 || c.water == 0.0 ==> WaterPart(flats, c, i) == 0
  {
    WholePaise(WaterRate(c.water, Inmates(flats)) * flats[i].inmates);
  }

  lemma WaterShareNear(total: real, heads: nat, k: nat, rate: int)
    requires heads > 0 && rate == if total != 0.0 then RoundMoney(total / heads as real) else 0
    ensures Within((rate * k) as real - total / heads as real * k as real, k)
  {
    var mean := total / heads as real;
    if total != 0.0 { Nearest(mean); }
    ScaledError(k, rate as real - mean);
    RealProduct(rate, k);
    Distribute(k as real, rate as real, mean);
  }

  /** The rest of a generated bill: whose it is, for when, and that it is open, unposted and without extra charges. */
  lemma BillIs(flats: seq<Flat>, c: Charges, month: int, year: int, ids: seq<string>, docs: seq<Bill>, i: nat)
    requires IsBillRun(flats, c, month, year, ids, docs) && i < |docs|
    ensures |docs| == |flats| && docs[i].id == ids[i]
    ensures docs[i].flatId == flats[i].id && docs[i].flatNumber == flats[i].number
    ensures docs[i].month == month && docs[i].year == year
    ensures docs[i].status == Generated && !docs[i].isPosted && docs[i].journalId == None
    ensures docs[i].amounts.extra == 0.0
    ensures var a := docs[i].amounts;
      docs[i].amount == a.maintenance + a.water + a.fixed + a.sinking + a.repair + a.association + a.corpus
  {
    var m, w, f, s, r, a, k := AmountsAreWhole(flats, c, i);
    WholeTotal(m, w, f, s, r, a, k);
  }

  lemma SixComponents(cs: seq<Component>)
    requires |cs| == 6
    ensures SumBy(cs, AMOUNT) == cs[0].amount + cs[1].amount + cs[2].amount + cs[3].amount + cs[4].amount + cs[5].amount
  {
    SumStep(cs, 5, AMOUNT);
    SumStep(cs, 4, AMOUNT);
    SumStep(cs, 3, AMOUNT);
    SumStep(cs, 2, AMOUNT);
    SumStep(cs, 1, AMOUNT);
    SumStep(cs, 0, AMOUNT);
    assert cs[..6] == cs;
  }

  lemma WholeTotal(m: int, w: int, f: int, s: int, r: int, a: int, c: int)
    ensures var x := Whole(m, w, f, s, r, a, c);
      && AmountTotal(x) == (m + w + f + s + r + a + c) as real
      && SumBy(AllComponents(x), AMOUNT) == m + w + f + s + r + a + c
  {
    assert m as real + w as real + f as real + s as real + r as real + a as real + c as real
        == (m + w + f + s + r + a + c) as real;
    WholePaise(m + w + f + s + r + a + c);
    WholeParts(m, w, f, s, r, a, c);
    SixComponents(AllComponents(Whole(m, w, f, s, r, a, c)));
  }

  lemma WholeParts(m: int, w: int, f: int, s: int, r: int, a: int, c: int)
    ensures AllComponents(Whole(m, w, f, s, r, a, c))
              == [Component("41001", m + f), Component("41004", w), Component("31011", s),
              Component("31012", r), Component("31010", a), Component("31004", c)]
  {
    WholePaise(m);
    WholePaise(w);
    WholePaise(f);
    WholePaise(s);
    WholePaise(r);
    WholePaise(a);
    WholePaise(c);
    WholePaise(0);
  }

  /** A generated bill's total is the exact sum of its components, so it is what posting debits unless a share is
      negative. */
  lemma GeneratedTotal(flats: seq<Flat>, c: Charges, month: int, year: int, id: string, i: nat)
    requires i < |flats|
    ensures var b := BillFor(flats, c, month, year, id, i);
      && b.amount == SumBy(AllComponents(b.amounts), AMOUNT) as real
      && (CreditTotal(b.amounts) as real == b.amount <==> forall x | x in AllComponents(b.amounts) :: x.amount >= 0)
  {
    var m, w, f, s, r, a, k := AmountsAreWhole(flats, c, i);
    WholeBill(m, w, f, s, r, a, k);
  }

  lemma AmountsAreWhole(flats: seq<Flat>, c: Charges, i: nat)
    returns (m: int, w: int, f: int, s: int, r: int, a: int, k: int)
    requires i < |flats|
    ensures AmountsFor(flats, c, i) == Whole(m, w, f, s, r, a, k)
  {
    m, w := MaintenanceShare(flats, c, i), WaterPart(flats, c, i);
    f, s, r := FundShare(flats, c, Fixed, i), FundShare(flats, c, Sinking, i), FundShare(flats, c, Repair, i);
    a, k := FundShare(flats, c, Association, i), FundShare(flats, c, Corpus, i);
  }

  lemma WholeBill(m: int, w: int, f: int, s: int, r: int, a: int, c: int)
    ensures var x := Whole(m, w, f, s, r, a, c);
      && AmountTotal(x) == SumBy(AllComponents(x), AMOUNT) as real
      && (CreditTotal(x) as real == AmountTotal(x) <==> forall y | y in AllComponents(x) :: y.amount >= 0)
  {
    WholeTotal(m, w, f, s, r, a, c);
    NothingDroppedIff(Whole(m, w, f, s, r, a, c));
  }

  // ---- Regeneration ----

  /** What a regeneration request replaces; anything absent is copied from the previous bill, the association share
      always. */
  datatype Overrides = Overrides(
    maintenance: Option<real>, water: Option<real>, fixed: Option<real>, sinking: Option<real>, repair: Option<real>,
    corpus: Option<real>, occupants: int, waterRate: real)

  const NOTHING := Amounts(0.0, 0.0, 0.0, 0.0, 0.0, 0.0, 0.0, 0.0)

  function Regenerated(previous: Amounts, o: Overrides): Amounts {
    var water :=
      if o.water.Some? then o.water.value
      else if o.occupants > 0 && o.waterRate > 0.0 then RoundMoney(o.waterRate * o.occupants as real) as real
      else previous.water;
    Amounts(o.maintenance.GetOr(previous.maintenance), water, o.fixed.GetOr(previous.fixed),
        o.sinking.GetOr(previous.sinking),
      o.repair.GetOr(previous.repair), previous.association, o.corpus.GetOr(previous.corpus), 0.0)
  }

  /** Every component is its override, or else the previous bill's, the association share always the previous bill's;
      without a water override a given number of occupants is charged at the previous rate per head. Extra charges of
      the previous bill are not carried over. */
  predicate Regenerates(p: Amounts, o: Overrides, a: Amounts) {
    && (if o.maintenance.Some? then a.maintenance == o.maintenance.value else a.maintenance == p.maintenance)
    && (if o.fixed.Some? then a.fixed == o.fixed.value else a.fixed == p.fixed)
    && (if o.sinking.Some? then a.sinking == o.sinking.value else a.sinking == p.sinking)
    && (if o.repair.Some? then a.repair == o.repair.value else a.repair == p.repair)
    && (if o.corpus.Some? then a.corpus == o.corpus.value else a.corpus == p.corpus)
    && a.association == p.association && a.extra == 0.0
    && (if o.water.Some? then a.water == o.water.value
        else if o.occupants > 0 && o.waterRate > 0.0 then
          -0.5 < a.water - o.waterRate * o.occupants as real <= 0.5 && a.water == a.water.Floor as real
        else a.water == p.water)
  }

  lemma RegeneratedIs(p: Amounts, o: Overrides)
    ensures Regenerates(p, o, Regenerated(p, o))
  {
    Nearest(o.waterRate * o.occupants as real);
  }
}
