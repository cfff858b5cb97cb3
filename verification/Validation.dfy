// validate_journal_lines and validate_source_journal_lines: the same checks over account ids and over source codes.
module Validation {
  import opened Wrappers
  import opened Seqs
  import opened Sums
  import opened Money

  datatype RawLine<K> = RawLine(key: K, debit: Amount, credit: Amount)
  datatype Posting<K> = Posting(key: K, debit: int, credit: int)
  datatype Checked<K> = Checked(totalDebit: int, totalCredit: int, postings: seq<Posting<K>>)

  datatype LineError =
    | TooFewLines | BlankCode | EmptyLine | TwoSidedLine
    | OneSidedEntry | SingleAccount | NonPositiveTotal | Unbalanced

  function RoundLine<K>(l: RawLine<K>): Posting<K> {
    Posting(l.key, Quantize(l.debit), Quantize(l.credit))
  }

  function RoundAll<K>(lines: seq<RawLine<K>>): (r: seq<Posting<K>>)
    ensures |r| == |lines| && forall i :: 0 <= i < |r| ==> r[i] == RoundLine(lines[i])
  {
    seq(|lines|, i requires 0 <= i < |lines| => RoundLine(lines[i]))
  }

  function Fault<K>(l: RawLine<K>, blank: K -> bool): Option<LineError> {
    var p := RoundLine(l);
    if blank(l.key) then Some(BlankCode)
    else if p.debit == 0 && p.credit == 0 then Some(EmptyLine)
    else if p.debit > 0 && p.credit > 0 then Some(TwoSidedLine)
    else None
  }

  function Debit<K>(p: Posting<K>): int { p.debit }
  function Credit<K>(p: Posting<K>): int { p.credit }
  function IsDebit<K>(p: Posting<K>): int { if p.debit > 0 then 1 else 0 }
  function IsCredit<K>(p: Posting<K>): int { if p.credit > 0 then 1 else 0 }

  function KeysOf<K(==)>(ps: seq<Posting<K>>): set<K> {
    set p | p in ps :: p.key
  }

  function Faulty<K>(blank: K -> bool): RawLine<K> -> bool {
    l => Fault(l, blank).Some?
  }

  /** The verdict of the validators: the first faulty line wins, then the entry-level checks in order. */
  function Check<K(==)>(lines: seq<RawLine<K>>, blank: K -> bool): Result<Checked<K>, LineError> {
    if |lines| < 2 then Err(TooFewLines)
    else
      var bad := FindFirst(lines, Faulty(blank));
      if bad.Some? then Err(Fault(lines[bad.value], blank).value) else EntryCheck(RoundAll(lines))
  }

  function EntryCheck<K(==)>(ps: seq<Posting<K>>): Result<Checked<K>, LineError> {
    var debit, credit := SumBy(ps, Debit), SumBy(ps, Credit);
    if SumBy(ps, IsDebit) == 0 || SumBy(ps, IsCredit) == 0 then Err(OneSidedEntry)
    else if |KeysOf(ps)| < 2 then Err(SingleAccount)
    else if debit <= 0 || credit <= 0 then Err(NonPositiveTotal)
    else if debit != credit then Err(Unbalanced)
    else Ok(Checked(debit, credit, ps))
  }

  predicate OneSide<K>(p: Posting<K>) {
    (p.debit == 0 && p.credit > 0) || (p.credit == 0 && p.debit > 0)
  }

  /** Double entry, said without the order of the checks. */
  ghost predicate IsDoubleEntry<K>(ps: seq<Posting<K>>) {
    && |ps| >= 2
    && (forall p | p in ps :: OneSide(p))
    && (exists i, j :: 0 <= i < |ps| && 0 <= j < |ps| && ps[i].key != ps[j].key)
    && SumBy(ps, Debit) == SumBy(ps, Credit)
  }

  lemma TwoKeys<K>(ps: seq<Posting<K>>)
    ensures |KeysOf(ps)| >= 2 <==> exists i, j :: 0 <= i < |ps| && 0 <= j < |ps| && ps[i].key != ps[j].key
  {
    var keys := KeysOf(ps);
    if i, j :| 0 <= i < |ps| && 0 <= j < |ps| && ps[i].key != ps[j].key {
      assert ps[i] in ps && ps[j] in ps;
      var pair := {ps[i].key, ps[j].key};
      assert pair <= keys && |pair| == 2;
      SubsetSize(pair, keys);
    }
    if |keys| >= 2 {
      TwoElements(keys);
      var k, k' :| k in keys && k' in keys && k != k';
      var p :| p in ps && p.key == k;
      var p' :| p' in ps && p'.key == k';
    }
  }

  lemma TwoElements<T>(a: set<T>)
    requires |a| >= 2
    ensures exists x, y :: x in a && y in a && x != y
  {
    var x :| x in a;
    var rest := a - {x};
    assert |rest| == |a| - 1;
    var y :| y in rest;
  }

  /** A balanced set of one-sided lines has both a debit and a credit, and positive totals. */
  lemma BothSides<K>(ps: seq<Posting<K>>)
    requires IsDoubleEntry(ps)
    ensures SumBy(ps, IsDebit) > 0 && SumBy(ps, IsCredit) > 0
    ensures SumBy(ps, Debit) > 0 && SumBy(ps, Credit) > 0
  {
    var p := ps[0];
    SumAtLeast(ps, Debit, p);
    SumAtLeast(ps, Credit, p);
    CountZero(ps);
  }

  lemma CountZero<K>(ps: seq<Posting<K>>)
    requires forall p | p in ps :: p.debit >= 0 && p.credit >= 0
    ensures SumBy(ps, IsDebit) >= 0 && SumBy(ps, IsCredit) >= 0
    ensures SumBy(ps, IsDebit) > 0 <==> SumBy(ps, Debit) > 0
    ensures SumBy(ps, IsCredit) > 0 <==> SumBy(ps, Credit) > 0
  {
    if |ps| == 0 {
    } else {
      CountZero(ps[..|ps| - 1]);
      SumAtLeast(ps[..|ps| - 1], Debit, ps[0]);
      SumAtLeast(ps[..|ps| - 1], Credit, ps[0]);
    }
  }

  /** With no faulty line every rounded line is one-sided; with one, some line is not or has a blank code. */
  lemma FaultFree<K>(lines: seq<RawLine<K>>, blank: K -> bool)
    ensures (forall l | l in lines :: Fault(l, blank).None?) <==>
            (forall l | l in lines :: !blank(l.key)) &&
            forall p | p in RoundAll(lines) :: OneSide(p)
  {
    var ps := RoundAll(lines);
    forall i | 0 <= i < |lines|
      ensures ps[i].debit >= 0 && ps[i].credit >= 0 && lines[i] in lines && ps[i] in ps
    {
      Nearest(lines[i].debit);
      Nearest(lines[i].credit);
    }
  }

  /** Acceptance is exactly double entry on the rounded lines, and the accepted totals are the line sums. */
  lemma AcceptedIff<K>(lines: seq<RawLine<K>>, blank: K -> bool)
    ensures Check(lines, blank).Ok? <==>
              (forall l | l in lines :: !blank(l.key)) && IsDoubleEntry(RoundAll(lines))
    ensures Check(lines, blank).Ok? ==>
              Check(lines, blank).value == Checked(SumBy(RoundAll(lines), Debit), SumBy(RoundAll(lines), Debit),
                  RoundAll(lines))
    ensures Check(lines, blank) != Err(NonPositiveTotal)
  {
    var ps := RoundAll(lines);
    FaultFree(lines, blank);
    if |lines| >= 2 && forall l | l in lines :: Fault(l, blank).None? {
      EntryVerdict(ps);
    }
  }

  predicate RoundsToDebit<K>(l: RawLine<K>) { Quantize(l.debit) > 0 }
  predicate RoundsToCredit<K>(l: RawLine<K>) { Quantize(l.credit) > 0 }

  /** Line i is the first that has a blank code, or rounds to nothing, or to both a debit and a credit. */
  predicate FirstBad<K>(lines: seq<RawLine<K>>, blank: K -> bool, i: int) {
    && 0 <= i < |lines| && IsBad(lines[i], blank) && forall j | 0 <= j < i :: !IsBad(lines[j], blank)
  }

  predicate IsBad<K>(l: RawLine<K>, blank: K -> bool) {
    blank(l.key) || RoundsToDebit(l) == RoundsToCredit(l)
  }

  function BadnessOf<K>(l: RawLine<K>, blank: K -> bool): LineError {
    if blank(l.key) then BlankCode else if RoundsToDebit(l) then TwoSidedLine else EmptyLine
  }

  lemma BadIsFaulty<K>(l: RawLine<K>, blank: K -> bool)
    ensures Faulty(blank)(l) <==> IsBad(l, blank)
    ensures IsBad(l, blank) ==> Fault(l, blank) == Some(BadnessOf(l, blank))
  {
    Nearest(l.debit);
    Nearest(l.credit);
  }

  /** What a refusal says: too few lines; else the fault of the first bad line; else that debits or credits are missing
      altogether; else that all lines fall on one account; else that the sums differ. */
  lemma VerdictCauses<K>(lines: seq<RawLine<K>>, blank: K -> bool)
    ensures |lines| < 2 <==> Check(lines, blank) == Err(TooFewLines)
    ensures |lines| >= 2 ==>
              forall i | FirstBad(lines, blank, i) :: Check(lines, blank) == Err(BadnessOf(lines[i], blank))
    ensures |lines| >= 2 && (forall l | l in lines :: !IsBad(l, blank)) ==>
              var verdict := Check(lines, blank);
              if !(exists l | l in lines :: RoundsToDebit(l)) || !(exists l | l in lines :: RoundsToCredit(l)) then
                verdict == Err(OneSidedEntry)
              else if forall a, b | a in lines && b in lines :: a.key == b.key then verdict == Err(SingleAccount)
              else if SumBy(RoundAll(lines), Debit) != SumBy(RoundAll(lines), Credit) then verdict == Err(Unbalanced)
              else verdict.Ok?
  {
    if |lines| >= 2 {
      forall i | FirstBad(lines, blank, i) ensures Check(lines, blank) == Err(BadnessOf(lines[i], blank)) {
        forall j | 0 <= j <= i ensures Faulty(blank)(lines[j]) <==> IsBad(lines[j], blank) {
          BadIsFaulty(lines[j], blank);
        }
        BadIsFaulty(lines[i], blank);
        FirstFault(lines, blank, Faulty(blank), i);
      }
      if forall l | l in lines :: !IsBad(l, blank) {
        forall j | 0 <= j < |lines| ensures !Faulty(blank)(lines[j]) {
          BadIsFaulty(lines[j], blank);
        }
        NoFault(lines, blank, Faulty(blank));
        EntryCauses(lines);
      }
    }
  }

  lemma EntryCauses<K>(lines: seq<RawLine<K>>)
    requires |lines| >= 2
    ensures var (ps, verdict) := (RoundAll(lines), EntryCheck(RoundAll(lines)));
      if !(exists l | l in lines :: RoundsToDebit(l)) || !(exists l | l in lines :: RoundsToCredit(l)) then
        verdict == Err(OneSidedEntry)
      else if forall a, b | a in lines && b in lines :: a.key == b.key then verdict == Err(SingleAccount)
      else if SumBy(ps, Debit) != SumBy(ps, Credit) then verdict == Err(Unbalanced)
      else verdict.Ok?
  {
    var ps := RoundAll(lines);
    forall i | 0 <= i < |lines| ensures ps[i].debit >= 0 && ps[i].credit >= 0 && ps[i] == RoundLine(lines[i]) {
      Nearest(lines[i].debit);
      Nearest(lines[i].credit);
    }
    SidesCount(lines);
    KeysAgree(lines);
    CountZero(ps);
  }

  lemma SidesCount<K>(lines: seq<RawLine<K>>)
    ensures var ps := RoundAll(lines);
      && SumBy(ps, IsDebit) >= 0 && SumBy(ps, IsCredit) >= 0
      && (SumBy(ps, IsDebit) == 0 <==> !(exists l | l in lines :: RoundsToDebit(l)))
      && (SumBy(ps, IsCredit) == 0 <==> !(exists l | l in lines :: RoundsToCredit(l)))
  {
    var ps := RoundAll(lines);
    forall i | 0 <= i < |lines| ensures ps[i] == RoundLine(lines[i]) && lines[i] in lines && ps[i] in ps {
    }
    if |ps| > 0 {
      SumAtLeast(ps, IsDebit, ps[0]);
      SumAtLeast(ps, IsCredit, ps[0]);
    }
    if l :| l in lines && RoundsToDebit(l) {
      var i :| 0 <= i < |lines| && lines[i] == l;
      SumAtLeast(ps, IsDebit, ps[i]);
    } else {
      SumZero(ps, IsDebit);
    }
    if l :| l in lines && RoundsToCredit(l) {
      var i :| 0 <= i < |lines| && lines[i] == l;
      SumAtLeast(ps, IsCredit, ps[i]);
    } else {
      SumZero(ps, IsCredit);
    }
  }

  lemma KeysAgree<K>(lines: seq<RawLine<K>>)
    requires |lines| >= 2
    ensures |KeysOf(RoundAll(lines))| < 2 <==> forall a, b | a in lines && b in lines :: a.key == b.key
  {
    var ps := RoundAll(lines);
    TwoKeys(ps);
    assert forall i | 0 <= i < |ps| :: ps[i].key == lines[i].key && lines[i] in lines;
  }

  lemma EntryVerdict<K>(ps: seq<Posting<K>>)
    requires |ps| >= 2 && forall p | p in ps :: OneSide(p)
    ensures EntryCheck(ps).Ok? <==> IsDoubleEntry(ps)
    ensures EntryCheck(ps).Ok? ==> EntryCheck(ps).value == Checked(SumBy(ps, Debit), SumBy(ps, Debit), ps)
    ensures EntryCheck(ps) != Err(NonPositiveTotal)
  {
    TwoKeys(ps);
    CountZero(ps);
    if IsDoubleEntry(ps) { BothSides(ps); }
  }

  /** One-sided lines with equal sums fail only for want of a second account. */
  lemma BalancedVerdict<K>(lines: seq<RawLine<K>>, blank: K -> bool)
    requires forall l | l in lines :: Fault(l, blank).None?
    requires |lines| >= 2 && SumBy(RoundAll(lines), Debit) == SumBy(RoundAll(lines), Credit) > 0
    ensures var ps := RoundAll(lines);
      Check(lines, blank) == if |KeysOf(ps)| < 2 then Err(SingleAccount)
          else Ok(Checked(SumBy(ps, Debit), SumBy(ps, Credit), ps))
  {
    FaultFree(lines, blank);
    CountZero(RoundAll(lines));
  }

  lemma Step<K>(ps: seq<Posting<K>>, i: nat)
    requires i < |ps|
    ensures SumBy(ps[..i + 1], Debit) == SumBy(ps[..i], Debit) + ps[i].debit
    ensures SumBy(ps[..i + 1], Credit) == SumBy(ps[..i], Credit) + ps[i].credit
    ensures SumBy(ps[..i + 1], IsDebit) == SumBy(ps[..i], IsDebit) + IsDebit(ps[i])
    ensures SumBy(ps[..i + 1], IsCredit) == SumBy(ps[..i], IsCredit) + IsCredit(ps[i])
    ensures KeysOf(ps[..i + 1]) == KeysOf(ps[..i]) + {ps[i].key}
    ensures ps[..i + 1] == ps[..i] + [ps[i]]
  {
    SumStep(ps, i, Debit);
    SumStep(ps, i, Credit);
    SumStep(ps, i, IsDebit);
    SumStep(ps, i, IsCredit);
    assert ps[..i + 1] == ps[..i] + [ps[i]];
    assert ps[i] in ps[..i + 1];
  }

  /** Rounds one line, or says what is wrong with it. */
  method ReadLine<K(==)>(l: RawLine<K>, blank: K -> bool) returns (r: Result<Posting<K>, LineError>)
    ensures r.Err? <==> Faulty(blank)(l)
    ensures if r.Err? then Fault(l, blank) == Some(r.error) else r.value == RoundLine(l)
  {
    var debit, credit := Quantize(l.debit), Quantize(l.credit);
    if blank(l.key) {
      return Err(BlankCode);
    }
    if debit == 0 && credit == 0 {
      return Err(EmptyLine);
    }
    if debit > 0 && credit > 0 {
      return Err(TwoSidedLine);
    }
    return Ok(Posting(l.key, debit, credit));
  }

  /** The checks on the entry as a whole, from what the loop has counted. */
  method JudgeEntry<K(==)>(totalDebit: int, totalCredit: int, debitLines: int, creditLines: int, keys: set<K>,
                           normalized: seq<Posting<K>>)
    returns (r: Result<Checked<K>, LineError>)
    requires totalDebit == SumBy(normalized, Debit) && totalCredit == SumBy(normalized, Credit)
    requires debitLines == SumBy(normalized, IsDebit) && creditLines == SumBy(normalized, IsCredit)
    requires keys == KeysOf(normalized)
    ensures r == EntryCheck(normalized)
  {
    if debitLines == 0 || creditLines == 0 {
      return Err(OneSidedEntry);
    }
    if |keys| < 2 {
      return Err(SingleAccount);
    }
    if totalDebit <= 0 || totalCredit <= 0 {
      return Err(NonPositiveTotal);
    }
    if totalDebit != totalCredit {
      return Err(Unbalanced);
    }
    return Ok(Checked(totalDebit, totalCredit, normalized));
  }

  lemma FirstFault<K>(lines: seq<RawLine<K>>, blank: K -> bool, faulty: RawLine<K> -> bool, i: nat)
    requires faulty == Faulty(blank) && |lines| >= 2 && i < |lines| && faulty(lines[i])
    requires forall j :: 0 <= j < i ==> !faulty(lines[j])
    ensures Check(lines, blank) == Err(Fault(lines[i], blank).value)
  {
    var bad := FindFirst(lines, faulty).value;
    assert faulty(lines[bad]);
    assert bad == i;
  }

  lemma NoFault<K>(lines: seq<RawLine<K>>, blank: K -> bool, faulty: RawLine<K> -> bool)
    requires faulty == Faulty(blank) && |lines| >= 2
    requires forall j :: 0 <= j < |lines| ==> !faulty(lines[j])
    ensures Check(lines, blank) == EntryCheck(RoundAll(lines))
  {
  }

  /** The loop of both validators; blank picks out the codes that only the source variant refuses. */
  method Validate<K(==)>(lines: seq<RawLine<K>>, blank: K -> bool) returns (r: Result<Checked<K>, LineError>)
    ensures r == Check(lines, blank)
  {
    if |lines| < 2 {
      return Err(TooFewLines);
    }
    var totalDebit, totalCredit := 0, 0;
    var debitLines, creditLines := 0, 0;
    var keys: set<K> := {};
    var normalized: seq<Posting<K>> := [];
    ghost var faulty, ps := Faulty(blank), RoundAll(lines);
    for i := 0 to |lines|
      invariant forall j :: 0 <= j < i ==> !faulty(lines[j])
      invariant normalized == ps[..i]
      invariant totalDebit == SumBy(ps[..i], Debit) && totalCredit == SumBy(ps[..i], Credit)
      invariant debitLines == SumBy(ps[..i], IsDebit) && creditLines == SumBy(ps[..i], IsCredit)
      invariant keys == KeysOf(ps[..i])
    {
      var line := ReadLine(lines[i], blank);
      if line.Err? {
        FirstFault(lines, blank, faulty, i);
        return Err(line.error);
      }
      var p := line.value;
      assert !faulty(lines[i]);
      assert forall j :: 0 <= j <= i ==> !faulty(lines[j]);
      if p.debit > 0 { debitLines := debitLines + 1; }
      if p.credit > 0 { creditLines := creditLines + 1; }
      totalDebit, totalCredit := totalDebit + p.debit, totalCredit + p.credit;
      keys := keys + {p.key};
      normalized := normalized + [p];
      Step(ps, i);
    }
    assert ps[..|lines|] == ps;
    NoFault(lines, blank, faulty);
    r := JudgeEntry(totalDebit, totalCredit, debitLines, creditLines, keys, normalized);
  }
}
