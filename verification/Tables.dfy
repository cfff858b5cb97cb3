// The accounting tables as a value, and the constraints every reachable database satisfies.
module Tables {
  import opened Wrappers
  import opened Sums

  datatype AccountType = Asset | Liability | Equity | Income | Expense
  datatype Classification = Personal | Nominal | RealAccount
  datatype SourceSystem = GharMitra | MandirMitra | MitraBooks | LegalMitra | InvestMitra
  datatype MappingStatus = Active | Draft | Inactive

  datatype Scope = Scope(appKey: string, tenantId: string, entityId: string)

  datatype Account = Account(
    scope: Scope, code: Option<string>, name: string, kind: AccountType, classification: Classification,
    isCashBank: bool, isReceivable: bool, isPayable: bool)

  datatype Entry = Entry(
    scope: Scope, date: int, description: Option<string>, reference: Option<string>, key: Option<string>,
    totalDebit: int, totalCredit: int, createdBy: string)

  datatype Line = Line(scope: Scope, journalId: int, accountId: int, debit: int, credit: int)

  datatype SourceAccount = SourceAccount(
    scope: Scope, system: SourceSystem, code: string, name: string, kind: Option<AccountType>, active: bool)

  datatype Mapping = Mapping(
    scope: Scope, sourceId: int, canonicalId: int, status: MappingStatus, notes: Option<string>, mappedBy: string)

  /** The tables. A row's primary key is its position: nothing in the service deletes a row. */
  datatype Db = Db(
    accounts: seq<Account>, entries: seq<Entry>, lines: seq<Line>,
    sources: seq<SourceAccount>, mappings: seq<Mapping>)

  const DR: Line -> int := (l: Line) => l.debit
  const CR: Line -> int := (l: Line) => l.credit
  const NET: Line -> int := (l: Line) => l.debit - l.credit
  const JOURNAL: Line -> int := (l: Line) => l.journalId
  const ACCOUNT: Line -> int := (l: Line) => l.accountId

  // ---- Table constraints ----

  /** The CHECK constraints on accounts. */
  predicate AccountChecks(a: Account) {
    && !(a.isReceivable && a.isPayable)
    && (a.isReceivable ==> a.kind == Asset)
    && (a.isPayable ==> a.kind == Liability)
    && (a.isCashBank ==> a.kind == Asset)
  }

  function HasCode(scope: Scope, code: string): Account -> bool {
    (a: Account) => a.scope == scope && a.code == Some(code)
  }

  function HasKey(scope: Scope, key: string): Entry -> bool {
    (e: Entry) => e.scope == scope && e.key == Some(key)
  }

  ghost predicate AccountsOk(accounts: seq<Account>) {
    && (forall a | a in accounts :: AccountChecks(a))
    && forall i, j | 0 <= i < j < |accounts| && accounts[i].scope == accounts[j].scope && accounts[i].code.Some? ::
         accounts[i].code != accounts[j].code
  }

  ghost predicate KeysUnique(entries: seq<Entry>) {
    forall i, j | 0 <= i < j < |entries| && entries[i].scope == entries[j].scope && entries[i].key.Some? ::
      entries[i].key != entries[j].key
  }

  predicate OneSided(debit: int, credit: int) {
    (debit == 0 && credit > 0) || (credit == 0 && debit > 0)
  }

  ghost predicate LinesOk(db: Db) {
    forall l | l in db.lines ::
      && 0 <= l.journalId < |db.entries| && 0 <= l.accountId < |db.accounts|
      && l.scope == db.entries[l.journalId].scope == db.accounts[l.accountId].scope
      && OneSided(l.debit, l.credit)
  }

  /** Every entry's stored totals are the sums of its own lines, equal and positive. */
  ghost predicate Balanced(db: Db) {
    forall e | 0 <= e < |db.entries| ::
      && SumBy(db.lines, Slice(JOURNAL, DR, e)) == db.entries[e].totalDebit
      && SumBy(db.lines, Slice(JOURNAL, CR, e)) == db.entries[e].totalCredit
      && db.entries[e].totalDebit == db.entries[e].totalCredit > 0
  }

  /** Two lines of entry e lie on different accounts. */
  ghost predicate Spread(lines: seq<Line>, e: int) {
    exists i, j :: 0 <= i < |lines| && 0 <= j < |lines| && lines[i].journalId == lines[j].journalId == e
                   && lines[i].accountId != lines[j].accountId
  }

  ghost predicate AllSpread(db: Db) {
    forall e | 0 <= e < |db.entries| :: Spread(db.lines, e)
  }

  ghost predicate SourcesOk(sources: seq<SourceAccount>) {
    forall i, j | 0 <= i < j < |sources| ::
      !(sources[i].scope == sources[j].scope && sources[i].system == sources[j].system
          && sources[i].code == sources[j].code)
  }

  predicate MappingOk(db: Db, m: Mapping) {
    && 0 <= m.sourceId < |db.sources| && 0 <= m.canonicalId < |db.accounts|
    && m.scope == db.sources[m.sourceId].scope == db.accounts[m.canonicalId].scope
  }

  ghost predicate MappingsOk(db: Db) {
    && (forall i | 0 <= i < |db.mappings| :: MappingOk(db, db.mappings[i]))
    && forall i, j | 0 <= i < j < |db.mappings| :: db.mappings[i].sourceId != db.mappings[j].sourceId
  }

  /** What every reachable database satisfies. */
  ghost predicate WellFormed(db: Db) {
    AccountsOk(db.accounts) && KeysUnique(db.entries) && LinesOk(db) && Balanced(db) && AllSpread(db)
    && SourcesOk(db.sources) && MappingsOk(db)
  }
}
