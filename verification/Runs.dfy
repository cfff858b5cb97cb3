// Whole runs of accounting operations: reachable databases stay well formed.
module Runs {
  import opened Wrappers
  import opened Tables
  import opened Journal
  import Coa
  import SP = SourcePosting

  datatype Step =
    | NewAccount(account: Account)
    | Rename(scope: Scope, code: string, name: string)
    | PostEntry(scope: Scope, request: Request, key: Option<string>, author: string)
    | PostFromSource(scope: Scope, source: SP.SourceRequest, key: Option<string>, author: string)
    | PutSources(scope: Scope, items: seq<Coa.SourceIn>)
    | PutMappings(scope: Scope, mappings: seq<Coa.MappingIn>, author: string)
    | ApproveMappings(scope: Scope, system: SourceSystem, codes: seq<string>, author: string)

  function ScopeOf(step: Step): Scope {
    if step.NewAccount? then step.account.scope else step.scope
  }

  /** The tables after one operation, accepted or refused. */
  function Apply(db: Db, step: Step): Db {
    match step
    case NewAccount(a) => CreateAccount(db, a).0
    case Rename(s, c, n) => RenameAccount(db, s, c, n).0
    case PostEntry(s, r, k, a) => Post(db, s, r, k, a).0
    case PostFromSource(s, r, k, a) => SP.PostSource(db, s, r, k, a).0
    case PutSources(s, items) => Coa.UpsertSources(db, s, items).0
    case PutMappings(s, items, a) => Coa.UpsertMappings(db, s, items, a).0
    case ApproveMappings(s, sys, codes, a) => Coa.Approve(db, s, sys, codes, a).0
  }

  const EMPTY := Db([], [], [], [], [])

  function Run(db: Db, steps: seq<Step>): Db {
    if |steps| == 0 then db else Apply(Run(db, steps[..|steps| - 1]), steps[|steps| - 1])
  }

  lemma ApplyKeeps(db: Db, step: Step)
    requires WellFormed(db)
    ensures WellFormed(Apply(db, step))
  {
    match step
    case NewAccount(a) => CreateAccountKeeps(db, a);
    case Rename(s, c, n) => RenameKeeps(db, s, c, n);
    case PostEntry(s, r, k, a) => PostKeeps(db, s, r, k, a);
    case PostFromSource(s, r, k, a) => SP.PostSourceKeeps(db, s, r, k, a);
    case PutSources(s, items) => Coa.UpsertSourcesKeeps(db, s, items);
    case PutMappings(s, items, a) => Coa.UpsertMappingsKeeps(db, s, items, a);
    case ApproveMappings(s, sys, codes, a) => Coa.ApproveKeeps(db, s, sys, codes, a);
  }

  /** Every run from a well-formed database, the empty one in particular, stays well formed. */
  lemma {:induction false} RunKeeps(db: Db, steps: seq<Step>)
    requires WellFormed(db)
    ensures WellFormed(Run(db, steps))
  {
    if |steps| == 0 {
    } else {
      RunKeeps(db, steps[..|steps| - 1]);
      ApplyKeeps(Run(db, steps[..|steps| - 1]), steps[|steps| - 1]);
    }
  }
}
