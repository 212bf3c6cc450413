/**
 * The external deletion executor `delete_records_by_filter(db_path, table, filters, limit, dry_run)`
 * of the `lab_data_manager` package, kept abstract. Its implementation is not part of this model:
 * what it answers and what a real deletion leaves behind is a parameter (`behaviour`), and the one
 * contract the core relies on holds by construction: a dry run never changes the tables.
 */
module Executor {
  import opened Wrappers

  /** A filter value: a string, a number or a boolean-like flag. */
  datatype Scalar = Text(s: string) | Number(n: int) | Flag(b: bool)

  type FilterMap = map<string, Scalar>
  type Row = map<string, Scalar>
  type Tables = map<string, seq<Row>>

  /** The five arguments of one executor call; `filters` is `None` when the caller passed none. */
  datatype ExecCall = ExecCall(
    dbPath: string,
    table: string,
    filters: Option<FilterMap>,
    limit: Option<int>,
    dryRun: bool)

  /** The dictionary the executor returns, reduced to the keys the gateways read;
      `None` is a missing key. */
  datatype ExecResult = ExecResult(
    previewCount: Option<int>,
    previewPath: Option<string>,
    deleted: Option<int>,
    deleteCandidate: Option<int>)

  /** What one call produced: a result dictionary, or an exception (an unknown table, say). */
  datatype ExecAnswer = Answered(result: ExecResult) | Failed(error: string)

  datatype Exchange = Exchange(call: ExecCall, answer: ExecAnswer)

  /** How the database answers a call in a given state, and the state a real deletion leaves. */
  type Behaviour = (ExecCall, Tables) -> (ExecAnswer, Tables)

  /** The state after one call: unchanged by a dry run, the behaviour's choice otherwise. */
  function After(b: Behaviour, call: ExecCall, t: Tables): (t': Tables)
    ensures call.dryRun ==> t' == t
  {
    if call.dryRun then t else b(call, t).1
  }

  /** Number of destructive (`dry_run=False`) calls in a log. */
  function Destructive(log: seq<Exchange>): (n: nat)
    ensures n <= |log|
    ensures n == 0 <==> forall i :: 0 <= i < |log| ==> log[i].call.dryRun
  {
    if log == [] then 0 else (if log[0].call.dryRun then 0 else 1) + Destructive(log[1..])
  }

  lemma {:induction false} DestructiveAppend(a: seq<Exchange>, b: seq<Exchange>)
    ensures Destructive(a + b) == Destructive(a) + Destructive(b)
  {
    if a == [] {
      assert a + b == b;
    } else {
      assert (a + b)[1..] == a[1..] + b;
      DestructiveAppend(a[1..], b);
    }
  }

  /** The database behind `db_path`, with the log of every executor call made against it. */
  class Database {
    const behaviour: Behaviour
    var tables: Tables
    var log: seq<Exchange>

    constructor (behaviour: Behaviour, tables: Tables)
      ensures this.behaviour == behaviour && this.tables == tables && log == []
    {
      this.behaviour := behaviour;
      this.tables := tables;
      log := [];
    }

    method DeleteRecordsByFilter(call: ExecCall) returns (answer: ExecAnswer)
      modifies this`tables, this`log
      ensures answer == behaviour(call, old(tables)).0
      ensures log == old(log) + [Exchange(call, answer)]
      ensures tables == After(behaviour, call, old(tables))
    {
      var (a, t) := behaviour(call, tables);
      answer := a;
      if !call.dryRun {
        tables := t;
      }
      log := log + [Exchange(call, answer)];
    }
  }
}
