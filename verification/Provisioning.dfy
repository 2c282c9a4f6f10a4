/** `runProvisioningQueries`: a list of templated statements, run in one transaction or one by one. */
module Provisioning {
  import opened Wrappers
  import opened Template
  import opened TemplateRewriters
  import opened SqlValues

  /** What a statement does: the state it leaves, whether it failed, and the number of rows it reports. */
  datatype Effect<S> = Effect(state: S, failed: bool, rowsAffected: int)

  type Executor<!S> = (S, Statement) -> Effect<S>

  datatype Event = Began | BeginRefused | Executed(statement: Statement) | Committed | CommitRefused | RolledBack

  /**
   * A database with at most one transaction of ours open. What happens inside it is invisible in `durable` until a
   * commit succeeds; a refused commit and every rollback give it up.
   */
  class Database<S> {
    const exec: Executor<S>
    var durable: S
    var work: Option<S>
    ghost var log: seq<Event>

    constructor (exec: Executor<S>, initial: S)
      ensures this.exec == exec && durable == initial && work == None && log == []
    {
      this.exec, durable, work, log := exec, initial, None, [];
    }

    /** The state the next statement meets. */
    ghost function Current(): S
      reads this
    {
      if work.Some? then work.value else durable
    }

    /** May fail at any time. */
    method Begin() returns (ok: bool)
      requires work.None?
      modifies this
      ensures durable == old(durable)
      ensures ok ==> work == Some(durable) && log == old(log) + [Began]
      ensures !ok ==> work == None && log == old(log) + [BeginRefused]
    {
      ok := *;
      if ok { work := Some(durable); }
      log := log + [if ok then Began else BeginRefused];
    }

    /** Runs a statement in the open transaction, or directly. */
    method ExecContext(inTx: bool, statement: Statement) returns (failed: bool, rowsAffected: int)
      requires work.Some? <==> inTx
      modifies this
      ensures var e := exec(old(Current()), statement);
              failed == e.failed && rowsAffected == e.rowsAffected && Current() == e.state
      ensures (work.Some? <==> inTx) && (inTx ==> durable == old(durable))
      ensures log == old(log) + [Executed(statement)]
    {
      var e := exec(if inTx then work.value else durable, statement);
      if inTx { work := Some(e.state); } else { durable := e.state; }
      log := log + [Executed(statement)];
      return e.failed, e.rowsAffected;
    }

    /** May be refused at any time; the transaction is over either way. */
    method Commit() returns (ok: bool)
      requires work.Some?
      modifies this
      ensures work == None
      ensures ok ==> durable == old(work).value && log == old(log) + [Committed]
      ensures !ok ==> durable == old(durable) && log == old(log) + [CommitRefused]
    {
      ok := *;
      if ok { durable := work.value; }
      work := None;
      log := log + [if ok then Committed else CommitRefused];
    }

    method Rollback()
      modifies this
      ensures durable == old(durable) && work == None && log == old(log) + [RolledBack]
    {
      work := None;
      log := log + [RolledBack];
    }
  }

  // ---- What the loop does -------------------------------------------------

  /** How far the loop gets: the state it reaches, the statements it has executed, and why it stops early if it does. */
  datatype Progress<S> = Progress(state: S, trace: seq<Statement>, stop: Option<Error>)

  function Advance<S>(exec: Executor<S>, engine: Engine, vars: map<string, Value>, queries: seq<string>, state: S)
    : Progress<S>
  {
    if queries == [] then Progress(state, [], None)
    else match Rewrite(engine, queries[0], vars)
      case Err(e) => Progress(state, [], Some(e))
      case Ok(statement) =>
        var e := exec(state, statement);
        if e.failed then Progress(e.state, [statement], Some(ExecFailed))
        else if e.rowsAffected > 1 then Progress(e.state, [statement], Some(TooManyRows))
        else
          var later := Advance(exec, engine, vars, queries[1..], e.state);
          later.(trace := [statement] + later.trace)
  }

  function Executions(trace: seq<Statement>): (events: seq<Event>)
    ensures |events| == |trace| && forall i :: 0 <= i < |trace| ==> events[i] == Executed(trace[i])
  {
    seq(|trace|, i requires 0 <= i < |trace| => Executed(trace[i]))
  }

  lemma ExecutionsGrow(before: seq<Event>, trace: seq<Statement>, statement: Statement)
    ensures before + Executions(trace) + [Executed(statement)] == before + Executions(trace + [statement])
  {
    assert Executions(trace) + [Executed(statement)] == Executions(trace + [statement]);
  }

  /** The loop state after some of the statements: what was executed, and what the rest of the loop would do. */
  ghost predicate Advanced<S>(whole: Progress<S>, trace: seq<Statement>, rest: Progress<S>) {
    whole == rest.(trace := trace + rest.trace)
  }

  lemma AdvanceStep<S>(exec: Executor<S>, engine: Engine, vars: map<string, Value>, queries: seq<string>, n: nat,
                       whole: Progress<S>, trace: seq<Statement>, state: S)
    requires n < |queries| && Advanced(whole, trace, Advance(exec, engine, vars, queries[n..], state))
    ensures match Rewrite(engine, queries[n], vars)
            case Err(e) => whole == Progress(state, trace, Some(e))
            case Ok(statement) =>
              var e := exec(state, statement);
              if e.failed then whole == Progress(e.state, trace + [statement], Some(ExecFailed))
              else if e.rowsAffected > 1 then whole == Progress(e.state, trace + [statement], Some(TooManyRows))
              else Advanced(whole, trace + [statement], Advance(exec, engine, vars, queries[n + 1..], e.state))
  {
    var rest := queries[n..];
    assert rest[0] == queries[n] && rest[1..] == queries[n + 1..];
    match Rewrite(engine, queries[n], vars)
    case Err(_) =>
      assert trace + [] == trace;
    case Ok(statement) =>
      var e := exec(state, statement);
      Associative(trace, [statement], Advance(exec, engine, vars, rest[1..], e.state).trace);
  }

  /** The end of the loop. */
  lemma AdvanceEnd<S>(exec: Executor<S>, engine: Engine, vars: map<string, Value>, queries: seq<string>,
                      whole: Progress<S>, trace: seq<Statement>, state: S)
    requires Advanced(whole, trace, Advance(exec, engine, vars, queries[|queries|..], state))
    ensures whole == Progress(state, trace, None)
  {
    assert queries[|queries|..] == [] && trace + [] == trace;
  }

  /** The loop body: one query. */
  method ExecuteQuery<S>(db: Database<S>, engine: Engine, query: string, vars: map<string, Value>, useTx: bool)
    returns (err: Option<Error>)
    requires db.work.Some? <==> useTx
    modifies db
    ensures (db.work.Some? <==> useTx) && (useTx ==> db.durable == old(db.durable))
    ensures match Rewrite(engine, query, vars)
            case Err(e) => err == Some(e) && db.Current() == old(db.Current()) && db.log == old(db.log)
            case Ok(statement) =>
              var e := db.exec(old(db.Current()), statement);
              db.Current() == e.state && db.log == old(db.log) + [Executed(statement)]
              && err == if e.failed then Some(ExecFailed) else if e.rowsAffected > 1 then Some(TooManyRows) else None
  {
    var prepared := PrepareProvisioningQuery(engine, query, vars);
    if prepared.Err? {
      return Some(prepared.error);
    }
    var failed, rowsAffected := db.ExecContext(useTx, prepared.value);
    if failed {
      return Some(ExecFailed);
    }
    if rowsAffected > 1 {
      return Some(TooManyRows);
    }
    return None;
  }

  /** The loop over the queries. */
  method ExecuteQueries<S>(db: Database<S>, engine: Engine, queries: seq<string>, vars: map<string, Value>, useTx: bool)
    returns (err: Option<Error>)
    requires db.work.Some? <==> useTx
    modifies db
    ensures (db.work.Some? <==> useTx) && (useTx ==> db.durable == old(db.durable))
    ensures var p := Advance(db.exec, engine, vars, queries, old(db.Current()));
            err == p.stop && db.Current() == p.state && db.log == old(db.log) + Executions(p.trace)
  {
    ghost var start, trace := db.log, [];
    ghost var p := Advance(db.exec, engine, vars, queries, db.Current());
    assert queries[0..] == queries && start + Executions([]) == start;
    for n := 0 to |queries|
      invariant (db.work.Some? <==> useTx) && (useTx ==> db.durable == old(db.durable))
      invariant db.log == start + Executions(trace)
      invariant Advanced(p, trace, Advance(db.exec, engine, vars, queries[n..], db.Current()))
    {
      AdvanceStep(db.exec, engine, vars, queries, n, p, trace, db.Current());
      ghost var rewritten := Rewrite(engine, queries[n], vars);
      err := ExecuteQuery(db, engine, queries[n], vars, useTx);
      if rewritten.Ok? {
        ExecutionsGrow(start, trace, rewritten.value);
        trace := trace + [rewritten.value];
      }
      if err.Some? {
        return;
      }
    }
    AdvanceEnd(db.exec, engine, vars, queries, p, trace, db.Current());
    return None;
  }

  /**
   * What a run of queries may do to the database, with the events it causes. With a transaction: no error means that
   * all queries were executed and their effect was committed; any error leaves the database as it was. Either the
   * transaction never began, or it was committed and not rolled back, or it was rolled back. Without one: what the loop
   * reached stays.
   */
  ghost predicate Outcome<S>(p: Progress<S>, useTx: bool, before: S, after: S, err: Option<Error>, events: seq<Event>) {
    var executed := Executions(p.trace);
    if !useTx then after == p.state && err == p.stop && events == executed
    else if err.None? then p.stop.None? && after == p.state && events == [Began] + executed + [Committed]
    else
      after == before
      && ((err == Some(BeginFailed) && events == [BeginRefused])
          || (err == p.stop && events == [Began] + executed + [RolledBack])
          || (err == Some(CommitFailed) && p.stop.None?
              && events == [Began] + executed + [CommitRefused] + [RolledBack]))
  }

  method RunProvisioningQueries<S>(db: Database<S>, engine: Engine, queries: seq<string>, vars: map<string, Value>,
                                   useTx: bool)
    returns (err: Option<Error>, ghost events: seq<Event>)
    requires db.work.None?
    modifies db
    ensures db.work.None? && db.log == old(db.log) + events
    ensures Outcome(Advance(db.exec, engine, vars, queries, old(db.durable)), useTx, old(db.durable), db.durable,
                    err, events)
  {
    ghost var start := db.log;
    ghost var executed := Executions(Advance(db.exec, engine, vars, queries, db.durable).trace);
    var committed := false;
    if useTx {
      var ok := db.Begin();
      if !ok {
        return Some(BeginFailed), [BeginRefused];
      }
    }
    err := ExecuteQueries(db, engine, queries, vars, useTx);
    if !useTx {
      return err, executed;
    }
    events := [Began] + executed;
    Associative(start, [Began], executed);
    if err.None? {
      committed := db.Commit();
      ghost var last := if committed then Committed else CommitRefused;
      Associative(start, events, [last]);
      events := events + [last];
      if !committed {
        err := Some(CommitFailed);
      }
    }
    // The deferred call.
    if !committed {
      db.Rollback();
      Associative(start, events, [RolledBack]);
      events := events + [RolledBack];
    }
  }

  // ---- What that means for the database -----------------------------------

  /** The state after a list of statements. */
  function Replay<S>(exec: Executor<S>, trace: seq<Statement>, state: S): S {
    if trace == [] then state else Replay(exec, trace[1..], exec(state, trace[0]).state)
  }

  /** What the i-th of a list of statements does. */
  function EffectAt<S>(exec: Executor<S>, trace: seq<Statement>, state: S, i: nat): Effect<S>
    requires i < |trace|
  {
    exec(Replay(exec, trace[..i], state), trace[i])
  }

  predicate Clean<S>(e: Effect<S>) { !e.failed && e.rowsAffected <= 1 }

  lemma {:induction false} EffectShift<S>(exec: Executor<S>, trace: seq<Statement>, state: S, i: nat)
    requires 0 < i < |trace|
    ensures EffectAt(exec, trace, state, i) == EffectAt(exec, trace[1..], exec(state, trace[0]).state, i - 1)
  {
    assert trace[..i][1..] == trace[1..][..i - 1];
  }

  /** What the loop leaves is what its executed statements leave, and these are rewritten from the first queries. */
  lemma {:induction false} AdvanceReplays<S>(exec: Executor<S>, engine: Engine, vars: map<string, Value>,
                                             queries: seq<string>, state: S)
    ensures var p := Advance(exec, engine, vars, queries, state);
            p.state == Replay(exec, p.trace, state) && |p.trace| <= |queries|
            && (p.stop.None? ==> |p.trace| == |queries|)
            && forall i :: 0 <= i < |p.trace| ==> Rewrite(engine, queries[i], vars) == Ok(p.trace[i])
  {
    if queries != [] && Rewrite(engine, queries[0], vars).Ok? {
      var e := exec(state, Rewrite(engine, queries[0], vars).value);
      AdvanceReplays(exec, engine, vars, queries[1..], e.state);
    }
  }

  /** The executed statement i, if it is not the last one, went through with at most one row. */
  lemma {:induction false} AdvanceIsClean<S>(exec: Executor<S>, engine: Engine, vars: map<string, Value>,
                                             queries: seq<string>, state: S, i: nat)
    requires i < |Advance(exec, engine, vars, queries, state).trace|
    ensures var p := Advance(exec, engine, vars, queries, state);
            if i + 1 < |p.trace| || p.stop.None? || p.stop.value.BadTemplate? then
              !EffectAt(exec, p.trace, state, i).failed && EffectAt(exec, p.trace, state, i).rowsAffected <= 1
            else if EffectAt(exec, p.trace, state, i).failed then p.stop == Some(ExecFailed)
            else p.stop == Some(TooManyRows) && EffectAt(exec, p.trace, state, i).rowsAffected > 1
  {
    var p := Advance(exec, engine, vars, queries, state);
    if i == 0 {
      assert p.trace[..0] == [];
    } else {
      var next := exec(state, p.trace[0]).state;
      AdvanceIsClean(exec, engine, vars, queries[1..], next, i - 1);
      EffectShift(exec, p.trace, state, i);
      assert p.trace[1..] == Advance(exec, engine, vars, queries[1..], next).trace;
    }
  }

  /** The loop stops for a template just when that of the next query is bad. */
  lemma {:induction false} StopsAtBadTemplate<S>(exec: Executor<S>, engine: Engine, vars: map<string, Value>,
                                                 queries: seq<string>, state: S)
    requires Advance(exec, engine, vars, queries, state).stop.Some?
    requires Advance(exec, engine, vars, queries, state).stop.value.BadTemplate?
    ensures var p := Advance(exec, engine, vars, queries, state);
            |p.trace| < |queries| && Rewrite(engine, queries[|p.trace|], vars) == Err(p.stop.value)
  {
    if Rewrite(engine, queries[0], vars).Ok? {
      var e := exec(state, Rewrite(engine, queries[0], vars).value);
      var rest := queries[1..];
      var n := |Advance(exec, engine, vars, rest, e.state).trace|;
      StopsAtBadTemplate(exec, engine, vars, rest, e.state);
      assert rest[n] == queries[n + 1];
    }
  }

  /** The statements of all queries, when all can be rewritten. */
  function Statements(engine: Engine, vars: map<string, Value>, queries: seq<string>): Option<seq<Statement>> {
    if queries == [] then Some([])
    else match (Rewrite(engine, queries[0], vars), Statements(engine, vars, queries[1..]))
      case (Ok(s), Some(rest)) => Some([s] + rest)
      case _ => None
  }

  predicate AllClean<S>(exec: Executor<S>, trace: seq<Statement>, state: S) {
    trace == [] || (Clean(exec(state, trace[0])) && AllClean(exec, trace[1..], exec(state, trace[0]).state))
  }

  /**
   * The queries succeed if and only if every one of them can be rewritten and, executed in order, none fails or
   * reports more than one row; the database then is what all the statements make of it.
   */
  lemma {:induction false} SucceedsExactly<S>(exec: Executor<S>, engine: Engine, vars: map<string, Value>,
                                              queries: seq<string>, state: S)
    ensures var p, all := Advance(exec, engine, vars, queries, state), Statements(engine, vars, queries);
            (p.stop.None? <==> all.Some? && AllClean(exec, all.value, state))
            && (p.stop.None? ==> p.trace == all.value && p.state == Replay(exec, all.value, state))
  {
    if queries != [] && Rewrite(engine, queries[0], vars).Ok? {
      var s := Rewrite(engine, queries[0], vars).value;
      SucceedsExactly(exec, engine, vars, queries[1..], exec(state, s).state);
      var all := Statements(engine, vars, queries);
      if all.Some? { assert all.value[1..] == Statements(engine, vars, queries[1..]).value; }
    }
  }

  /** A transaction that commits ends where the same queries end without one. */
  method SameEnd<S>(tx: Database<S>, direct: Database<S>, engine: Engine, queries: seq<string>,
                    vars: map<string, Value>)
    returns (txErr: Option<Error>, directErr: Option<Error>)
    requires tx != direct && tx.exec == direct.exec && tx.durable == direct.durable
    requires tx.work.None? && direct.work.None?
    modifies tx, direct
    ensures txErr.None? ==> directErr.None? && tx.durable == direct.durable
    ensures directErr.None? ==> txErr.None? || txErr == Some(BeginFailed) || txErr == Some(CommitFailed)
  {
    ghost var txEvents, directEvents;
    txErr, txEvents := RunProvisioningQueries(tx, engine, queries, vars, true);
    directErr, directEvents := RunProvisioningQueries(direct, engine, queries, vars, false);
  }
}
