/**
 * The batch adapter (scripts/lib/d1-sqlite.ts): BEGIN, every statement, COMMIT, or ROLLBACK on any throw, as one
 * synchronous block on a single SQLite connection that many async tasks share.
 *
 * The database, the statements and what a statement returns are type parameters; an Engine says what one
 * statement does. The event loop is a small-step machine: a step is one call into SQLite, and a task hands
 * the loop back only where the code awaits. The machine refines one in which a whole batch is a single step.
 */
module Batch {
  import opened Options

  datatype Exec<D, R> = Done(db: D, out: R) | Threw(error: string)

  /** SQLite behind the adapter: `run` is one prepared statement, `commitOk` is false when COMMIT itself throws. */
  datatype Engine<!D(!new), !S, R> = Engine(run: (D, S) -> Exec<D, R>, commitOk: D -> bool)

  datatype Op<S> = Single(stmt: S) | Batch(stmts: seq<S>)
  datatype Outcome<R> = Results(outs: seq<R>) | Failed(error: string)

  const NESTED_BEGIN := "cannot start a transaction within a transaction"
  const NO_TRANSACTION := "no transaction is active"
  const COMMIT_FAILED := "COMMIT failed"

  // ── The atomic meaning of one operation ─────────────────────────────────────────────────────────────

  /** What the statements of a batch do one after another, with no transaction around them. */
  function RunAll<D(!new), S, R>(e: Engine<D, S, R>, db: D, stmts: seq<S>): Exec<D, seq<R>> {
    if stmts == [] then Done(db, []) else
    match RunAll(e, db, stmts[..|stmts| - 1])
    case Threw(err) => Threw(err)
    case Done(d, outs) =>
      match e.run(d, stmts[|stmts| - 1])
      case Threw(err) => Threw(err)
      case Done(d', out) => Done(d', outs + [out])
  }

  /** One whole operation as a single step: a batch keeps everything or nothing. */
  function RunOp<D(!new), S, R>(e: Engine<D, S, R>, db: D, op: Op<S>): (D, Outcome<R>) {
    match op
    case Single(s) =>
      (match e.run(db, s)
       case Done(db', out) => (db', Results([out]))
       case Threw(err) => (db, Failed(err)))
    case Batch(stmts) =>
      match RunAll(e, db, stmts)
      case Threw(err) => (db, Failed(err))
      case Done(d, outs) => if e.commitOk(d) then (d, Results(outs)) else (db, Failed(COMMIT_FAILED))
  }

  lemma {:induction false} RunAllStops<D(!new), S, R>(e: Engine<D, S, R>, db: D, stmts: seq<S>, k: nat)
    requires k <= |stmts| && RunAll(e, db, stmts[..k]).Threw?
    ensures RunAll(e, db, stmts) == RunAll(e, db, stmts[..k])
  {
    if k < |stmts| {
      var init := stmts[..|stmts| - 1];
      assert init[..k] == stmts[..k];
      RunAllStops(e, db, init, k);
    } else {
      assert stmts[..k] == stmts;
    }
  }

  // ── What a batch answers, statement by statement ────────────────────────────────────────────────────

  /** The databases a list of statements goes through: each statement runs on what the one before it left, and gives the
      result at its own place. */
  ghost predicate Goes<D(!new), S, R>(e: Engine<D, S, R>, dbs: seq<D>, stmts: seq<S>, outs: seq<R>) {
    && |dbs| == |stmts| + 1 && |outs| == |stmts|
    && forall k | 0 <= k < |stmts| :: e.run(dbs[k], stmts[k]) == Done(dbs[k + 1], outs[k])
  }

  /** Run one after another, the statements either all go through or stop at the first that throws. */
  lemma {:induction false} RunAllGoes<D(!new), S, R>(e: Engine<D, S, R>, db: D, stmts: seq<S>) returns (dbs: seq<D>, outs: seq<R>)
    ensures |dbs| > 0 && dbs[0] == db && |outs| <= |stmts| && Goes(e, dbs, stmts[..|outs|], outs)
    ensures match RunAll(e, db, stmts)
      case Done(d, os) => |outs| == |stmts| && os == outs && d == dbs[|stmts|]
      case Threw(err) => |outs| < |stmts| && e.run(dbs[|outs|], stmts[|outs|]) == Threw(err)
  {
    if stmts == [] {
      dbs, outs := [db], [];
    } else {
      var n := |stmts| - 1;
      var init := stmts[..n];
      dbs, outs := RunAllGoes(e, db, init);
      if |outs| == n {
        match e.run(dbs[n], stmts[n]) {
          case Threw(_) =>
          case Done(d, out) =>
            assert stmts[..n + 1] == stmts;
            dbs, outs := dbs + [d], outs + [out];
        }
      } else {
        assert init[..|outs|] == stmts[..|outs|];
      }
    }
  }

  /** A batch that answers kept every statement, each with its own result; one that failed kept nothing, and says what the
      first statement to throw said, or that the COMMIT did. */
  ghost predicate BatchIs<D(!new), S, R(!new)>(e: Engine<D, S, R>, before: D, stmts: seq<S>, after: D, out: Outcome<R>) {
    match out
    case Results(outs) => exists dbs :: Goes(e, dbs, stmts, outs) && dbs[0] == before && dbs[|stmts|] == after && e.commitOk(after)
    case Failed(err) =>
      && after == before
      && exists dbs, outs :: |outs| <= |stmts| && Goes(e, dbs, stmts[..|outs|], outs) && dbs[0] == before
           && if |outs| < |stmts| then e.run(dbs[|outs|], stmts[|outs|]) == Threw(err) else err == COMMIT_FAILED && !e.commitOk(dbs[|outs|])
  }

  lemma {:induction false} BatchGoes<D(!new), S, R(!new)>(e: Engine<D, S, R>, db: D, stmts: seq<S>)
    ensures var (after, out) := RunOp(e, db, Op.Batch(stmts)); BatchIs(e, db, stmts, after, out)
  {
    var dbs, outs := RunAllGoes(e, db, stmts);
    assert |outs| == |stmts| ==> stmts[..|outs|] == stmts;
  }

  /** A statement outside a batch: its own result, or its error and nothing written. */
  lemma {:induction false} SingleGoes<D(!new), S, R>(e: Engine<D, S, R>, db: D, s: S)
    ensures RunOp(e, db, Op.Single(s)) == match e.run(db, s)
      case Done(after, out) => (after, Results([out]))
      case Threw(err) => (db, Failed(err))
  {
  }

  // ── The adapter itself ──────────────────────────────────────────────────────────────────────────────

  /** One SQLite connection: `open` holds the database as it was at BEGIN while a transaction is open. */
  class SqliteD1<D(!new), S, R(!new)> {
    const engine: Engine<D, S, R>
    var db: D
    var open: Option<D>
    var batches: nat

    constructor (engine: Engine<D, S, R>, db: D)
      ensures this.engine == engine && this.db == db && open == None && batches == 0
    {
      this.engine, this.db, open, batches := engine, db, None, 0;
    }

    /** batch(): a failure anywhere (a statement or the COMMIT) leaves the database exactly as it was. */
    method Batch(stmts: seq<S>) returns (out: Outcome<R>)
      modifies this
      ensures batches == old(batches) + 1
      ensures old(open) == None ==> open == None && (db, out) == RunOp(engine, old(db), Op.Batch(stmts))
      ensures old(open) == None ==> BatchIs(engine, old(db), stmts, db, out)
      ensures old(open) != None ==> db == old(db) && open == old(open) && out == Failed(NESTED_BEGIN)
    {
      batches := batches + 1;
      if open != None { return Failed(NESTED_BEGIN); }  // BEGIN is outside the try: nothing is rolled back
      open := Some(db);
      var outs := [];
      var i := 0;
      while i < |stmts|
        invariant i <= |stmts| && open == Some(old(db)) && batches == old(batches) + 1
        invariant RunAll(engine, old(db), stmts[..i]) == Done(db, outs)
      {
        assert stmts[..i + 1][..i] == stmts[..i];
        match engine.run(db, stmts[i]) {
          case Done(db', o) =>
            db, outs := db', outs + [o];
          case Threw(err) =>
            RunAllStops(engine, old(db), stmts, i + 1);
            db, open := open.value, None;
            BatchGoes(engine, db, stmts);
            return Failed(err);
        }
        i := i + 1;
      }
      assert stmts[..i] == stmts;
      if !engine.commitOk(db) {
        db, open := open.value, None;
        BatchGoes(engine, db, stmts);
        return Failed(COMMIT_FAILED);
      }
      open := None;
      BatchGoes(engine, old(db), stmts);
      return Results(outs);
    }
  }

  // ── Async clients on one event loop ─────────────────────────────────────────────────────────────────

  /** Where a task is: outside any batch, or inside one with `done` statements run (or one of them thrown). */
  datatype Point<R> = Out | In(done: nat, outs: seq<R>, threw: Option<string>)

  /** An async task: the outcomes it has had so far, and the operation it issues next, which may depend on them. */
  datatype Client<S, !R> = Client(plan: seq<Outcome<R>> -> Option<Op<S>>, got: seq<Outcome<R>>, at: Point<R>) {
    predicate Finished() { plan(got).None? }

    function Now(): Op<S>
      requires !Finished()
    {
      plan(got).value
    }
  }

  /** The connection, the clients, and the one whose synchronous block is running (None: the loop is free). */
  datatype Machine<D, S, !R> = Machine(db: D, open: Option<D>, running: Option<nat>, clients: seq<Client<S, R>>)

  predicate CanStep<D, S, R>(m: Machine<D, S, R>, i: nat) {
    && i < |m.clients|
    && !m.clients[i].Finished()
    && (m.running == None || m.running == Some(i))
  }

  function Answer<S, R>(c: Client<S, R>, o: Outcome<R>): Client<S, R>
    requires !c.Finished()
  {
    c.(got := c.got + [o], at := Out)
  }

  predicate InBatch<S, R>(c: Client<S, R>) {
    c.at.In? ==> !c.Finished() && c.Now().Batch? && c.at.done <= |c.Now().stmts|
  }

  /**
   * One call into SQLite by task `i`. `awaits` is true of a batch that awaits between its statements (the shape the
   * adapter forbids itself); the adapter's own batch has awaits = false.
   */
  function Step<D(!new), S, R>(e: Engine<D, S, R>, awaits: bool, m: Machine<D, S, R>, i: nat): (m': Machine<D, S, R>)
    requires CanStep(m, i) && InBatch(m.clients[i])
    ensures |m'.clients| == |m.clients|
    ensures forall j | 0 <= j < |m.clients| && j != i :: m'.clients[j] == m.clients[j]
  {
    var c := m.clients[i];
    var held := if awaits then None else Some(i);
    match c.at
    case Out =>
      (match c.Now()
       case Single(_) =>
         var (db', o) := RunOp(e, m.db, c.Now());
         Machine(db', m.open, None, m.clients[i := Answer(c, o)])
       case Batch(_) =>
         if m.open != None then
           m.(running := None, clients := m.clients[i := Answer(c, Failed(NESTED_BEGIN))])
         else
           Machine(m.db, Some(m.db), held, m.clients[i := c.(at := In(0, [], None))]))
    case In(done, outs, Some(err)) =>  // ROLLBACK, then rethrow
      if m.open == None then
        m.(running := None, clients := m.clients[i := Answer(c, Failed(NO_TRANSACTION))])
      else
        Machine(m.open.value, None, None, m.clients[i := Answer(c, Failed(err))])
    case In(done, outs, None) =>
      if done < |c.Now().stmts| then
        match e.run(m.db, c.Now().stmts[done])
        case Done(db', out) =>
          Machine(db', m.open, held, m.clients[i := c.(at := In(done + 1, outs + [out], None))])
        case Threw(err) =>
          m.(running := held, clients := m.clients[i := c.(at := In(done, outs, Some(err)))])
      else if m.open == None || !e.commitOk(m.db) then  // COMMIT throws into the same catch
        var err := if m.open == None then NO_TRANSACTION else COMMIT_FAILED;
        m.(running := held, clients := m.clients[i := c.(at := In(done, outs, Some(err)))])
      else
        m.(open := None, running := None, clients := m.clients[i := Answer(c, Results(outs))])
  }

  /** The invariant of the adapter's event loop: who is inside a transaction, and how far its batch has got. */
  ghost predicate Inv<D(!new), S, R>(e: Engine<D, S, R>, m: Machine<D, S, R>) {
    && (m.open == None ==> m.running == None && forall j | 0 <= j < |m.clients| :: m.clients[j].at.Out?)
    && (m.open != None ==>
          && m.running != None
          && m.running.value < |m.clients|
          && (forall j | 0 <= j < |m.clients| :: m.clients[j].at.In? <==> j == m.running.value)
          && Progress(e, m.open.value, m.db, m.clients[m.running.value]))
  }

  /** A batch part-way: the database is the snapshot with exactly its first `done` statements applied. */
  ghost predicate Progress<D(!new), S, R>(e: Engine<D, S, R>, before: D, db: D, c: Client<S, R>) {
    && c.at.In? && InBatch(c)
    && var stmts := c.Now().stmts;
    && RunAll(e, before, stmts[..c.at.done]) == Done(db, c.at.outs)
    && (c.at.threw != None ==> RunOp(e, before, c.Now()) == (before, Failed(c.at.threw.value)))
  }

  // ── The atomic machine, and the refinement ──────────────────────────────────────────────────────────

  /** The machine's meaning: an open transaction is not there yet. */
  function Abs<D, S, R>(m: Machine<D, S, R>): Machine<D, S, R> {
    Machine(m.open.GetOr(m.db), None, None, seq(|m.clients|, j requires 0 <= j < |m.clients| => m.clients[j].(at := Out)))
  }

  /** One task performs one whole operation. */
  function AtomicStep<D(!new), S, R>(e: Engine<D, S, R>, a: Machine<D, S, R>, i: nat): Machine<D, S, R>
    requires i < |a.clients| && !a.clients[i].Finished()
  {
    var (db', o) := RunOp(e, a.db, a.clients[i].Now());
    Machine(db', None, None, a.clients[i := Answer(a.clients[i], o)])
  }

  /** An atomic step answers one task's operation, after its earlier answers, and touches no other task. */
  lemma {:induction false} AtomicIs<D(!new), S, R(!new)>(e: Engine<D, S, R>, a: Machine<D, S, R>, i: nat)
    requires i < |a.clients| && !a.clients[i].Finished()
    ensures var a' := AtomicStep(e, a, i); var c, c', op := a.clients[i], a'.clients[i], a.clients[i].plan(a.clients[i].got).value;
      && a'.open == None && a'.running == None && |a'.clients| == |a.clients|
      && (forall j | 0 <= j < |a.clients| && j != i :: a'.clients[j] == a.clients[j])
      && c'.plan == c.plan && c'.at == Out && |c'.got| == |c.got| + 1 && c.got < c'.got
      && match op
         case Batch(stmts) => BatchIs(e, a.db, stmts, a'.db, c'.got[|c.got|])
         case Single(s) => match e.run(a.db, s)
           case Done(after, out) => a'.db == after && c'.got[|c.got|] == Results([out])
           case Threw(err) => a'.db == a.db && c'.got[|c.got|] == Failed(err)
  {
    match a.clients[i].Now()
    case Batch(stmts) => BatchGoes(e, a.db, stmts);
    case Single(_) =>
  }

  /** With no transaction open the machine is what it means; and an idle one, with no task inside a batch, is sound. */
  lemma {:induction false} SettledIsItself<D(!new), S, R>(e: Engine<D, S, R>, m: Machine<D, S, R>)
    ensures Inv(e, m) && m.open == None ==> Abs(m) == m
    ensures m.open == None && m.running == None && (forall j | 0 <= j < |m.clients| :: m.clients[j].at.Out?) ==> Inv(e, m)
  {
    if Inv(e, m) && m.open == None { assert Abs(m).clients == m.clients; }
  }

  /** While a transaction is open only its owner can step: no foreign statement, no nested BEGIN. */
  lemma {:induction false} NoForeignStep<D(!new), S, R>(e: Engine<D, S, R>, m: Machine<D, S, R>, i: nat)
    requires Inv(e, m) && CanStep(m, i)
    ensures InBatch(m.clients[i])
    ensures m.open != None ==> m.clients[i].at.In?
    ensures m.clients[i].at.In? ==> m.open != None && forall j | CanStep(m, j) :: j == i
  {
  }

  lemma {:induction false} StepIn<D(!new), S, R>(e: Engine<D, S, R>, m: Machine<D, S, R>, i: nat)
    requires Inv(e, m) && CanStep(m, i) && m.clients[i].at.In?
    ensures var m' := Step(e, false, m, i);
      && Inv(e, m')
      && (Abs(m') == Abs(m) || Abs(m') == AtomicStep(e, Abs(m), i))
  {
    var c := m.clients[i];
    var stmts := c.Now().stmts;
    var m' := Step(e, false, m, i);
    if c.at.threw != None {
      assert Abs(m').clients == AtomicStep(e, Abs(m), i).clients;
    } else if c.at.done < |stmts| {
      var k := c.at.done;
      assert stmts[..k + 1][..k] == stmts[..k];
      if e.run(m.db, stmts[k]).Threw? {
        RunAllStops(e, m.open.value, stmts, k + 1);
      }
      assert Abs(m').clients == Abs(m).clients;
    } else {
      assert stmts[..c.at.done] == stmts;
      assert m'.open != None ==> Abs(m').clients == Abs(m).clients;
      assert m'.open == None ==> Abs(m').clients == AtomicStep(e, Abs(m), i).clients;
    }
  }

  /** Refinement, one step: every small step is invisible or is one task's whole operation. */
  lemma {:induction false} StepRefines<D(!new), S, R>(e: Engine<D, S, R>, m: Machine<D, S, R>, i: nat)
    requires Inv(e, m) && CanStep(m, i)
    ensures InBatch(m.clients[i])
    ensures var m' := Step(e, false, m, i);
      && Inv(e, m')
      && (Abs(m') == Abs(m) || Abs(m') == AtomicStep(e, Abs(m), i))
  {
    NoForeignStep(e, m, i);
    if m.clients[i].at.In? {
      StepIn(e, m, i);
    } else {
      var m' := Step(e, false, m, i);
      if m.clients[i].Now().Single? {
        assert Abs(m').clients == AtomicStep(e, Abs(m), i).clients;
      } else {
        var c' := m'.clients[i];
        assert c'.Now().stmts[..0] == [];
        assert Abs(m').clients == Abs(m).clients;
      }
    }
  }

  // ── Whole runs ──────────────────────────────────────────────────────────────────────────────────────

  /** A run of the event loop: `trace[k + 1]` is `trace[k]` after task `who[k]` stepped. */
  ghost predicate IsRun<D(!new), S, R>(e: Engine<D, S, R>, awaits: bool, trace: seq<Machine<D, S, R>>, who: seq<nat>) {
    && |trace| == |who| + 1
    && forall k {:trigger who[k]} | 0 <= k < |who| ::
         CanStep(trace[k], who[k]) && InBatch(trace[k].clients[who[k]]) && trace[k + 1] == Step(e, awaits, trace[k], who[k])
  }

  /** Running whole operations one after another, in the order named. */
  ghost predicate IsSerial<D(!new), S, R>(e: Engine<D, S, R>, a: Machine<D, S, R>, order: seq<nat>, a': Machine<D, S, R>)
    decreases |order|
  {
    if order == [] then a == a' else
    && order[0] < |a.clients| && !a.clients[order[0]].Finished()
    && IsSerial(e, AtomicStep(e, a, order[0]), order[1..], a')
  }

  lemma {:induction false} SerialThen<D(!new), S, R>(e: Engine<D, S, R>, a: Machine<D, S, R>, order: seq<nat>, a': Machine<D, S, R>, i: nat)
    requires IsSerial(e, a, order, a') && i < |a'.clients| && !a'.clients[i].Finished()
    ensures IsSerial(e, a, order + [i], AtomicStep(e, a', i))
    decreases |order|
  {
    if order == [] {
      assert (order + [i])[1..] == [];
    } else {
      assert (order + [i])[1..] == order[1..] + [i];
      SerialThen(e, AtomicStep(e, a, order[0]), order[1..], a', i);
    }
  }

  /**
   * Serialisability: whatever the number of tasks and however the loop interleaves them, the database and every
   * task's outcomes are those of running whole operations one at a time, each task's in its own order.
   */
  lemma {:induction false} RunsAreSerialisable<D(!new), S, R>(e: Engine<D, S, R>, trace: seq<Machine<D, S, R>>, who: seq<nat>)
    returns (order: seq<nat>)
    requires IsRun(e, false, trace, who) && Inv(e, trace[0])
    ensures Inv(e, trace[|who|])
    ensures IsSerial(e, Abs(trace[0]), order, Abs(trace[|who|]))
    ensures trace[0].open == None ==> Abs(trace[0]) == trace[0]
    ensures trace[|who|].open == None ==> Abs(trace[|who|]) == trace[|who|]
    decreases |who|
  {
    SettledIsItself(e, trace[0]);
    if who == [] { return []; }
    var n := |who| - 1;
    var init := who[..n];
    forall k {:trigger init[k]} | 0 <= k < |init|
      ensures CanStep(trace[..n + 1][k], init[k]) && InBatch(trace[..n + 1][k].clients[init[k]])
      ensures trace[..n + 1][k + 1] == Step(e, false, trace[..n + 1][k], init[k])
    {
      assert init[k] == who[k];
    }
    order := RunsAreSerialisable(e, trace[..n + 1], init);
    assert trace[..n + 1][n] == trace[n];
    assert CanStep(trace[n], who[n]);
    StepRefines(e, trace[n], who[n]);
    if Abs(trace[n + 1]) != Abs(trace[n]) {
      SerialThen(e, Abs(trace[0]), order, Abs(trace[n]), who[n]);
      order := order + [who[n]];
    }
    SettledIsItself(e, trace[n + 1]);
  }

  /** The calls into SQLite a task's current operation still has to make, at most. */
  function Work<S, R>(c: Client<S, R>): int
    requires InBatch(c) && !c.Finished()
  {
    match c.at
    case Out => if c.Now().Batch? then |c.Now().stmts| + 3 else 1
    case In(done, _, threw) => if threw == None then |c.Now().stmts| - done + 2 else 1
  }

  /** The step ends the task's operation with an answer, or brings it closer to its end. */
  ghost predicate Advances<S, R>(c: Client<S, R>, c': Client<S, R>)
    requires InBatch(c) && !c.Finished()
  {
    || (c'.at.Out? && |c'.got| == |c.got| + 1 && c' == Answer(c, c'.got[|c.got|]))
    || (InBatch(c') && c'.got == c.got && !c'.Finished() && 0 <= Work(c') < Work(c))
  }

  lemma {:induction false} StepUsesWork<D(!new), S, R>(e: Engine<D, S, R>, m: Machine<D, S, R>, i: nat)
    requires Inv(e, m) && CanStep(m, i)
    ensures InBatch(m.clients[i]) && Advances(m.clients[i], Step(e, false, m, i).clients[i])
  {
    StepRefines(e, m, i);
    var c, c' := m.clients[i], Step(e, false, m, i).clients[i];
  }

  /** No task is ever stuck: some task can step until all are finished, and every step answers its task's operation or
      brings it closer to an answer. */
  lemma {:induction false} LoopMakesProgress<D(!new), S, R>(e: Engine<D, S, R>, m: Machine<D, S, R>)
    requires Inv(e, m)
    ensures (exists i: nat :: CanStep(m, i)) <==> (exists j | 0 <= j < |m.clients| :: !m.clients[j].Finished())
    ensures forall i: nat | CanStep(m, i) :: InBatch(m.clients[i]) && Advances(m.clients[i], Step(e, false, m, i).clients[i])
  {
    if m.open != None {
      assert CanStep(m, m.running.value);
    } else if j :| 0 <= j < |m.clients| && !m.clients[j].Finished() {
      assert CanStep(m, j);
    }
    forall i: nat | CanStep(m, i)
      ensures InBatch(m.clients[i]) && Advances(m.clients[i], Step(e, false, m, i).clients[i])
    {
      StepUsesWork(e, m, i);
    }
  }

  // ── Why there is no await between BEGIN and COMMIT ──────────────────────────────────────────────────

  datatype Write = Put(key: int) | Boom

  function PutOrBoom(db: set<int>, w: Write): Exec<set<int>, int> {
    match w
    case Put(k) => Done(db + {k}, k)
    case Boom => Threw("boom")
  }

  /** A task that issues one operation, whatever came before. */
  function Once(op: Op<Write>): seq<Outcome<int>> -> Option<Op<Write>> { got => if |got| == 0 then Some(op) else None }

  function Doomed(): seq<Outcome<int>> -> Option<Op<Write>> { Once(Op.Batch([Put(1), Boom])) }
  function Plain(): seq<Outcome<int>> -> Option<Op<Write>> { Once(Op.Single(Put(2))) }

  function TwoClients(): Machine<set<int>, Write, int> {
    Machine({}, None, None, [Client(Doomed(), [], Out), Client(Plain(), [], Out)])
  }

  lemma {:induction false} SerialKeepsAnswered(e: Engine<set<int>, Write, int>, a: Machine<set<int>, Write, int>, order: seq<nat>, a': Machine<set<int>, Write, int>)
    requires e.run == PutOrBoom && IsSerial(e, a, order, a') && |a.clients| == 2
    requires a.clients[1].plan == Plain() && (a.clients[1].got == [] || 2 in a.db)
    ensures |a'.clients| == 2 && (a'.clients[1].got != [] ==> 2 in a'.db)
    decreases |order|
  {
    if order != [] {
      var next := AtomicStep(e, a, order[0]);
      if order[0] == 0 { OpKeeps(e, a.db, a.clients[0].Now()); }
      SerialKeepsAnswered(e, next, order[1..], a');
    }
  }

  lemma {:induction false} OpKeeps(e: Engine<set<int>, Write, int>, db: set<int>, op: Op<Write>)
    requires e.run == PutOrBoom
    ensures db <= RunOp(e, db, op).0
  {
    if op.Batch? { AllKeeps(e, db, op.stmts); }
  }

  lemma {:induction false} AllKeeps(e: Engine<set<int>, Write, int>, db: set<int>, stmts: seq<Write>)
    requires e.run == PutOrBoom
    ensures RunAll(e, db, stmts).Done? ==> db <= RunAll(e, db, stmts).db
  {
    if stmts != [] { AllKeeps(e, db, stmts[..|stmts| - 1]); }
  }

  ghost function SetEngine(): Engine<set<int>, Write, int> {
    Engine(PutOrBoom, (_: set<int>) => true)
  }

  /** BEGIN, put 1, then the other task's put 2, then the batch's failing statement and its ROLLBACK. */
  lemma {:induction false} LostWriteRun() returns (trace: seq<Machine<set<int>, Write, int>>)
    ensures IsRun(SetEngine(), true, trace, [0, 0, 1, 0, 0]) && trace[0] == TwoClients()
    ensures trace[5] == Machine({}, None, None, [Client(Doomed(), [Failed("boom")], Out), Client(Plain(), [Results([2])], Out)])
  {
    var e := SetEngine();
    var waiting, answered := Client(Plain(), [], Out), Client(Plain(), [Results([2])], Out);
    var m0 := TwoClients();
    var m1 := Machine({}, Some({}), None, [Client(Doomed(), [], In(0, [], None)), waiting]);
    var m2 := Machine({1}, Some({}), None, [Client(Doomed(), [], In(1, [1], None)), waiting]);
    var m3 := Machine({1} + {2}, Some({}), None, [Client(Doomed(), [], In(1, [1], None)), answered]);
    var m4 := Machine({1} + {2}, Some({}), None, [Client(Doomed(), [], In(1, [1], Some("boom"))), answered]);
    var m5 := Machine({}, None, None, [Client(Doomed(), [Failed("boom")], Out), answered]);
    assert {} + {1} == {1} && [] + [1] == [1];
    assert m1 == Step(e, true, m0, 0);
    assert m2 == Step(e, true, m1, 0);
    assert RunOp(e, m2.db, waiting.Now()) == ({1} + {2}, Results([2]));
    assert Answer(waiting, Results([2])) == answered;
    assert m3 == Step(e, true, m2, 1);
    assert m4 == Step(e, true, m3, 0);
    assert Answer(m4.clients[0], Failed("boom")) == m5.clients[0];
    assert m5 == Step(e, true, m4, 0);
    trace := [m0, m1, m2, m3, m4, m5];
  }

  /**
   * With an await inside the batch, another task's plain write can land in the open transaction and be rolled back
   * with it, after that task was told it succeeded: a result no serial order of the operations gives.
   */
  lemma {:induction false} AwaitInsideBatchLosesWrite() returns (trace: seq<Machine<set<int>, Write, int>>, who: seq<nat>)
    ensures IsRun(SetEngine(), true, trace, who) && trace[0] == TwoClients()
    ensures var last := trace[|who|];
      && |last.clients| == 2 && last.open == None
      && last.clients[1].got == [Results([2])] && 2 !in last.db
      && !exists order :: IsSerial(SetEngine(), TwoClients(), order, Abs(last))
  {
    trace := LostWriteRun();
    who := [0, 0, 1, 0, 0];
    var last := Abs(trace[5]);
    forall order ensures !IsSerial(SetEngine(), TwoClients(), order, last) {
      if IsSerial(SetEngine(), TwoClients(), order, last) {
        SerialKeepsAnswered(SetEngine(), TwoClients(), order, last);
      }
    }
  }
}
