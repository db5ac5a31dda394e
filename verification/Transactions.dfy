/**
The transaction boundary and the queue of after-hooks.

A program is a tree of hooked writes, nested blocks, raises and catches. Its run is
given twice: by the steps of the runtime, which sets and resets a queue variable and a
connection variable, and by a specification that has neither.
*/
module Transactions {
  import opened Options

  datatype Hook = Hook(id: nat, raises: bool)

  /** A write made through the hook layer, with the after-hooks registered for it. */
  datatype Write = Write(row: nat, hooks: seq<Hook>)

  datatype Program =
    | Skip
    | Do(write: Write)
    | Raise
    | Then(first: Program, second: Program)
    | Catch(body: Program, handler: Program)
    | Transaction(body: Program)         // the core's transaction(adapter)
    | AdapterTransaction(body: Program)  // the adapter's own transaction(), bypassing the core

  datatype Event =
    | Committed(writes: seq<Write>)
    | RolledBack(writes: seq<Write>)
    | Ran(hook: Hook)

  /**
  `queue` is the context variable of the hook queue and `conn` that of the adapter's
  connection, holding the writes it has not committed yet.
  */
  datatype State = State(queue: Option<seq<Hook>>, conn: Option<seq<Write>>, db: seq<Write>, log: seq<Event>)

  datatype Result = Result(state: State, ok: bool)

  // ----- the steps of the runtime -----

  /** Run hooks in turn; the first that raises ends the loop. */
  function Drain(hooks: seq<Hook>): seq<Event> {
    if hooks == [] then []
    else if hooks[0].raises then [Ran(hooks[0])]
    else [Ran(hooks[0])] + Drain(hooks[1..])
  }

  predicate NoneRaises(hooks: seq<Hook>) {
    forall i :: 0 <= i < |hooks| ==> !hooks[i].raises
  }

  function Insert(s: State, w: Write): State {
    if s.conn.Some? then s.(conn := Some(s.conn.value + [w]))
    else s.(db := s.db + [w], log := s.log + [Committed([w])])
  }

  /** Hooks queue up while a queue is installed and run inline otherwise. */
  function AfterWrite(s: State, hooks: seq<Hook>): Result {
    if s.queue.Some? then Result(s.(queue := Some(s.queue.value + hooks)), true)
    else Result(s.(log := s.log + Drain(hooks)), NoneRaises(hooks))
  }

  /** Leaving the adapter's outermost block: commit or roll back. */
  function CloseConnection(r: Result): Result
    requires r.state.conn.Some?
  {
    var writes := r.state.conn.value;
    if r.ok then
      Result(r.state.(conn := None, db := r.state.db + writes, log := r.state.log + [Committed(writes)]), true)
    else
      Result(r.state.(conn := None, log := r.state.log + [RolledBack(writes)]), false)
  }

  /** Leaving the core's outermost block: reset the queue variable, and drain on a clean exit. */
  function CloseQueue(r: Result): Result
    requires r.state.queue.Some?
  {
    var hooks := r.state.queue.value;
    var s := r.state.(queue := None);
    if r.ok then AfterWrite(s, hooks) else Result(s, false)
  }

  /** On every exit both variables are what they were, up to entries appended to a live list. */
  ghost predicate Restored(before: State, after: State) {
    && (before.queue.None? <==> after.queue.None?)
    && (before.conn.None? <==> after.conn.None?)
    && (before.queue.Some? ==> before.queue.value <= after.queue.value)
    && (before.conn.Some? ==> before.conn.value <= after.conn.value)
    && before.db <= after.db
    && before.log <= after.log
  }

  function InAdapter(body: Program, s: State): (r: Result)
    ensures Restored(s, r.state)
    decreases body, 1
  {
    if s.conn.Some? then Exec(body, s) else CloseConnection(Exec(body, s.(conn := Some([]))))
  }

  function Exec(p: Program, s: State): (r: Result)
    ensures Restored(s, r.state)
    decreases p, 0
  {
    match p
    case Skip => Result(s, true)
    case Raise => Result(s, false)
    case Do(w) => AfterWrite(Insert(s, w), w.hooks)
    case Then(first, second) =>
      var r := Exec(first, s);
      if r.ok then Exec(second, r.state) else r
    case Catch(body, handler) =>
      var r := Exec(body, s);
      if r.ok then r else Exec(handler, r.state)
    case AdapterTransaction(body) => InAdapter(body, s)
    case Transaction(body) =>
      if s.queue.Some? then InAdapter(body, s)
      else CloseQueue(InAdapter(body, s.(queue := Some([]))))
  }

  // ----- the runtime itself -----

  class Runtime {
    var queue: Option<seq<Hook>>
    var conn: Option<seq<Write>>
    var db: seq<Write>
    var log: seq<Event>

    constructor ()
      ensures Now() == State(None, None, [], [])
    {
      queue, conn, db, log := None, None, [], [];
    }

    function Now(): State
      reads this
    {
      State(queue, conn, db, log)
    }

    method RunHooks(hooks: seq<Hook>) returns (ok: bool)
      modifies this`log
      ensures log == old(log) + Drain(hooks) && ok == NoneRaises(hooks)
    {
      for i := 0 to |hooks|
        invariant NoneRaises(hooks[..i])
        invariant log + Drain(hooks[i..]) == old(log) + Drain(hooks)
      {
        log := log + [Ran(hooks[i])];
        assert hooks[i..][1..] == hooks[i + 1..];
        if hooks[i].raises {
          return false;
        }
      }
      ok := true;
    }

    method QueueAfterTransactionHooks(hooks: seq<Hook>) returns (ok: bool)
      modifies this
      ensures Result(Now(), ok) == AfterWrite(old(Now()), hooks)
    {
      if queue.None? {
        ok := RunHooks(hooks);
      } else {
        queue := Some(queue.value + hooks);
        ok := true;
      }
    }

    method RunInAdapter(body: Program) returns (ok: bool)
      modifies this
      ensures Result(Now(), ok) == InAdapter(body, old(Now()))
      decreases body, 1
    {
      if conn.Some? {
        ok := Run(body);
        return;
      }
      conn := Some([]);
      ok := Run(body);
      if ok {
        db, log := db + conn.value, log + [Committed(conn.value)];
      } else {
        log := log + [RolledBack(conn.value)];
      }
      conn := None;
    }

    method RunTransaction(body: Program) returns (ok: bool)
      modifies this
      ensures Result(Now(), ok) == Exec(Transaction(body), old(Now()))
      decreases body, 2
    {
      if queue.Some? {
        ok := RunInAdapter(body);
        return;
      }
      queue := Some([]);
      ok := RunInAdapter(body);
      var collected := queue.value;
      queue := None;
      if ok {
        ok := RunHooks(collected);
      }
    }

    method Run(p: Program) returns (ok: bool)
      modifies this
      ensures Result(Now(), ok) == Exec(p, old(Now()))
      decreases p, 0
    {
      match p {
        case Skip => ok := true;
        case Raise => ok := false;
        case Do(w) =>
          if conn.Some? {
            conn := Some(conn.value + [w]);
          } else {
            db, log := db + [w], log + [Committed([w])];
          }
          ok := QueueAfterTransactionHooks(w.hooks);
        case Then(first, second) =>
          ok := Run(first);
          if ok { ok := Run(second); }
        case Catch(body, handler) =>
          ok := Run(body);
          if !ok { ok := Run(handler); }
        case AdapterTransaction(body) => ok := RunInAdapter(body);
        case Transaction(body) => ok := RunTransaction(body);
      }
    }
  }

  // ----- the specification -----

  /** The writes a program makes when nothing in it commits or rolls back, and how it ends. */
  datatype Flow = Flow(writes: seq<Write>, ok: bool)

  function Flat(p: Program): Flow {
    match p
    case Skip => Flow([], true)
    case Raise => Flow([], false)
    case Do(w) => Flow([w], true)
    case Then(first, second) =>
      if Flat(first).ok then Flow(Flat(first).writes + Flat(second).writes, Flat(second).ok) else Flat(first)
    case Catch(body, handler) =>
      if Flat(body).ok then Flat(body) else Flow(Flat(body).writes + Flat(handler).writes, Flat(handler).ok)
    case AdapterTransaction(body) => Flat(body)
    case Transaction(body) => Flat(body)
  }

  function HooksOf(writes: seq<Write>): seq<Hook> {
    if writes == [] then [] else HooksOf(writes[..|writes| - 1]) + writes[|writes| - 1].hooks
  }

  /** What a program leaves behind when only a connection is open: events, unfinished writes, and how it ends. */
  datatype Pending = Pending(log: seq<Event>, writes: seq<Write>, ok: bool)

  /**
  A program inside the adapter's own transaction, with no queue installed: hooks run as
  soon as they are queued, and a block of the core drains into the open connection.
  */
  function Alone(p: Program): Pending {
    match p
    case Skip => Pending([], [], true)
    case Raise => Pending([], [], false)
    case Do(w) => Pending(Drain(w.hooks), [w], NoneRaises(w.hooks))
    case Then(first, second) => if Alone(first).ok then Joined(Alone(first), Alone(second)) else Alone(first)
    case Catch(body, handler) => if Alone(body).ok then Alone(body) else Joined(Alone(body), Alone(handler))
    case AdapterTransaction(body) => Alone(body)
    case Transaction(body) =>
      var f := Flat(body);
      if f.ok then Pending(Drain(HooksOf(f.writes)), f.writes, NoneRaises(HooksOf(f.writes)))
      else Pending([], f.writes, false)
  }

  function Joined(a: Pending, b: Pending): Pending {
    Pending(a.log + b.log, a.writes + b.writes, b.ok)
  }

  datatype History = History(log: seq<Event>, ok: bool)

  /** What a program started with no transaction open leaves in the log. */
  function Outcome(p: Program): History {
    match p
    case Skip => History([], true)
    case Raise => History([], false)
    case Do(w) => History([Committed([w])] + Drain(w.hooks), NoneRaises(w.hooks))
    case Then(first, second) =>
      if Outcome(first).ok then History(Outcome(first).log + Outcome(second).log, Outcome(second).ok) else Outcome(first)
    case Catch(body, handler) =>
      if Outcome(body).ok then Outcome(body)
      else History(Outcome(body).log + Outcome(handler).log, Outcome(handler).ok)
    case AdapterTransaction(body) =>
      var a := Alone(body);
      History(a.log + [if a.ok then Committed(a.writes) else RolledBack(a.writes)], a.ok)
    case Transaction(body) =>
      var f := Flat(body);
      if f.ok then History([Committed(f.writes)] + Drain(HooksOf(f.writes)), NoneRaises(HooksOf(f.writes)))
      else History([RolledBack(f.writes)], false)
  }

  function CommittedWrites(log: seq<Event>): seq<Write> {
    if log == [] then []
    else (if log[0].Committed? then log[0].writes else []) + CommittedWrites(log[1..])
  }

  function RanHooks(log: seq<Event>): seq<Hook> {
    if log == [] then [] else (if log[0].Ran? then [log[0].hook] else []) + RanHooks(log[1..])
  }

  // ----- the runtime meets the specification -----

  lemma {:induction false} HooksOfOne(w: Write)
    ensures HooksOf([w]) == w.hooks
  {
    assert [w][..0] == [];
    assert [] + w.hooks == w.hooks;
  }

  lemma {:induction false} HooksOneMore(writes: seq<Write>, w: Write)
    ensures HooksOf(writes + [w]) == HooksOf(writes) + w.hooks
  {
    assert (writes + [w])[..|writes|] == writes;
  }

  lemma {:induction false} HooksConcat(a: seq<Write>, b: seq<Write>)
    ensures HooksOf(a + b) == HooksOf(a) + HooksOf(b)
  {
    if b == [] {
      assert a + b == a;
    } else {
      var front, w := b[..|b| - 1], b[|b| - 1];
      HooksConcat(a, front);
      HooksOneMore(a + front, w);
      HooksOneMore(front, w);
      assert b == front + [w] && a + b == a + front + [w];
    }
  }

  /** The state `s` after writes that only piled up. */
  function Piled(s: State, writes: seq<Write>): State
    requires s.queue.Some? && s.conn.Some?
  {
    s.(queue := Some(s.queue.value + HooksOf(writes)), conn := Some(s.conn.value + writes))
  }

  lemma {:induction false} PiledTwice(s: State, a: seq<Write>, b: seq<Write>)
    requires s.queue.Some? && s.conn.Some?
    ensures Piled(Piled(s, a), b) == Piled(s, a + b)
  {
    HooksConcat(a, b);
    Regroup(s.conn.value, a, b);
    Regroup(s.queue.value, HooksOf(a), HooksOf(b));
  }

  /**
  Inside a transaction, whatever is nested in it, nothing commits and no hook runs:
  writes and hooks only pile up, in step with each other.
  */
  lemma {:induction false} InsideNothingRuns(p: Program, s: State)
    requires s.queue.Some? && s.conn.Some?
    ensures Exec(p, s) == Result(Piled(s, Flat(p).writes), Flat(p).ok)
  {
    match p
    case Skip =>
      assert Piled(s, []) == s by { assert s.conn.value + [] == s.conn.value && s.queue.value + [] == s.queue.value; }
    case Raise =>
      assert Piled(s, []) == s by { assert s.conn.value + [] == s.conn.value && s.queue.value + [] == s.queue.value; }
    case Do(w) => HooksOfOne(w);
    case Then(first, second) =>
      InsideNothingRuns(first, s);
      if Flat(first).ok {
        InsideNothingRuns(second, Piled(s, Flat(first).writes));
        PiledTwice(s, Flat(first).writes, Flat(second).writes);
      }
    case Catch(body, handler) =>
      InsideNothingRuns(body, s);
      if !Flat(body).ok {
        InsideNothingRuns(handler, Piled(s, Flat(body).writes));
        PiledTwice(s, Flat(body).writes, Flat(handler).writes);
      }
    case AdapterTransaction(body) => InsideNothingRuns(body, s);
    case Transaction(body) => InsideNothingRuns(body, s);
  }

  lemma {:induction false} CommittedConcat(a: seq<Event>, b: seq<Event>)
    ensures CommittedWrites(a + b) == CommittedWrites(a) + CommittedWrites(b)
  {
    if a == [] {
      assert a + b == b;
    } else {
      assert (a + b)[1..] == a[1..] + b;
      CommittedConcat(a[1..], b);
      Regroup(if a[0].Committed? then a[0].writes else [], CommittedWrites(a[1..]), CommittedWrites(b));
    }
  }

  lemma {:induction false} RanConcat(a: seq<Event>, b: seq<Event>)
    ensures RanHooks(a + b) == RanHooks(a) + RanHooks(b)
  {
    if a == [] {
      assert a + b == b;
    } else {
      assert (a + b)[1..] == a[1..] + b;
      RanConcat(a[1..], b);
      Regroup(if a[0].Ran? then [a[0].hook] else [], RanHooks(a[1..]), RanHooks(b));
    }
  }

  lemma {:induction false} DrainOnlyRuns(hooks: seq<Hook>)
    ensures forall i :: 0 <= i < |Drain(hooks)| ==> Drain(hooks)[i].Ran?
  {
    if hooks != [] && !hooks[0].raises {
      DrainOnlyRuns(hooks[1..]);
    }
  }

  lemma {:induction false} OnlyRunsCommitNothing(log: seq<Event>)
    requires forall i :: 0 <= i < |log| ==> log[i].Ran?
    ensures CommittedWrites(log) == []
  {
    if log != [] {
      OnlyRunsCommitNothing(log[1..]);
    }
  }

  lemma {:induction false} BatchCommits(writes: seq<Write>, hooks: seq<Hook>)
    ensures CommittedWrites([Committed(writes)] + Drain(hooks)) == writes
    ensures RanHooks([Committed(writes)] + Drain(hooks)) == RanHooks(Drain(hooks))
  {
    var log := [Committed(writes)] + Drain(hooks);
    assert log[1..] == Drain(hooks);
    DrainOnlyRuns(hooks);
    OnlyRunsCommitNothing(Drain(hooks));
  }

  lemma {:induction false} Regroup<T>(a: seq<T>, b: seq<T>, c: seq<T>)
    ensures a + b + c == a + (b + c)
  {
  }

  ghost predicate Idle(s: State) {
    s.queue.None? && s.conn.None?
  }

  /** The state `s` after hooks that ran at once and writes that piled up. */
  function Advanced(s: State, a: Pending): State
    requires s.conn.Some?
  {
    s.(log := s.log + a.log, conn := Some(s.conn.value + a.writes))
  }

  lemma {:induction false} AdvancedTwice(s: State, a: Pending, b: Pending)
    requires s.conn.Some?
    ensures Advanced(Advanced(s, a), b) == Advanced(s, Joined(a, b))
  {
    Regroup(s.log, a.log, b.log);
    Regroup(s.conn.value, a.writes, b.writes);
  }

  lemma {:induction false} AloneBlock(body: Program, s: State)
    requires s.queue.None? && s.conn.Some?
    ensures Exec(Transaction(body), s) == Result(Advanced(s, Alone(Transaction(body))), Alone(Transaction(body)).ok)
  {
    var f := Flat(body);
    InsideNothingRuns(body, s.(queue := Some([])));
    assert [] + HooksOf(f.writes) == HooksOf(f.writes) && s.log + [] == s.log;
  }

  /** Inside the adapter's own transaction hooks run before anything is committed. */
  lemma {:induction false} AloneRuns(p: Program, s: State)
    requires s.queue.None? && s.conn.Some?
    ensures Exec(p, s) == Result(Advanced(s, Alone(p)), Alone(p).ok)
  {
    match p
    case Skip => assert s.log + [] == s.log && s.conn.value + [] == s.conn.value;
    case Raise => assert s.log + [] == s.log && s.conn.value + [] == s.conn.value;
    case Do(w) =>
    case Then(first, second) =>
      AloneRuns(first, s);
      if Alone(first).ok {
        AloneRuns(second, Advanced(s, Alone(first)));
        AdvancedTwice(s, Alone(first), Alone(second));
      }
    case Catch(body, handler) =>
      AloneRuns(body, s);
      if !Alone(body).ok {
        AloneRuns(handler, Advanced(s, Alone(body)));
        AdvancedTwice(s, Alone(body), Alone(handler));
      }
    case AdapterTransaction(body) => AloneRuns(body, s);
    case Transaction(body) => AloneBlock(body, s);
  }

  lemma {:induction false} AloneOnlyRuns(p: Program)
    ensures forall i :: 0 <= i < |Alone(p).log| ==> Alone(p).log[i].Ran?
  {
    match p
    case Skip =>
    case Raise =>
    case Do(w) => DrainOnlyRuns(w.hooks);
    case Then(first, second) =>
      AloneOnlyRuns(first);
      AloneOnlyRuns(second);
    case Catch(body, handler) =>
      AloneOnlyRuns(body);
      AloneOnlyRuns(handler);
    case AdapterTransaction(body) => AloneOnlyRuns(body);
    case Transaction(body) => DrainOnlyRuns(HooksOf(Flat(body).writes));
  }

  lemma {:induction false} CommitsLast(log: seq<Event>, last: Event)
    requires CommittedWrites(log) == []
    ensures CommittedWrites(log + [last]) == if last.Committed? then last.writes else []
  {
    CommittedConcat(log, [last]);
    assert [last][1..] == [];
  }

  lemma {:induction false} AdapterBlockCommits(body: Program)
    ensures CommittedWrites(Outcome(AdapterTransaction(body)).log) == if Alone(body).ok then Alone(body).writes else []
  {
    AloneOnlyRuns(body);
    OnlyRunsCommitNothing(Alone(body).log);
    CommitsLast(Alone(body).log, if Alone(body).ok then Committed(Alone(body).writes) else RolledBack(Alone(body).writes));
  }

  /** What a run adds: the log, and what was committed to the database. */
  function After(s: State, h: History): Result {
    Result(s.(log := s.log + h.log, db := s.db + CommittedWrites(h.log)), h.ok)
  }

  lemma {:induction false} AfterBoth(s: State, a: History, b: History)
    ensures After(After(s, a).state, b) == After(s, History(a.log + b.log, b.ok))
  {
    CommittedConcat(a.log, b.log);
    Regroup(s.log, a.log, b.log);
    Regroup(s.db, CommittedWrites(a.log), CommittedWrites(b.log));
  }

  lemma {:induction false} AdapterBlockRuns(body: Program, s: State)
    requires Idle(s)
    ensures Exec(AdapterTransaction(body), s) == After(s, Outcome(AdapterTransaction(body)))
  {
    var a := Alone(body);
    AloneRuns(body, s.(conn := Some([])));
    AdapterBlockCommits(body);
    assert [] + a.writes == a.writes && s.db + [] == s.db;
    Regroup(s.log, a.log, [if a.ok then Committed(a.writes) else RolledBack(a.writes)]);
  }

  /** The state in which the outermost block of the core leaves its body. */
  lemma {:induction false} CoreBlockPiles(body: Program, s: State)
    requires Idle(s)
    ensures Exec(body, s.(queue := Some([]), conn := Some([]))) ==
            Result(s.(queue := Some(HooksOf(Flat(body).writes)), conn := Some(Flat(body).writes)), Flat(body).ok)
  {
    var f := Flat(body);
    InsideNothingRuns(body, s.(queue := Some([]), conn := Some([])));
    assert [] + HooksOf(f.writes) == HooksOf(f.writes) && [] + f.writes == f.writes;
  }

  lemma {:induction false} CoreBlockRuns(body: Program, s: State)
    requires Idle(s)
    ensures Exec(Transaction(body), s) == After(s, Outcome(Transaction(body)))
  {
    var f := Flat(body);
    CoreBlockPiles(body, s);
    if f.ok {
      var hooks := HooksOf(f.writes);
      BatchCommits(f.writes, hooks);
      var committed := s.(db := s.db + f.writes, log := s.log + [Committed(f.writes)]);
      assert Exec(Transaction(body), s) == AfterWrite(committed, hooks);
      Regroup(s.log, [Committed(f.writes)], Drain(hooks));
    } else {
      RollbackCommitsNothing(f.writes);
      assert s.db + [] == s.db;
    }
  }

  lemma {:induction false} RollbackCommitsNothing(writes: seq<Write>)
    ensures CommittedWrites([RolledBack(writes)]) == [] && RanHooks([RolledBack(writes)]) == []
  {
    assert [RolledBack(writes)][1..] == [];
  }

  /** Main result: from an idle runtime every program leaves exactly the specified log and rows. */
  lemma {:induction false} RunsAsSpecified(p: Program, s: State)
    requires Idle(s)
    ensures Exec(p, s) == After(s, Outcome(p))
  {
    match p
    case Skip =>
    case Raise =>
    case Do(w) =>
      BatchCommits([w], w.hooks);
      Regroup(s.log, [Committed([w])], Drain(w.hooks));
    case Then(first, second) =>
      RunsAsSpecified(first, s);
      if Outcome(first).ok {
        RunsAsSpecified(second, After(s, Outcome(first)).state);
        AfterBoth(s, Outcome(first), Outcome(second));
      }
    case Catch(body, handler) =>
      RunsAsSpecified(body, s);
      if !Outcome(body).ok {
        RunsAsSpecified(handler, After(s, Outcome(body)).state);
        AfterBoth(s, Outcome(body), Outcome(handler));
      }
    case AdapterTransaction(body) => AdapterBlockRuns(body, s);
    case Transaction(body) => CoreBlockRuns(body, s);
  }

  // ----- properties of every run -----

  /**
  A monitor of the log. `due` are the hooks of the last commit that have still to run: a
  commit or a rollback may come only when none is due, a hook may run only when it is the
  next one due, and a hook that raises cancels the rest of its batch.
  */
  function Due(log: seq<Event>): Option<seq<Hook>> {
    if log == [] then Some([]) else NextDue(Due(log[..|log| - 1]), log[|log| - 1])
  }

  function NextDue(due: Option<seq<Hook>>, event: Event): Option<seq<Hook>> {
    if due.None? then None
    else match event
      case Committed(writes) => if due.value == [] then Some(HooksOf(writes)) else None
      case RolledBack(_) => if due.value == [] then Some([]) else None
      case Ran(hook) =>
        if due.value == [] || due.value[0] != hook then None
        else if hook.raises then Some([]) else Some(due.value[1..])
  }

  lemma {:induction false} DueMore(log: seq<Event>, event: Event)
    ensures Due(log + [event]) == NextDue(Due(log), event)
  {
    assert (log + [event])[..|log|] == log;
  }

  lemma {:induction false} DrainSettles(log: seq<Event>, hooks: seq<Hook>)
    requires Due(log) == Some(hooks)
    ensures Due(log + Drain(hooks)) == Some([])
    decreases |hooks|
  {
    if hooks == [] {
      assert log + Drain(hooks) == log;
    } else {
      DueMore(log, Ran(hooks[0]));
      if !hooks[0].raises {
        DrainSettles(log + [Ran(hooks[0])], hooks[1..]);
        Regroup(log, [Ran(hooks[0])], Drain(hooks[1..]));
      }
    }
  }

  /** The monitor is satisfied with the log and no hook is due. */
  ghost predicate Settled(log: seq<Event>) {
    Due(log) == Some([])
  }

  lemma {:induction false} RollbackSettles(log: seq<Event>, writes: seq<Write>)
    requires Settled(log)
    ensures Settled(log + [RolledBack(writes)])
  {
    DueMore(log, RolledBack(writes));
  }

  lemma {:induction false} BatchSettles(log: seq<Event>, writes: seq<Write>)
    requires Settled(log)
    ensures Settled(log + ([Committed(writes)] + Drain(HooksOf(writes))))
  {
    DueMore(log, Committed(writes));
    DrainSettles(log + [Committed(writes)], HooksOf(writes));
    Regroup(log, [Committed(writes)], Drain(HooksOf(writes)));
  }

  lemma {:induction false} NeverDueAgain(log: seq<Event>, more: seq<Event>)
    requires Due(log) == None
    ensures Due(log + more) == None
  {
    if more == [] {
      assert log + more == log;
    } else {
      NeverDueAgain(log, more[..|more| - 1]);
      assert (log + more)[..|log + more| - 1] == log + more[..|more| - 1];
    }
  }

  /** An adapter block runs no hook, and commits no write that has one. */
  predicate HookFree(body: Program) {
    Alone(body).log == [] && (Alone(body).ok ==> HooksOf(Alone(body).writes) == [])
  }

  lemma {:induction false} HookOutOfTurn(log: seq<Event>, hook: Hook, more: seq<Event>)
    requires Settled(log)
    ensures Due(log + ([Ran(hook)] + more)) == None
  {
    DueMore(log, Ran(hook));
    NeverDueAgain(log + [Ran(hook)], more);
    Regroup(log, [Ran(hook)], more);
  }

  lemma {:induction false} HooklessBlockSettles(log: seq<Event>, last: Event)
    requires Settled(log) && !last.Ran?
    ensures Settled(log + [last]) <==> (last.Committed? ==> HooksOf(last.writes) == [])
  {
    DueMore(log, last);
  }

  /**
  The exact condition for a block opened on the adapter alone: every hook it runs runs too
  early, and every hook of a write it commits has been run early or is lost.
  */
  lemma {:induction false} AdapterBlockSettles(body: Program, log: seq<Event>)
    requires Settled(log)
    ensures Settled(log + Outcome(AdapterTransaction(body)).log) <==> HookFree(body)
  {
    var a := Alone(body);
    var last := if a.ok then Committed(a.writes) else RolledBack(a.writes);
    if a.log == [] {
      assert [] + [last] == [last];
      HooklessBlockSettles(log, last);
    } else {
      AloneOnlyRuns(body);
      HookOutOfTurn(log, a.log[0].hook, a.log[1..] + [last]);
      assert [a.log[0]] + (a.log[1..] + [last]) == a.log + [last];
    }
  }

  /** Every adapter block that a run of the program from an idle runtime opens is free of hooks. */
  predicate Disciplined(p: Program) {
    match p
    case Then(first, second) => Disciplined(first) && (Outcome(first).ok ==> Disciplined(second))
    case Catch(body, handler) => Disciplined(body) && (!Outcome(body).ok ==> Disciplined(handler))
    case AdapterTransaction(body) => HookFree(body)
    case _ => true
  }

  /** The monitor is satisfied whenever the run comes back to an idle runtime. */
  ghost predicate SettledThroughout(p: Program, s: State) {
    match p
    case Then(first, second) =>
      SettledThroughout(first, s) && (Exec(first, s).ok ==> SettledThroughout(second, Exec(first, s).state))
    case Catch(body, handler) =>
      SettledThroughout(body, s) && (!Exec(body, s).ok ==> SettledThroughout(handler, Exec(body, s).state))
    case _ => Settled(Exec(p, s).state.log)
  }

  lemma {:induction false} SettledAtTheEnd(p: Program, s: State)
    requires SettledThroughout(p, s)
    ensures Settled(Exec(p, s).state.log)
  {
    match p
    case Then(first, second) =>
      SettledAtTheEnd(first, s);
      if Exec(first, s).ok { SettledAtTheEnd(second, Exec(first, s).state); }
    case Catch(body, handler) =>
      SettledAtTheEnd(body, s);
      if !Exec(body, s).ok { SettledAtTheEnd(handler, Exec(body, s).state); }
    case _ =>
  }

  /**
  Main result: in a run the monitor is satisfied throughout, so that each hook runs at most
  once, in queue order, after the outermost commit of its write and never for a write that is
  rolled back, if and only if every block opened on the adapter alone is free of hooks.
  */
  lemma {:induction false} HooksFollowCommits(p: Program, s: State)
    requires Idle(s) && Settled(s.log)
    ensures SettledThroughout(p, s) <==> Disciplined(p)
    ensures Disciplined(p) ==> Settled(Exec(p, s).state.log)
  {
    RunsAsSpecified(p, s);
    match p
    case Skip => assert s.log + [] == s.log;
    case Raise => assert s.log + [] == s.log;
    case Do(w) =>
      HooksOfOne(w);
      BatchSettles(s.log, [w]);
    case Then(first, second) =>
      HooksFollowCommits(first, s);
      RunsAsSpecified(first, s);
      if Outcome(first).ok && Disciplined(first) { HooksFollowCommits(second, Exec(first, s).state); }
      if SettledThroughout(p, s) { SettledAtTheEnd(p, s); }
    case Catch(body, handler) =>
      HooksFollowCommits(body, s);
      RunsAsSpecified(body, s);
      if !Outcome(body).ok && Disciplined(body) { HooksFollowCommits(handler, Exec(body, s).state); }
      if SettledThroughout(p, s) { SettledAtTheEnd(p, s); }
    case AdapterTransaction(body) => AdapterBlockSettles(body, s.log);
    case Transaction(body) =>
      if Flat(body).ok { BatchSettles(s.log, Flat(body).writes); } else { RollbackSettles(s.log, Flat(body).writes); }
  }

  /** The adapter's own transaction is opened only inside one of the core's. */
  predicate ThroughCore(p: Program) {
    match p
    case Then(first, second) => ThroughCore(first) && ThroughCore(second)
    case Catch(body, handler) => ThroughCore(body) && ThroughCore(handler)
    case AdapterTransaction(_) => false
    case _ => true
  }

  /** Code that opens transactions through the core meets the condition, whatever it writes, raises and catches. */
  lemma {:induction false} ThroughCoreIsDisciplined(p: Program)
    requires ThroughCore(p)
    ensures Disciplined(p)
  {
    match p
    case Then(first, second) =>
      ThroughCoreIsDisciplined(first);
      ThroughCoreIsDisciplined(second);
    case Catch(body, handler) =>
      ThroughCoreIsDisciplined(body);
      ThroughCoreIsDisciplined(handler);
    case _ =>
  }

  // ----- every committed hook runs -----

  /** No hook raises while another of its batch is still waiting. */
  predicate OnlyLastRaises(hooks: seq<Hook>) {
    forall i :: 0 <= i < |hooks| - 1 ==> !hooks[i].raises
  }

  /** No batch that a run of the program commits has a hook that raises before its last. */
  predicate Completes(p: Program) {
    match p
    case Do(w) => OnlyLastRaises(w.hooks)
    case Then(first, second) => Completes(first) && (Outcome(first).ok ==> Completes(second))
    case Catch(body, handler) => Completes(body) && (!Outcome(body).ok ==> Completes(handler))
    case Transaction(body) => Flat(body).ok ==> OnlyLastRaises(HooksOf(Flat(body).writes))
    case _ => true
  }

  lemma {:induction false} DrainRuns(hooks: seq<Hook>)
    ensures RanHooks(Drain(hooks)) <= hooks
    ensures RanHooks(Drain(hooks)) == hooks <==> OnlyLastRaises(hooks)
  {
    if hooks != [] {
      var rest := hooks[1..];
      if hooks[0].raises {
        assert Drain(hooks)[1..] == [];
        assert RanHooks(Drain(hooks)) == [hooks[0]];
        if |hooks| == 1 { assert hooks == [hooks[0]]; }
      } else {
        DrainRuns(rest);
        assert Drain(hooks)[1..] == Drain(rest);
        assert hooks == [hooks[0]] + rest;
        assert forall i :: 0 <= i < |rest| ==> rest[i] == hooks[i + 1];
        assert OnlyLastRaises(rest) <==> OnlyLastRaises(hooks) by {
          if OnlyLastRaises(rest) {
            forall i | 0 <= i < |hooks| - 1 ensures !hooks[i].raises {
              if i > 0 { assert !rest[i - 1].raises; }
            }
          }
        }
      }
    }
  }

  /** The hooks that ran never outnumber those committed, and are all of them iff `complete`. */
  ghost predicate Accounted(log: seq<Event>, complete: bool) {
    && |RanHooks(log)| <= |HooksOf(CommittedWrites(log))|
    && (complete ==> RanHooks(log) == HooksOf(CommittedWrites(log)))
    && (|RanHooks(log)| == |HooksOf(CommittedWrites(log))| ==> complete)
  }

  lemma {:induction false} AccountedConcat(a: seq<Event>, b: seq<Event>, first: bool, second: bool)
    requires Accounted(a, first) && Accounted(b, second)
    ensures Accounted(a + b, first && second)
  {
    CommittedConcat(a, b);
    RanConcat(a, b);
    HooksConcat(CommittedWrites(a), CommittedWrites(b));
  }

  lemma {:induction false} BatchAccounted(writes: seq<Write>)
    ensures Accounted([Committed(writes)] + Drain(HooksOf(writes)), OnlyLastRaises(HooksOf(writes)))
  {
    BatchCommits(writes, HooksOf(writes));
    DrainRuns(HooksOf(writes));
  }

  lemma {:induction false} OneAccounted(last: Event)
    requires last.RolledBack? || (last.Committed? && HooksOf(last.writes) == [])
    ensures Accounted([last], true)
  {
    assert [last][1..] == [];
    assert CommittedWrites([last]) == if last.Committed? then last.writes else [];
  }

  lemma {:induction false} AllAccounted(p: Program)
    requires Disciplined(p)
    ensures Accounted(Outcome(p).log, Completes(p))
  {
    match p
    case Skip =>
    case Raise =>
    case Do(w) =>
      BatchAccounted([w]);
      HooksOfOne(w);
    case Then(first, second) =>
      AllAccounted(first);
      if Outcome(first).ok {
        AllAccounted(second);
        AccountedConcat(Outcome(first).log, Outcome(second).log, Completes(first), Completes(second));
      }
    case Catch(body, handler) =>
      AllAccounted(body);
      if !Outcome(body).ok {
        AllAccounted(handler);
        AccountedConcat(Outcome(body).log, Outcome(handler).log, Completes(body), Completes(handler));
      }
    case AdapterTransaction(body) =>
      var last := if Alone(body).ok then Committed(Alone(body).writes) else RolledBack(Alone(body).writes);
      assert [] + [last] == [last];
      OneAccounted(last);
    case Transaction(body) =>
      if Flat(body).ok { BatchAccounted(Flat(body).writes); } else { OneAccounted(RolledBack(Flat(body).writes)); }
  }

  /** The hooks that a run from `s` to `t` ran, and the writes it committed. */
  function RanSince(s: State, t: State): seq<Hook>
    requires s.log <= t.log
  {
    RanHooks(t.log[|s.log|..])
  }

  function WrittenSince(s: State, t: State): seq<Write>
    requires s.db <= t.db
  {
    t.db[|s.db|..]
  }

  /**
  Main result: the hooks that a run ran are the hooks of the writes it committed, each exactly
  once and in queue order, if and only if no committed batch has a hook that raises before
  its last.
  */
  lemma {:induction false} EveryCommittedHookRuns(p: Program, s: State)
    requires Idle(s) && Disciplined(p)
    ensures var t := Exec(p, s).state; RanSince(s, t) == HooksOf(WrittenSince(s, t)) <==> Completes(p)
  {
    RunsAsSpecified(p, s);
    AllAccounted(p);
    var t, h := Exec(p, s).state, Outcome(p);
    assert t.log[|s.log|..] == h.log && t.db[|s.db|..] == CommittedWrites(h.log);
  }

  /** No hook of the program raises. */
  predicate HooksNeverRaise(p: Program) {
    match p
    case Do(w) => forall i :: 0 <= i < |w.hooks| ==> !w.hooks[i].raises
    case Then(first, second) => HooksNeverRaise(first) && HooksNeverRaise(second)
    case Catch(body, handler) => HooksNeverRaise(body) && HooksNeverRaise(handler)
    case AdapterTransaction(body) => HooksNeverRaise(body)
    case Transaction(body) => HooksNeverRaise(body)
    case _ => true
  }

  lemma {:induction false} NoneOfItsHooksRaises(p: Program)
    requires HooksNeverRaise(p)
    ensures NoneRaises(HooksOf(Flat(p).writes))
  {
    match p
    case Do(w) => HooksOfOne(w);
    case Then(first, second) =>
      NoneOfItsHooksRaises(first);
      NoneOfItsHooksRaises(second);
      HooksConcat(Flat(first).writes, Flat(second).writes);
    case Catch(body, handler) =>
      NoneOfItsHooksRaises(body);
      NoneOfItsHooksRaises(handler);
      HooksConcat(Flat(body).writes, Flat(handler).writes);
    case AdapterTransaction(body) => NoneOfItsHooksRaises(body);
    case Transaction(body) => NoneOfItsHooksRaises(body);
    case _ =>
  }

  lemma {:induction false} NeverRaisingCompletes(p: Program)
    requires HooksNeverRaise(p)
    ensures Completes(p)
  {
    match p
    case Then(first, second) =>
      NeverRaisingCompletes(first);
      NeverRaisingCompletes(second);
    case Catch(body, handler) =>
      NeverRaisingCompletes(body);
      NeverRaisingCompletes(handler);
    case Transaction(body) => NoneOfItsHooksRaises(body);
    case _ =>
  }

  /**
  With hooks that do not raise, every run of a disciplined program, and so of every program
  that opens its transactions through the core, runs exactly the hooks of the writes it
  committed, in order.
  */
  lemma {:induction false} HooksRunExactlyOnce(p: Program, s: State)
    requires Idle(s) && Disciplined(p) && HooksNeverRaise(p)
    ensures var t := Exec(p, s).state; RanSince(s, t) == HooksOf(WrittenSince(s, t))
  {
    NeverRaisingCompletes(p);
    EveryCommittedHookRuns(p, s);
  }

  /** The program raises nothing itself. */
  predicate NeverRaises(p: Program) {
    match p
    case Skip => true
    case Raise => false
    case Do(_) => true
    case Then(first, second) => NeverRaises(first) && NeverRaises(second)
    case Catch(body, _) => NeverRaises(body)
    case AdapterTransaction(body) => NeverRaises(body)
    case Transaction(body) => NeverRaises(body)
  }

  /** The writes of a program in the order they are written down, handlers left out. */
  function WritesOf(p: Program): seq<Write> {
    match p
    case Do(w) => [w]
    case Then(first, second) => WritesOf(first) + WritesOf(second)
    case Catch(body, _) => WritesOf(body)
    case AdapterTransaction(body) => WritesOf(body)
    case Transaction(body) => WritesOf(body)
    case _ => []
  }

  lemma {:induction false} CleanFlat(p: Program)
    requires NeverRaises(p)
    ensures Flat(p) == Flow(WritesOf(p), true)
  {
    match p
    case Then(first, second) =>
      CleanFlat(first);
      CleanFlat(second);
    case Catch(body, _) => CleanFlat(body);
    case AdapterTransaction(body) => CleanFlat(body);
    case Transaction(body) => CleanFlat(body);
    case _ =>
  }

  lemma {:induction false} CleanAlone(p: Program)
    requires NeverRaises(p) && HooksNeverRaise(p)
    ensures Alone(p).ok && Alone(p).writes == WritesOf(p)
  {
    match p
    case Then(first, second) =>
      CleanAlone(first);
      CleanAlone(second);
    case Catch(body, _) => CleanAlone(body);
    case AdapterTransaction(body) => CleanAlone(body);
    case Transaction(body) =>
      CleanFlat(body);
      NoneOfItsHooksRaises(body);
    case _ =>
  }

  lemma {:induction false} CleanOutcome(p: Program)
    requires NeverRaises(p) && HooksNeverRaise(p)
    ensures Outcome(p).ok && CommittedWrites(Outcome(p).log) == WritesOf(p)
  {
    match p
    case Do(w) => BatchCommits([w], w.hooks);
    case Then(first, second) =>
      CleanOutcome(first);
      CleanOutcome(second);
      CommittedConcat(Outcome(first).log, Outcome(second).log);
    case Catch(body, _) => CleanOutcome(body);
    case AdapterTransaction(body) =>
      CleanAlone(body);
      AdapterBlockCommits(body);
    case Transaction(body) =>
      CleanFlat(body);
      NoneOfItsHooksRaises(body);
      BatchCommits(Flat(body).writes, HooksOf(Flat(body).writes));
    case _ =>
  }

  /**
  Main result: a program that raises nothing, with hooks that raise nothing, ends without an
  error and commits exactly its writes in order; if it is disciplined, exactly their hooks run.
  */
  lemma {:induction false} CleanRunCommitsAll(p: Program, s: State)
    requires Idle(s) && NeverRaises(p) && HooksNeverRaise(p)
    ensures var r := Exec(p, s); r.ok && Idle(r.state) && r.state.db == s.db + WritesOf(p)
    ensures Disciplined(p) ==> RanSince(s, Exec(p, s).state) == HooksOf(WritesOf(p))
  {
    RunsAsSpecified(p, s);
    CleanOutcome(p);
    if Disciplined(p) {
      HooksRunExactlyOnce(p, s);
      assert (s.db + WritesOf(p))[|s.db|..] == WritesOf(p);
    }
  }

  /** A hook that raises: the write is committed, and the hook queued behind it never runs. */
  lemma {:induction false} RaisingHookCancels(w: Write, bad: Hook, other: Hook, s: State)
    requires Idle(s) && w.hooks == [bad, other] && bad.raises
    ensures var r := Exec(Transaction(Do(w)), s);
            !r.ok && r.state.db == s.db + [w] && r.state.log == s.log + [Committed([w]), Ran(bad)]
  {
    HooksOfOne(w);
    RunsAsSpecified(Transaction(Do(w)), s);
    BatchCommits([w], w.hooks);
    assert Drain(w.hooks) == [Ran(bad)];
    assert [Committed([w])] + [Ran(bad)] == [Committed([w]), Ran(bad)];
  }

  /** A transaction that raises commits nothing and runs nothing, whatever it caught on the way. */
  lemma {:induction false} OutermostRollback(body: Program, s: State)
    requires Idle(s) && !Flat(body).ok
    ensures var r := Exec(Transaction(body), s);
            !r.ok && r.state.db == s.db && RanHooks(r.state.log) == RanHooks(s.log) && Idle(r.state)
  {
    RunsAsSpecified(Transaction(body), s);
    RanConcat(s.log, [RolledBack(Flat(body).writes)]);
    RollbackCommitsNothing(Flat(body).writes);
    assert s.db + [] == s.db;
    assert RanHooks(s.log) + [] == RanHooks(s.log);
  }

  /**
  Opening the adapter's transaction directly does not install a queue: the hook of a write
  that is then rolled back has already run.
  */
  lemma {:induction false} AdapterAloneRunsEarly(w: Write, h: Hook, s: State)
    requires Idle(s) && w.hooks == [h] && !h.raises
    ensures var r := Exec(AdapterTransaction(Then(Do(w), Raise)), s);
            r.state.db == s.db && r.state.log == s.log + [Ran(h), RolledBack([w])]
  {
    AdapterBlockRuns(Then(Do(w), Raise), s);
    AdapterBlockCommits(Then(Do(w), Raise));
    EarlyOutcome(w, h);
    assert s.db + [] == s.db;
  }

  lemma {:induction false} EarlyOutcome(w: Write, h: Hook)
    requires w.hooks == [h] && !h.raises
    ensures Outcome(AdapterTransaction(Then(Do(w), Raise))) == History([Ran(h), RolledBack([w])], false)
    ensures !Alone(Then(Do(w), Raise)).ok
  {
    DrainOne(h);
    assert Alone(Do(w)) == Pending([Ran(h)], [w], true);
    assert Alone(Raise) == Pending([], [], false);
    assert Alone(Then(Do(w), Raise)) == Joined(Alone(Do(w)), Alone(Raise));
    assert [Ran(h)] + [] == [Ran(h)] && [w] + [] == [w];
  }

  lemma {:induction false} DrainOne(h: Hook)
    ensures Drain([h]) == [Ran(h)]
  {
    assert [h][1..] == [];
  }

  /**
  And one that nothing raised out of can lose a hook: a block of the core that raised inside
  it discards its queue, but its write is committed with the connection.
  */
  lemma {:induction false} AdapterAloneLosesHook(w: Write, s: State)
    requires Idle(s)
    ensures var r := Exec(AdapterTransaction(Catch(Transaction(Then(Do(w), Raise)), Skip)), s);
            r.ok && r.state.db == s.db + [w] && r.state.log == s.log + [Committed([w])]
  {
    var inner := Transaction(Then(Do(w), Raise));
    AdapterBlockRuns(Catch(inner, Skip), s);
    AdapterBlockCommits(Catch(inner, Skip));
    assert Flat(Then(Do(w), Raise)) == Flow([w] + [], false);
    assert Alone(inner) == Pending([], [w], false);
    assert Alone(Catch(inner, Skip)) == Pending([] + [], [w] + [], true);
    assert [] + [Committed([w])] == [Committed([w])];
  }
}
