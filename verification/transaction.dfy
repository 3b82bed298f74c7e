/** The template transaction (`ITemplateTransaction`): a single-use
    coordinator that collects operators and executes them once over its
    backing template. The backing template is a value, so executing never
    modifies it; the result is a new template. */
module TemplateTransaction {
  import opened Results
  import opened TransactionOperator
  import opened TransactionErrors
  import opened Execution

  /** A transaction accepts registrations until `execute` is called, and is
      consumed from then on, whether the execution succeeded or not. */
  datatype State = Open | Consumed

  datatype Transaction<!P(==), !D> = Transaction(
    backing: map<P, D>,
    operators: seq<Operator<P, D>>,  // in registration order; duplicates allowed
    state: State)

  /** A fresh transaction over the template `t`. */
  function Begin<P(==), D>(t: map<P, D>): Transaction<P, D> {
    Transaction(t, [], Open)
  }

  /** `operate`: registers `op` after the operators already registered,
      executing nothing. A consumed transaction rejects it. */
  function Operate<P(==), D>(tx: Transaction<P, D>, op: Operator<P, D>): (r: Result<Transaction<P, D>, TransactionError<P>>)
    ensures r.Success? <==> tx.state.Open?
    ensures r.Success? ==>
      && r.value.state.Open?
      && r.value.backing == tx.backing
      && |r.value.operators| == |tx.operators| + 1
      && r.value.operators[..|tx.operators|] == tx.operators
      && r.value.operators[|tx.operators|] == op
    ensures r.Failure? ==> r.error == Unsupported
  {
    if tx.state.Consumed? then Failure(Unsupported)
    else Success(tx.(operators := tx.operators + [op]))
  }

  /** `execute`: consumes the transaction, then runs the registered operators
      over the backing template. A consumed transaction rejects it. */
  function Execute<P(==), D(==)>(tx: Transaction<P, D>): (r: (Transaction<P, D>, Result<map<P, D>, TransactionError<P>>))
    ensures r.0.state.Consumed?
    ensures r.0.backing == tx.backing && r.0.operators == tx.operators
    ensures r.1 == Failure(Unsupported) <==> tx.state.Consumed?
    ensures r.1.Failure? ==> r.1.error != ConcurrentExecution
  {
    var consumed := tx.(state := Consumed);
    if tx.state.Consumed? then (consumed, Failure(Unsupported))
    else (consumed, RunPhases(tx.operators, tx.backing))
  }

  // ---------------------------------------------------------------------
  // Sequences of calls
  // ---------------------------------------------------------------------

  /** A call a client makes on a transaction. */
  datatype Request<!P, !D> = OperateRequest(op: Operator<P, D>) | ExecuteRequest

  /** What the transaction answers to a call. */
  datatype Reply<P, D> = Registered | Executed(template: map<P, D>) | Rejected(error: TransactionError<P>)

  /** One call: the transaction afterwards, and its answer. */
  function Handle<P(==), D(==)>(tx: Transaction<P, D>, call: Request<P, D>): (Transaction<P, D>, Reply<P, D>) {
    match call
    case OperateRequest(op) =>
      (match Operate(tx, op)
       case Success(next) => (next, Registered)
       case Failure(e) => (tx, Rejected(e)))
    case ExecuteRequest =>
      var (next, outcome) := Execute(tx);
      (next, match outcome
             case Success(t) => Executed(t)
             case Failure(e) => Rejected(e))
  }

  /** A sequence of calls, in order: the final transaction and the answers. */
  function Replay<P(==), D(==)>(tx: Transaction<P, D>, calls: seq<Request<P, D>>): (Transaction<P, D>, seq<Reply<P, D>>)
    decreases |calls|
  {
    if |calls| == 0 then (tx, [])
    else
      var (next, reply) := Handle(tx, calls[0]);
      var (last, replies) := Replay(next, calls[1..]);
      (last, [reply] + replies)
  }

  /** The calls that register `ops`, in order. */
  function Registrations<P, D>(ops: seq<Operator<P, D>>): seq<Request<P, D>> {
    seq(|ops|, i requires 0 <= i < |ops| => OperateRequest(ops[i]))
  }

  /** A consumed transaction is inert: it rejects every further call as
      unsupported and never changes again. */
  lemma {:induction false} ConsumedRejectsEverything<P, D>(tx: Transaction<P, D>, calls: seq<Request<P, D>>)
    requires tx.state.Consumed?
    ensures Replay(tx, calls).0 == tx
    ensures |Replay(tx, calls).1| == |calls|
    ensures forall i :: 0 <= i < |calls| ==> Replay(tx, calls).1[i] == Rejected(Unsupported)
    decreases |calls|
  {
    if |calls| > 0 {
      ConsumedRejectsEverything(tx, calls[1..]);
    }
  }

  /** Single use: every call after the first `execute` of a sequence is
      rejected as unsupported, whatever the outcome of that `execute`. */
  lemma {:induction false} SingleUse<P, D>(tx: Transaction<P, D>, calls: seq<Request<P, D>>, k: nat)
    requires k < |calls| && calls[k].ExecuteRequest?
    ensures |Replay(tx, calls).1| == |calls|
    ensures forall j :: k < j < |calls| ==> Replay(tx, calls).1[j] == Rejected(Unsupported)
    decreases k
  {
    var (next, reply) := Handle(tx, calls[0]);
    if k == 0 {
      assert next.state.Consumed?;
      ConsumedRejectsEverything(next, calls[1..]);
    } else {
      SingleUse(next, calls[1..], k - 1);
    }
  }

  /** Registering operators on an open transaction only appends them, in
      order: it answers `Registered` each time, leaves the backing template
      alone and executes nothing. */
  lemma {:induction false} RegisterAll<P, D>(tx: Transaction<P, D>, ops: seq<Operator<P, D>>)
    requires tx.state.Open?
    ensures Replay(tx, Registrations(ops)).0 == tx.(operators := tx.operators + ops)
    ensures |Replay(tx, Registrations(ops)).1| == |ops|
    ensures forall i :: 0 <= i < |ops| ==> Replay(tx, Registrations(ops)).1[i] == Registered
    decreases |ops|
  {
    var calls := Registrations(ops);
    if |ops| == 0 {
      assert tx.operators + ops == tx.operators;
    } else {
      var next := tx.(operators := tx.operators + [ops[0]]);
      assert Handle(tx, calls[0]) == (next, Registered);
      assert calls[1..] == Registrations(ops[1..]);
      RegisterAll(next, ops[1..]);
      assert next.operators + ops[1..] == tx.operators + ops;
    }
  }

  /** Registering `ops` on a fresh transaction over `t` and then executing
      runs exactly `ops`, in registration order, over `t`. */
  lemma RegisterThenExecute<P, D>(t: map<P, D>, ops: seq<Operator<P, D>>)
    ensures var replies := Replay(Begin(t), Registrations(ops) + [ExecuteRequest]).1;
      && |replies| == |ops| + 1
      && (RunPhases(ops, t).Success? ==> replies[|ops|] == Executed(RunPhases(ops, t).value))
      && (RunPhases(ops, t).Failure? ==> replies[|ops|] == Rejected(RunPhases(ops, t).error))
  {
    var calls := Registrations(ops);
    ReplayAppend(Begin(t), calls, [ExecuteRequest]);
    RegisterAll(Begin(t), ops);
    var registered := Replay(Begin(t), calls).0;
    assert [] + ops == ops;
    assert registered == Transaction(t, ops, Open);
    var execute: seq<Request<P, D>> := [ExecuteRequest];
    assert execute[1..] == [];
    assert Replay(registered, execute).1 == [Handle(registered, ExecuteRequest).1];
  }

  /** Replaying two sequences of calls one after the other. */
  lemma {:induction false} ReplayAppend<P, D>(tx: Transaction<P, D>, first: seq<Request<P, D>>, second: seq<Request<P, D>>)
    ensures Replay(tx, first + second).0 == Replay(Replay(tx, first).0, second).0
    ensures Replay(tx, first + second).1 == Replay(tx, first).1 + Replay(Replay(tx, first).0, second).1
    decreases |first|
  {
    if |first| == 0 {
      assert first + second == second;
    } else {
      assert (first + second)[0] == first[0];
      assert (first + second)[1..] == first[1..] + second;
      var (next, reply) := Handle(tx, first[0]);
      ReplayAppend(next, first[1..], second);
    }
  }
}
