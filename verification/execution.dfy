/** The four phases of `execute` over a template `map<P, D>`, as pure
    functions of the registered operators (in registration order):
      1. drain every operator's `createPos`;
      2. ask the owning operator's `createDataForPos` for each created position;
      3. run the chain of `transformData` once per distinct data value;
      4. run the chain of `transformPos` once per remaining position.
    Operators are composed: in phases 3 and 4 each operator receives the
    previous operator's answer, and a `null` or an exception ends the chain. */
module Execution {
  import opened Results
  import opened TransactionOperator
  import opened TransactionErrors

  /** A position returned by `createPos`, together with the operator that
      returned it; that operator's `createDataForPos` supplies its data. */
  datatype Creation<!P, !D> = Creation(owner: Operator<P, D>, pos: P)

  // ---------------------------------------------------------------------
  // Phase 1: position creation
  // ---------------------------------------------------------------------

  /** The creations of one operator: the positions its `createPos` returns, in order. */
  function Tag<P, D>(op: Operator<P, D>): seq<Creation<P, D>> {
    seq(|op.createPos.produced|, k requires 0 <= k < |op.createPos.produced| =>
      Creation(op, op.createPos.produced[k]))
  }

  /** Phase 1: calls every operator's `createPos` until it returns `null`, in
      registration order. An exception from any call fails the execution. */
  function CreatePositions<P, D>(ops: seq<Operator<P, D>>): (r: Result<seq<Creation<P, D>>, TransactionError<P>>)
    ensures r.Success? <==> forall i :: 0 <= i < |ops| ==> !ops[i].createPos.throwsAtEnd
    ensures r.Failure? ==> r.error == OperatorExecutionFailed(CallbackThrew)
    decreases |ops|
  {
    if |ops| == 0 then Success([])
    else if ops[0].createPos.throwsAtEnd then Failure(OperatorExecutionFailed(CallbackThrew))
    else
      var later :- CreatePositions(ops[1..]);
      assert forall i :: 1 <= i < |ops| ==> ops[i] == ops[1..][i - 1];
      Success(Tag(ops[0]) + later)
  }

  // ---------------------------------------------------------------------
  // Phase 2: data creation
  // ---------------------------------------------------------------------

  /** The positions of a list of creations. */
  function CreatedPositions<P(==), D>(created: seq<Creation<P, D>>): set<P> {
    set k | 0 <= k < |created| :: created[k].pos
  }

  /** The data the last creation of `p` that returned data produced, if any
      did: later creations of the same position win. */
  function LastProduced<P(==), D>(created: seq<Creation<P, D>>, p: P): Option<D>
    decreases |created|
  {
    if |created| == 0 then None
    else
      var later := LastProduced(created[1..], p);
      if later.Some? then later
      else if created[0].pos == p && created[0].owner.createDataForPos(p).Returned? then
        created[0].owner.createDataForPos(p).result
      else None
  }

  /** Phase 2: asks the owning operator's `createDataForPos` for each created
      position, in order, starting from the backing template `w`. Data
      overwrites the entry; `null` keeps the entry, and is an error when the
      position has no data yet; an exception is an error. */
  function CreateDataForPositions<P(==), D>(created: seq<Creation<P, D>>, w: map<P, D>): (r: Result<map<P, D>, TransactionError<P>>)
    ensures r.Success? ==> r.value.Keys == w.Keys + CreatedPositions(created)
    ensures r.Success? ==>
      forall p :: p in r.value ==>
        || LastProduced(created, p) == Some(r.value[p])
        || (LastProduced(created, p) == None && p in w && r.value[p] == w[p])
    ensures r.Failure? ==> r.error.OperatorExecutionFailed?
    ensures r.Failure? && r.error.cause.MissingData? ==>
      r.error.cause.pos !in w && r.error.cause.pos in CreatedPositions(created)
    decreases |created|
  {
    if |created| == 0 then Success(w)
    else
      var c := created[0];
      assert CreatedPositions(created) == {c.pos} + CreatedPositions(created[1..]) by {
        assert forall k :: 1 <= k < |created| ==> created[k] == created[1..][k - 1];
      }
      match c.owner.createDataForPos(c.pos)
      case Threw => Failure(OperatorExecutionFailed(CallbackThrew))
      case Returned(Some(d)) => CreateDataForPositions(created[1..], w[c.pos := d])
      case Returned(None) =>
        if c.pos in w then CreateDataForPositions(created[1..], w)
        else Failure(OperatorExecutionFailed(MissingData(c.pos)))
  }

  // ---------------------------------------------------------------------
  // Phase 3: data transformation
  // ---------------------------------------------------------------------

  /** The operators' `transformData`, composed in registration order and
      applied to `d`; the chain stops at the first `null` or exception. */
  function ChainData<P, D>(ops: seq<Operator<P, D>>, d: D): Call<D>
    decreases |ops|
  {
    if |ops| == 0 then Returned(Some(d))
    else
      var answer := ops[0].transformData(d);
      if answer.IsValue() then ChainData(ops[1..], answer.result.value) else answer
  }

  /** Phase 3: transforms every distinct data value of `w` through the chain.
      A `null` removes the value and every position that references it; an
      exception fails the execution. */
  function TransformAllData<P(==), D(==)>(ops: seq<Operator<P, D>>, w: map<P, D>): (r: Result<map<P, D>, TransactionError<P>>)
    ensures r.Success? <==> forall p :: p in w ==> !ChainData(ops, w[p]).Threw?
    ensures r.Failure? ==> r.error == OperatorExecutionFailed(CallbackThrew)
    ensures r.Success? ==> forall p :: p in r.value ==> p in w && ChainData(ops, w[p]).IsValue()
    ensures r.Success? ==> forall p :: p in w && ChainData(ops, w[p]).IsValue() ==> p in r.value
    ensures r.Success? ==> forall p :: p in r.value ==> ChainData(ops, w[p]) == Returned(Some(r.value[p]))
  {
    // the chain runs once for each distinct data value
    var outcome := map d | d in w.Values :: ChainData(ops, d);
    if exists d :: d in outcome && outcome[d].Threw? then
      Failure(OperatorExecutionFailed(CallbackThrew))
    else
      Success(map p | p in w && outcome[w[p]].IsValue() :: outcome[w[p]].result.value)
  }

  // ---------------------------------------------------------------------
  // Phase 4: position transformation
  // ---------------------------------------------------------------------

  /** The operators' `transformPos`, composed in registration order and
      applied to `p`; every operator sees the same (already transformed)
      data `d`. The chain stops at the first `null` or exception. */
  function ChainPos<P, D>(ops: seq<Operator<P, D>>, p: P, d: D): Call<P>
    decreases |ops|
  {
    if |ops| == 0 then Returned(Some(p))
    else
      var answer := ops[0].transformPos(p, d);
      if answer.IsValue() then ChainPos(ops[1..], answer.result.value, d) else answer
  }

  /** Some position's chain of `transformPos` throws. */
  ghost predicate PosChainThrows<P, D>(ops: seq<Operator<P, D>>, w: map<P, D>) {
    exists p :: p in w && ChainPos(ops, p, w[p]).Threw?
  }

  /** Two surviving positions are moved onto the same target but carry
      different data, so the resulting template is not determined. */
  ghost predicate Colliding<P, D>(ops: seq<Operator<P, D>>, w: map<P, D>) {
    exists p, q ::
      && p in w && q in w
      && ChainPos(ops, p, w[p]).IsValue() && ChainPos(ops, q, w[q]).IsValue()
      && ChainPos(ops, p, w[p]).result.value == ChainPos(ops, q, w[q]).result.value
      && w[p] != w[q]
  }

  /** Where the chain of `transformPos` sends each position of `w`. */
  function Moves<P(==), D>(ops: seq<Operator<P, D>>, w: map<P, D>): map<P, Call<P>> {
    map p | p in w :: ChainPos(ops, p, w[p])
  }

  /** Phase 4: moves every position of `w` through the chain, keeping its
      data. A `null` removes the position; an exception fails the execution. */
  function TransformAllPositions<P(==), D(==)>(ops: seq<Operator<P, D>>, w: map<P, D>): (r: Result<map<P, D>, TransactionError<P>>)
    ensures r.Failure? <==> PosChainThrows(ops, w) || Colliding(ops, w)
    ensures PosChainThrows(ops, w) ==> r == Failure(OperatorExecutionFailed(CallbackThrew))
    ensures !PosChainThrows(ops, w) && Colliding(ops, w) ==> r == Failure(ExecutionFailed)
    ensures r.Success? ==>
      forall q :: q in r.value ==> exists p :: p in w && ChainPos(ops, p, w[p]) == Returned(Some(q))
    ensures r.Success? ==>
      forall p :: p in w && ChainPos(ops, p, w[p]).IsValue() ==>
        var q := ChainPos(ops, p, w[p]).result.value;
        q in r.value && r.value[q] == w[p]
  {
    var moved := Moves(ops, w);
    assert moved.Keys == w.Keys && forall p :: p in moved ==> moved[p] == ChainPos(ops, p, w[p]);
    if exists p :: p in moved && moved[p].Threw? then
      Failure(OperatorExecutionFailed(CallbackThrew))
    else
      assert !PosChainThrows(ops, w);
      var survivors := set p | p in moved && moved[p].IsValue();
      if exists p, q :: p in survivors && q in survivors && moved[p].result.value == moved[q].result.value && w[p] != w[q] then
        Failure(ExecutionFailed)
      else
        assert !Colliding(ops, w);
        Success(map p | p in survivors :: moved[p].result.value := w[p])
  }

  // ---------------------------------------------------------------------
  // The four phases together
  // ---------------------------------------------------------------------

  /** The work of `execute` on an open transaction: the four phases, in
      order, over the backing template `t`; the first failure aborts the whole
      execution and no partial template is returned. */
  function RunPhases<P(==), D(==)>(ops: seq<Operator<P, D>>, t: map<P, D>): (r: Result<map<P, D>, TransactionError<P>>)
    ensures r.Failure? ==> r.error.OperatorExecutionFailed? || r.error == ExecutionFailed
  {
    var created :- CreatePositions(ops);
    var built :- CreateDataForPositions(created, t);
    var transformed :- TransformAllData(ops, built);
    TransformAllPositions(ops, transformed)
  }
}
