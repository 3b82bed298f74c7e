/** Properties of a whole execution (all four phases): what the resulting
    template contains, the identity of default operators, and the failures
    the data-creation rules demand. */
module RunProperties {
  import opened Results
  import opened TransactionOperator
  import opened TransactionErrors
  import opened Execution
  import opened ExecutionProperties

  /** Position `p` of the post-creation template `w` ends at `q` with data
      `d`: the data chain turns `w[p]` into `d`, and the position chain, given
      that transformed `d`, turns `p` into `q`. */
  ghost predicate EndsAt<P, D>(ops: seq<Operator<P, D>>, w: map<P, D>, p: P, q: P, d: D) {
    p in w && ChainData(ops, w[p]) == Returned(Some(d)) && ChainPos(ops, p, d) == Returned(Some(q))
  }

  /** A successful execution yields exactly the positions that survive both
      transformations, each mapped to its final data, and the template it
      transforms holds every created position. */
  lemma RunPhasesResult<P, D>(ops: seq<Operator<P, D>>, t: map<P, D>)
    requires RunPhases(ops, t).Success?
    ensures CreatePositions(ops).Success?
    ensures CreateDataForPositions(CreatePositions(ops).value, t).Success?
    ensures
      var w := CreateDataForPositions(CreatePositions(ops).value, t).value;
      var r := RunPhases(ops, t).value;
      && w.Keys == t.Keys + CreatedPositions(CreatePositions(ops).value)
      && (forall q :: q in r ==> exists p, d :: EndsAt(ops, w, p, q, d) && r[q] == d)
      && (forall p, q, d :: EndsAt(ops, w, p, q, d) ==> q in r && r[q] == d)
  {
    var created := CreatePositions(ops).value;
    var w := CreateDataForPositions(created, t).value;
    var x := TransformAllData(ops, w).value;
    var r := RunPhases(ops, t).value;
    assert RunPhases(ops, t) == TransformAllPositions(ops, x);
    forall q | q in r
      ensures exists p, d :: EndsAt(ops, w, p, q, d) && r[q] == d
    {
      var p :| p in x && ChainPos(ops, p, x[p]) == Returned(Some(q));
      assert EndsAt(ops, w, p, q, x[p]);
    }
    forall p, q, d | EndsAt(ops, w, p, q, d)
      ensures q in r && r[q] == d
    {
      assert p in x && x[p] == d;
    }
  }

  /** Every position any `createPos` returned is in the template once both
      creation phases have finished. */
  lemma CreatedPositionsPresent<P, D>(ops: seq<Operator<P, D>>, t: map<P, D>)
    requires CreatePositions(ops).Success?
    requires CreateDataForPositions(CreatePositions(ops).value, t).Success?
    ensures forall i, k :: 0 <= i < |ops| && 0 <= k < |ops[i].createPos.produced| ==>
      ops[i].createPos.produced[k] in CreateDataForPositions(CreatePositions(ops).value, t).value
  {
    var created := CreatePositions(ops).value;
    ProducedAreScheduled(ops);
    forall i, k | 0 <= i < |ops| && 0 <= k < |ops[i].createPos.produced|
      ensures ops[i].createPos.produced[k] in CreatedPositions(created)
    {
      var j :| 0 <= j < |created| && created[j] == Creation(ops[i], ops[i].createPos.produced[k]);
      assert created[j].pos == ops[i].createPos.produced[k];
    }
  }

  // ---------------------------------------------------------------------
  // Default operators
  // ---------------------------------------------------------------------

  /** A chain of operators that keep data is the identity on data. */
  lemma {:induction false} KeptDataChain<P, D(!new)>(ops: seq<Operator<P, D>>, d: D)
    requires forall i :: 0 <= i < |ops| ==> KeepsData(ops[i])
    ensures ChainData(ops, d) == Returned(Some(d))
    decreases |ops|
  {
    if |ops| > 0 {
      assert KeepsData(ops[0]);
      assert forall i :: 0 <= i < |ops[1..]| ==> ops[1..][i] == ops[i + 1];
      KeptDataChain(ops[1..], d);
    }
  }

  /** A chain of operators that keep positions is the identity on positions. */
  lemma {:induction false} KeptPosChain<P(!new), D(!new)>(ops: seq<Operator<P, D>>, p: P, d: D)
    requires forall i :: 0 <= i < |ops| ==> KeepsPositions(ops[i])
    ensures ChainPos(ops, p, d) == Returned(Some(p))
    decreases |ops|
  {
    if |ops| > 0 {
      assert KeepsPositions(ops[0]);
      assert forall i :: 0 <= i < |ops[1..]| ==> ops[1..][i] == ops[i + 1];
      KeptPosChain(ops[1..], p, d);
    }
  }

  /** Operators whose `createPos` returns `null` at once create nothing. */
  lemma {:induction false} NothingCreated<P, D>(ops: seq<Operator<P, D>>)
    requires forall i :: 0 <= i < |ops| ==> CreatesNothing(ops[i])
    ensures CreatePositions(ops) == Success([])
    decreases |ops|
  {
    if |ops| > 0 {
      CreatePositionsStep(ops);
      assert forall i :: 0 <= i < |ops[1..]| ==> ops[1..][i] == ops[i + 1];
      NothingCreated(ops[1..]);
    }
  }

  /** Phase 3 with operators that keep data returns its input. */
  lemma KeptDataTransform<P, D(!new)>(ops: seq<Operator<P, D>>, w: map<P, D>)
    requires forall i :: 0 <= i < |ops| ==> KeepsData(ops[i])
    ensures TransformAllData(ops, w) == Success(w)
  {
    forall p | p in w
      ensures ChainData(ops, w[p]) == Returned(Some(w[p]))
    {
      KeptDataChain(ops, w[p]);
    }
    assert TransformAllData(ops, w).value == w;
  }

  /** Phase 4 with operators that keep positions returns its input. */
  lemma KeptPosTransform<P(!new), D(!new)>(ops: seq<Operator<P, D>>, w: map<P, D>)
    requires forall i :: 0 <= i < |ops| ==> KeepsPositions(ops[i])
    ensures TransformAllPositions(ops, w) == Success(w)
  {
    forall p | p in w
      ensures ChainPos(ops, p, w[p]) == Returned(Some(p))
    {
      KeptPosChain(ops, p, w[p]);
    }
    assert !Colliding(ops, w);
    assert TransformAllPositions(ops, w).value == w;
  }

  /** Operators that keep every observable default leave every template
      unchanged: same positions, same data, nothing added. */
  lemma DefaultsLeaveTemplateUnchanged<P(!new), D(!new)>(ops: seq<Operator<P, D>>, t: map<P, D>)
    requires forall i :: 0 <= i < |ops| ==> BehavesAsDefault(ops[i])
    ensures RunPhases(ops, t) == Success(t)
  {
    NothingCreated(ops);
    assert CreateDataForPositions([], t) == Success(t);
    KeptDataTransform(ops, t);
    KeptPosTransform(ops, t);
  }

  /** The default operator, registered any number of times, changes nothing. */
  lemma DefaultOperatorIsIdentity<P(!new), D(!new)>(n: nat, t: map<P, D>)
    ensures RunPhases(seq(n, i => DefaultOperator<P, D>()), t) == Success(t)
  {
    DefaultOperatorContract<P, D>();
    DefaultsLeaveTemplateUnchanged(seq(n, i => DefaultOperator<P, D>()), t);
  }

  // ---------------------------------------------------------------------
  // Data creation failures
  // ---------------------------------------------------------------------

  /** An operator that returns a position but keeps the default
      `createDataForPos` (which throws) makes the execution fail with
      `OperatorExecutionFailed`. */
  lemma DefaultCreateDataFails<P, D>(ops: seq<Operator<P, D>>, t: map<P, D>, i: nat)
    requires i < |ops| && |ops[i].createPos.produced| > 0
    requires forall p :: ops[i].createDataForPos(p) == Threw
    ensures RunPhases(ops, t).Failure?
    ensures RunPhases(ops, t).error.OperatorExecutionFailed?
  {
    if CreatePositions(ops).Success? {
      var created := CreatePositions(ops).value;
      ProducedAreScheduled(ops);
      var c := Creation(ops[i], ops[i].createPos.produced[0]);
      assert c in created;
      var k :| 0 <= k < |created| && created[k] == c;
      ThrowingCreationFails(created, t, k);
    }
  }

  /** A position that some operator creates, that has no backing data, and
      for which no operator returning it produces data, fails the execution
      with `OperatorExecutionFailed`: it is never silently dropped. */
  lemma NullForNewPositionFails<P, D>(ops: seq<Operator<P, D>>, t: map<P, D>, i: nat, k: nat)
    requires i < |ops| && k < |ops[i].createPos.produced|
    requires ops[i].createPos.produced[k] !in t
    requires forall j :: 0 <= j < |ops| && ops[i].createPos.produced[k] in ops[j].createPos.produced ==>
      !ops[j].createDataForPos(ops[i].createPos.produced[k]).IsValue()
    ensures RunPhases(ops, t).Failure?
    ensures RunPhases(ops, t).error.OperatorExecutionFailed?
  {
    var p := ops[i].createPos.produced[k];
    if CreatePositions(ops).Success? {
      var created := CreatePositions(ops).value;
      ProducedAreScheduled(ops);
      CreationsAreProduced(ops);
      var m :| 0 <= m < |created| && created[m] == Creation(ops[i], p);
      forall j | 0 <= j < m && created[j].pos == p
        ensures !created[j].owner.createDataForPos(p).IsValue()
      {
        assert ProducedBy(ops, created[j]);
      }
      assert !HasDataBefore(created, t, m, p);
      assert !AcceptableAnswers(created, t);
      CreateDataSucceedsIff(created, t);
    }
  }

  /** The single-operator case names the cause: the execution fails with
      `MissingData` for exactly that position. */
  lemma NullForNewPositionNamesIt<P, D>(op: Operator<P, D>, t: map<P, D>, p: P)
    requires op.createPos.produced == [p] && !op.createPos.throwsAtEnd
    requires op.createDataForPos(p) == Returned(None)
    requires p !in t
    ensures RunPhases([op], t) == Failure(OperatorExecutionFailed(MissingData(p)))
  {
  }

  /** Phase 2 replaces the data of a created position with what its last
      creation that returned data produced, and changes no position that was
      not created. */
  lemma CreatedDataReplaces<P, D>(created: seq<Creation<P, D>>, w: map<P, D>)
    requires CreateDataForPositions(created, w).Success?
    ensures forall p :: p in w && p !in CreatedPositions(created) ==>
      p in CreateDataForPositions(created, w).value && CreateDataForPositions(created, w).value[p] == w[p]
    ensures forall k :: 0 <= k < |created| && LastWithData(created, k) ==>
      && created[k].pos in CreateDataForPositions(created, w).value
      && CreateDataForPositions(created, w).value[created[k].pos] == created[k].owner.createDataForPos(created[k].pos).result.value
  {
    forall p | p in w && p !in CreatedPositions(created)
      ensures LastProduced(created, p) == None
    {
      LastProducedNone(created, p);
    }
    forall k | 0 <= k < |created| && LastWithData(created, k)
      ensures LastProduced(created, created[k].pos) == created[k].owner.createDataForPos(created[k].pos).result
    {
      LastProducedIsLast(created, k);
    }
  }

  /** Phase 2 succeeds when no call throws and every `null` is for a position
      the backing template already holds; such a position whose every
      creation answered `null` keeps its data. */
  lemma {:induction false} NullKeepsExistingData<P, D>(created: seq<Creation<P, D>>, w: map<P, D>)
    requires forall k :: 0 <= k < |created| ==>
      && !created[k].owner.createDataForPos(created[k].pos).Threw?
      && (created[k].owner.createDataForPos(created[k].pos) == Returned(None) ==> created[k].pos in w)
    ensures CreateDataForPositions(created, w).Success?
    ensures forall p :: p in w && (forall k :: 0 <= k < |created| && created[k].pos == p ==>
        created[k].owner.createDataForPos(p) == Returned(None)) ==>
      p in CreateDataForPositions(created, w).value && CreateDataForPositions(created, w).value[p] == w[p]
  {
    CreateDataSucceedsIff(created, w);
    forall p | p in w && (forall k :: 0 <= k < |created| && created[k].pos == p ==>
        created[k].owner.createDataForPos(p) == Returned(None))
      ensures LastProduced(created, p) == None
    {
      LastProducedNone(created, p);
    }
  }
}
