/** Characteristics as an optimisation: an engine that runs each phase only
    with the operators that declare the matching characteristic computes the
    same result as the reference execution, provided every operator keeps
    the defaults of the callbacks it does not declare. */
module CharacteristicSkipping {
  import opened Results
  import opened TransactionOperator
  import opened TransactionErrors
  import opened Execution
  import opened ExecutionProperties

  /** The operators that declare `c`, in registration order. */
  function Declaring<P, D>(ops: seq<Operator<P, D>>, c: Characteristic): (r: seq<Operator<P, D>>)
    ensures |r| <= |ops|
    ensures forall i :: 0 <= i < |r| ==> c in r[i].characteristics && r[i] in ops
    ensures forall i :: 0 <= i < |ops| && c in ops[i].characteristics ==> ops[i] in r
    decreases |ops|
  {
    if |ops| == 0 then []
    else
      var rest := Declaring(ops[1..], c);
      assert forall i :: 1 <= i < |ops| ==> ops[i] == ops[1..][i - 1];
      if c in ops[0].characteristics then [ops[0]] + rest else rest
  }

  /** Selecting keeps each operator that declares `c` as many times as it
      was registered (duplicates included) and drops every other one. */
  lemma {:induction false} DeclaringCount<P, D>(ops: seq<Operator<P, D>>, c: Characteristic, x: Operator<P, D>)
    ensures multiset(Declaring(ops, c))[x] == if c in x.characteristics then multiset(ops)[x] else 0
    decreases |ops|
  {
    if |ops| > 0 {
      var rest := ops[1..];
      assert ops == [ops[0]] + rest;
      assert multiset(ops) == multiset{ops[0]} + multiset(rest);
      DeclaringCount(rest, c, x);
      if c in ops[0].characteristics {
        assert multiset(Declaring(ops, c)) == multiset{ops[0]} + multiset(Declaring(rest, c));
      }
    }
  }

  /** When every operator declares `c`, the selection is the whole list, in
      order. */
  lemma {:induction false} DeclaringAll<P, D>(ops: seq<Operator<P, D>>, c: Characteristic)
    requires forall i :: 0 <= i < |ops| ==> c in ops[i].characteristics
    ensures Declaring(ops, c) == ops
    decreases |ops|
  {
    if |ops| > 0 {
      assert forall i :: 0 <= i < |ops[1..]| ==> ops[1..][i] == ops[i + 1];
      DeclaringAll(ops[1..], c);
      assert ops == [ops[0]] + ops[1..];
    }
  }

  /** The execution of an engine that calls `createPos` only on operators
      declaring `CreateData`, `transformData` only on those declaring
      `TransformData`, and `transformPos` only on those declaring
      `TransformPosition`. */
  function RunPhasesSkipping<P(==), D(==)>(ops: seq<Operator<P, D>>, t: map<P, D>): (r: Result<map<P, D>, TransactionError<P>>)
    ensures r.Failure? ==> r.error.OperatorExecutionFailed? || r.error == ExecutionFailed
  {
    var created :- CreatePositions(Declaring(ops, CreateData));
    var built :- CreateDataForPositions(created, t);
    var transformed :- TransformAllData(Declaring(ops, TransformData), built);
    TransformAllPositions(Declaring(ops, TransformPosition), transformed)
  }

  /** Skipping operators that create nothing leaves phase 1 unchanged. */
  lemma {:induction false} SkippingCreatePositions<P, D>(ops: seq<Operator<P, D>>)
    requires forall i :: 0 <= i < |ops| && CreateData !in ops[i].characteristics ==> CreatesNothing(ops[i])
    ensures CreatePositions(Declaring(ops, CreateData)) == CreatePositions(ops)
    decreases |ops|
  {
    if |ops| > 0 {
      var rest := ops[1..];
      assert ops == [ops[0]] + rest;
      assert forall i :: 0 <= i < |rest| ==> rest[i] == ops[i + 1];
      SkippingCreatePositions(rest);
      var skipped := Declaring(rest, CreateData);
      if ops[0].createPos.throwsAtEnd {
        assert CreateData in ops[0].characteristics;
        assert Declaring(ops, CreateData)[0] == ops[0];
      } else if CreatePositions(rest).Failure? {
        if CreateData in ops[0].characteristics {
          assert ([ops[0]] + skipped)[1..] == skipped;
        }
      } else {
        CreatePositionsCons(ops[0], rest);
        if CreateData in ops[0].characteristics {
          CreatePositionsCons(ops[0], skipped);
        } else {
          assert Tag(ops[0]) == [];
          assert Tag(ops[0]) + CreatePositions(rest).value == CreatePositions(rest).value;
        }
      }
    }
  }

  /** Skipping operators that keep data leaves every data chain unchanged. */
  lemma {:induction false} SkippingChainData<P, D(!new)>(ops: seq<Operator<P, D>>, d: D)
    requires forall i :: 0 <= i < |ops| && TransformData !in ops[i].characteristics ==> KeepsData(ops[i])
    ensures ChainData(Declaring(ops, TransformData), d) == ChainData(ops, d)
    decreases |ops|
  {
    if |ops| > 0 {
      var rest := ops[1..];
      assert forall i :: 0 <= i < |rest| ==> rest[i] == ops[i + 1];
      var skipped := Declaring(rest, TransformData);
      if TransformData in ops[0].characteristics {
        assert ([ops[0]] + skipped)[1..] == skipped;
        var answer := ops[0].transformData(d);
        if answer.IsValue() {
          SkippingChainData(rest, answer.result.value);
        }
      } else {
        assert KeepsData(ops[0]);
        SkippingChainData(rest, d);
      }
    }
  }

  /** Skipping operators that keep positions leaves every position chain
      unchanged. */
  lemma {:induction false} SkippingChainPos<P(!new), D(!new)>(ops: seq<Operator<P, D>>, p: P, d: D)
    requires forall i :: 0 <= i < |ops| && TransformPosition !in ops[i].characteristics ==> KeepsPositions(ops[i])
    ensures ChainPos(Declaring(ops, TransformPosition), p, d) == ChainPos(ops, p, d)
    decreases |ops|
  {
    if |ops| > 0 {
      var rest := ops[1..];
      assert forall i :: 0 <= i < |rest| ==> rest[i] == ops[i + 1];
      var skipped := Declaring(rest, TransformPosition);
      if TransformPosition in ops[0].characteristics {
        assert ([ops[0]] + skipped)[1..] == skipped;
        var answer := ops[0].transformPos(p, d);
        if answer.IsValue() {
          SkippingChainPos(rest, answer.result.value, d);
        }
      } else {
        assert KeepsPositions(ops[0]);
        SkippingChainPos(rest, p, d);
      }
    }
  }

  /** Phase 3 depends on the operators only through their data chains. */
  lemma TransformAllDataCongruent<P, D>(a: seq<Operator<P, D>>, b: seq<Operator<P, D>>, w: map<P, D>)
    requires forall p :: p in w ==> ChainData(a, w[p]) == ChainData(b, w[p])
    ensures TransformAllData(a, w) == TransformAllData(b, w)
  {
    var ra := TransformAllData(a, w);
    var rb := TransformAllData(b, w);
    assert ra.Success? <==> rb.Success? by {
      assert (forall p :: p in w ==> !ChainData(a, w[p]).Threw?) <==>
        (forall p :: p in w ==> !ChainData(b, w[p]).Threw?);
    }
    if ra.Success? {
      forall p | p in ra.value
        ensures p in rb.value && rb.value[p] == ra.value[p]
      {
        assert ChainData(b, w[p]).IsValue();
      }
      forall p | p in rb.value
        ensures p in ra.value
      {
        assert ChainData(a, w[p]).IsValue();
      }
      assert ra.value == rb.value;
    }
  }

  /** Phase 4 depends on the operators only through their position chains. */
  lemma TransformAllPositionsCongruent<P, D>(a: seq<Operator<P, D>>, b: seq<Operator<P, D>>, w: map<P, D>)
    requires forall p :: p in w ==> ChainPos(a, p, w[p]) == ChainPos(b, p, w[p])
    ensures TransformAllPositions(a, w) == TransformAllPositions(b, w)
  {
    var ra := TransformAllPositions(a, w);
    var rb := TransformAllPositions(b, w);
    assert PosChainThrows(a, w) <==> PosChainThrows(b, w);
    assert Colliding(a, w) <==> Colliding(b, w) by {
      if Colliding(a, w) {
        var p, q :| && p in w && q in w
          && ChainPos(a, p, w[p]).IsValue() && ChainPos(a, q, w[q]).IsValue()
          && ChainPos(a, p, w[p]).result.value == ChainPos(a, q, w[q]).result.value
          && w[p] != w[q];
        assert Colliding(b, w);
      }
      if Colliding(b, w) {
        var p, q :| && p in w && q in w
          && ChainPos(b, p, w[p]).IsValue() && ChainPos(b, q, w[q]).IsValue()
          && ChainPos(b, p, w[p]).result.value == ChainPos(b, q, w[q]).result.value
          && w[p] != w[q];
        assert Colliding(a, w);
      }
    }
    if ra.Success? {
      forall q | q in ra.value
        ensures q in rb.value && rb.value[q] == ra.value[q]
      {
        var p :| p in w && ChainPos(a, p, w[p]) == Returned(Some(q));
        assert ChainPos(a, p, w[p]).IsValue();
      }
      forall q | q in rb.value
        ensures q in ra.value
      {
        var p :| p in w && ChainPos(b, p, w[p]) == Returned(Some(q));
        assert ChainPos(a, p, w[p]).IsValue();
      }
      assert ra.value == rb.value;
    }
  }

  /** The skipping engine agrees with the reference execution on every
      template, whenever every operator respects its declared
      characteristics: same result, same failure. */
  lemma SkippingAgrees<P(!new), D(!new)>(ops: seq<Operator<P, D>>, t: map<P, D>)
    requires forall i :: 0 <= i < |ops| ==> RespectsCharacteristics(ops[i])
    ensures RunPhasesSkipping(ops, t) == RunPhases(ops, t)
  {
    SkippingCreatePositions(ops);
    var created := CreatePositions(ops);
    if created.Success? {
      var built := CreateDataForPositions(created.value, t);
      if built.Success? {
        var w := built.value;
        forall p | p in w
          ensures ChainData(Declaring(ops, TransformData), w[p]) == ChainData(ops, w[p])
        {
          SkippingChainData(ops, w[p]);
        }
        TransformAllDataCongruent(Declaring(ops, TransformData), ops, w);
        var transformed := TransformAllData(ops, w);
        if transformed.Success? {
          var x := transformed.value;
          forall p | p in x
            ensures ChainPos(Declaring(ops, TransformPosition), p, x[p]) == ChainPos(ops, p, x[p])
          {
            SkippingChainPos(ops, p, x[p]);
          }
          TransformAllPositionsCongruent(Declaring(ops, TransformPosition), ops, x);
        }
      }
    }
  }
}
