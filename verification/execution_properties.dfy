/** Properties of the four execution phases: registration order is
    composition order, creation is last-write-wins and never drops a
    position and fails exactly on an unacceptable answer, and `null` from a
    transform removes exactly what it should. */
module ExecutionProperties {
  import opened Results
  import opened TransactionOperator
  import opened TransactionErrors
  import opened Execution

  // ---------------------------------------------------------------------
  // Registration order
  // ---------------------------------------------------------------------

  /** `c` is a position returned by the `createPos` of one of `ops`, owned by that operator. */
  ghost predicate ProducedBy<P, D>(ops: seq<Operator<P, D>>, c: Creation<P, D>) {
    exists i :: 0 <= i < |ops| && c.owner == ops[i] && c.pos in ops[i].createPos.produced
  }

  /** Every creation of phase 1 is a position its owner returned, and the
      owner is one of the registered operators. */
  lemma {:induction false} CreationsAreProduced<P, D>(ops: seq<Operator<P, D>>)
    requires CreatePositions(ops).Success?
    ensures forall k :: 0 <= k < |CreatePositions(ops).value| ==> ProducedBy(ops, CreatePositions(ops).value[k])
    decreases |ops|
  {
    if |ops| > 0 {
      CreatePositionsStep(ops);
      CreationsAreProduced(ops[1..]);
      var tagged := Tag(ops[0]);
      var later := CreatePositions(ops[1..]).value;
      forall k | 0 <= k < |tagged + later|
        ensures ProducedBy(ops, (tagged + later)[k])
      {
        if k < |tagged| {
          assert (tagged + later)[k] == tagged[k];
          assert tagged[k].owner == ops[0];
        } else {
          var c := later[k - |tagged|];
          assert (tagged + later)[k] == c;
          assert ProducedBy(ops[1..], c);
          var i :| 0 <= i < |ops[1..]| && c.owner == ops[1..][i] && c.pos in ops[1..][i].createPos.produced;
          assert ops[1..][i] == ops[i + 1];
        }
      }
    }
  }

  /** Every position returned by every operator's `createPos` is scheduled
      in phase 1, with that operator as owner. */
  lemma {:induction false} ProducedAreScheduled<P, D>(ops: seq<Operator<P, D>>)
    requires CreatePositions(ops).Success?
    ensures forall i, k :: 0 <= i < |ops| && 0 <= k < |ops[i].createPos.produced| ==>
      Creation(ops[i], ops[i].createPos.produced[k]) in CreatePositions(ops).value
    decreases |ops|
  {
    if |ops| > 0 {
      CreatePositionsStep(ops);
      ProducedAreScheduled(ops[1..]);
      var tagged := Tag(ops[0]);
      var later := CreatePositions(ops[1..]).value;
      forall i, k | 0 <= i < |ops| && 0 <= k < |ops[i].createPos.produced|
        ensures Creation(ops[i], ops[i].createPos.produced[k]) in tagged + later
      {
        if i == 0 {
          assert tagged[k] == Creation(ops[0], ops[0].createPos.produced[k]);
        } else {
          assert ops[i] == ops[1..][i - 1];
          assert Creation(ops[i], ops[i].createPos.produced[k]) in later;
        }
      }
    }
  }

  /** Phase 1 over two lists of operators succeeds exactly when it succeeds
      over each of them. */
  lemma CreatePositionsAppendSucceeds<P, D>(first: seq<Operator<P, D>>, second: seq<Operator<P, D>>)
    ensures CreatePositions(first + second).Success? <==>
      CreatePositions(first).Success? && CreatePositions(second).Success?
  {
    var whole := first + second;
    assert forall i :: 0 <= i < |first| ==> whole[i] == first[i];
    assert forall i :: 0 <= i < |second| ==> whole[|first| + i] == second[i];
  }

  /** One step of phase 1: the first operator's positions, then the rest. */
  lemma CreatePositionsStep<P, D>(ops: seq<Operator<P, D>>)
    requires |ops| > 0 && CreatePositions(ops).Success?
    ensures CreatePositions(ops[1..]).Success?
    ensures CreatePositions(ops).value == Tag(ops[0]) + CreatePositions(ops[1..]).value
  {
  }

  /** Phase 1 over `[op] + rest`: the positions of `op`, then those of `rest`. */
  lemma CreatePositionsCons<P, D>(op: Operator<P, D>, rest: seq<Operator<P, D>>)
    requires !op.createPos.throwsAtEnd && CreatePositions(rest).Success?
    ensures CreatePositions([op] + rest).Success?
    ensures CreatePositions([op] + rest).value == Tag(op) + CreatePositions(rest).value
  {
  }

  /** Concatenation is associative. */
  lemma ConcatAssociative<T>(a: seq<T>, b: seq<T>, c: seq<T>)
    ensures (a + b) + c == a + (b + c)
  {
  }

  /** Splitting off the first operator of a registration list. */
  lemma SplitFirst<T>(first: seq<T>, second: seq<T>)
    requires |first| > 0
    ensures first == [first[0]] + first[1..]
    ensures first + second == [first[0]] + (first[1..] + second)
  {
  }

  /** Phase 1 creates the positions of earlier-registered operators first. */
  lemma {:induction false} CreatePositionsAppend<P, D>(first: seq<Operator<P, D>>, second: seq<Operator<P, D>>)
    requires CreatePositions(first).Success? && CreatePositions(second).Success?
    ensures CreatePositions(first + second).Success?
    ensures CreatePositions(first + second).value == CreatePositions(first).value + CreatePositions(second).value
    decreases |first|
  {
    if |first| == 0 {
      assert first + second == second;
    } else {
      SplitFirst(first, second);
      CreatePositionsStep(first);
      CreatePositionsAppend(first[1..], second);
      CreatePositionsCons(first[0], first[1..] + second);
      ConcatAssociative(Tag(first[0]), CreatePositions(first[1..]).value, CreatePositions(second).value);
    }
  }

  /** The outcome of continuing a data chain with more operators. */
  function ThenData<P, D>(c: Call<D>, ops: seq<Operator<P, D>>): Call<D> {
    if c.IsValue() then ChainData(ops, c.result.value) else c
  }

  /** Data transformation composes: operators registered later see the
      answer of those registered earlier, and a `null` or exception ends it. */
  lemma {:induction false} ChainDataAppend<P, D>(first: seq<Operator<P, D>>, second: seq<Operator<P, D>>, d: D)
    ensures ChainData(first + second, d) == ThenData(ChainData(first, d), second)
    decreases |first|
  {
    if |first| == 0 {
      assert first + second == second;
    } else {
      assert (first + second)[0] == first[0];
      assert (first + second)[1..] == first[1..] + second;
      var answer := first[0].transformData(d);
      if answer.IsValue() {
        ChainDataAppend(first[1..], second, answer.result.value);
      }
    }
  }

  /** The outcome of continuing a position chain with more operators. */
  function ThenPos<P, D>(c: Call<P>, ops: seq<Operator<P, D>>, d: D): Call<P> {
    if c.IsValue() then ChainPos(ops, c.result.value, d) else c
  }

  /** Position transformation composes in registration order, every operator
      seeing the same data. */
  lemma {:induction false} ChainPosAppend<P, D>(first: seq<Operator<P, D>>, second: seq<Operator<P, D>>, p: P, d: D)
    ensures ChainPos(first + second, p, d) == ThenPos(ChainPos(first, p, d), second, d)
    decreases |first|
  {
    if |first| == 0 {
      assert first + second == second;
    } else {
      assert (first + second)[0] == first[0];
      assert (first + second)[1..] == first[1..] + second;
      var answer := first[0].transformPos(p, d);
      if answer.IsValue() {
        ChainPosAppend(first[1..], second, answer.result.value, d);
      }
    }
  }

  // ---------------------------------------------------------------------
  // Data creation
  // ---------------------------------------------------------------------

  /** An exception from any `createDataForPos` call fails phase 2. */
  lemma {:induction false} ThrowingCreationFails<P, D>(created: seq<Creation<P, D>>, w: map<P, D>, k: nat)
    requires k < |created|
    requires created[k].owner.createDataForPos(created[k].pos).Threw?
    ensures CreateDataForPositions(created, w).Failure?
    ensures CreateDataForPositions(created, w).error.OperatorExecutionFailed?
    decreases k
  {
    if k > 0 {
      var c := created[0];
      assert created[1..][k - 1] == created[k];
      match c.owner.createDataForPos(c.pos)
      case Threw =>
      case Returned(Some(d)) => ThrowingCreationFails(created[1..], w[c.pos := d], k - 1);
      case Returned(None) =>
        if c.pos in w {
          ThrowingCreationFails(created[1..], w, k - 1);
        }
    }
  }

  /** A `null` from `createDataForPos` for a position that has no data (it is
      not in the backing template and was not created earlier) fails phase 2
      instead of dropping the position. */
  lemma {:induction false} UnbackedNullFails<P, D>(created: seq<Creation<P, D>>, w: map<P, D>, k: nat)
    requires k < |created|
    requires created[k].owner.createDataForPos(created[k].pos) == Returned(None)
    requires created[k].pos !in w
    requires forall j :: 0 <= j < k ==> created[j].pos != created[k].pos
    ensures CreateDataForPositions(created, w).Failure?
    ensures CreateDataForPositions(created, w).error.OperatorExecutionFailed?
    decreases k
  {
    if k > 0 {
      var c := created[0];
      assert created[1..][k - 1] == created[k];
      assert forall j :: 0 <= j < k - 1 ==> created[1..][j] == created[j + 1];
      match c.owner.createDataForPos(c.pos)
      case Threw =>
      case Returned(Some(d)) => UnbackedNullFails(created[1..], w[c.pos := d], k - 1);
      case Returned(None) =>
        if c.pos in w {
          UnbackedNullFails(created[1..], w, k - 1);
        }
    }
  }

  /** When the `k`-th creation of phase 2 is asked for data, position `p`
      already has some: it is in the backing template, or an earlier creation
      of `p` returned data. */
  ghost predicate HasDataBefore<P, D>(created: seq<Creation<P, D>>, w: map<P, D>, k: nat, p: P) {
    || p in w
    || exists j :: 0 <= j < k && j < |created| && created[j].pos == p && created[j].owner.createDataForPos(p).IsValue()
  }

  /** Every answer of phase 2 is acceptable: no call throws, and every `null`
      is for a position that already has data. */
  ghost predicate AcceptableAnswers<P, D>(created: seq<Creation<P, D>>, w: map<P, D>) {
    forall k :: 0 <= k < |created| ==>
      && !created[k].owner.createDataForPos(created[k].pos).Threw?
      && (created[k].owner.createDataForPos(created[k].pos) == Returned(None) ==> HasDataBefore(created, w, k, created[k].pos))
  }

  /** After the first creation has been applied to the template, "has data"
      for the later creations means the same thing. */
  lemma HasDataShift<P, D>(created: seq<Creation<P, D>>, w: map<P, D>, w': map<P, D>, k: nat, p: P)
    requires 1 <= k <= |created|
    requires var a := created[0].owner.createDataForPos(created[0].pos);
      && (a.IsValue() ==> w' == w[created[0].pos := a.result.value])
      && (!a.IsValue() ==> w' == w)
    ensures HasDataBefore(created, w, k, p) <==> HasDataBefore(created[1..], w', k - 1, p)
  {
  }

  /** The answers of phase 2 are acceptable exactly when the first one is and
      the later ones are, over the template the first one produced. */
  lemma AcceptableShift<P, D>(created: seq<Creation<P, D>>, w: map<P, D>, w': map<P, D>)
    requires 1 <= |created|
    requires var a := created[0].owner.createDataForPos(created[0].pos);
      && (a.IsValue() ==> w' == w[created[0].pos := a.result.value])
      && (!a.IsValue() ==> w' == w)
    ensures AcceptableAnswers(created, w) <==>
      && !created[0].owner.createDataForPos(created[0].pos).Threw?
      && (created[0].owner.createDataForPos(created[0].pos) == Returned(None) ==> created[0].pos in w)
      && AcceptableAnswers(created[1..], w')
  {
  }

  /** Phase 2 succeeds exactly when its answers are acceptable: no
      `createDataForPos` call throws, and `null` is returned only for
      positions that already have data. */
  lemma {:induction false} CreateDataSucceedsIff<P, D>(created: seq<Creation<P, D>>, w: map<P, D>)
    ensures CreateDataForPositions(created, w).Success? <==> AcceptableAnswers(created, w)
    decreases |created|
  {
    if |created| > 0 {
      var c := created[0];
      var a := c.owner.createDataForPos(c.pos);
      var w' := if a.IsValue() then w[c.pos := a.result.value] else w;
      AcceptableShift(created, w, w');
      CreateDataSucceedsIff(created[1..], w');
    }
  }

  /** A position no creation returned data for has no last produced data. */
  lemma {:induction false} LastProducedNone<P, D>(created: seq<Creation<P, D>>, p: P)
    requires forall k :: 0 <= k < |created| && created[k].pos == p ==> !created[k].owner.createDataForPos(p).IsValue()
    ensures LastProduced(created, p) == None
    decreases |created|
  {
    if |created| > 0 {
      assert forall k :: 0 <= k < |created| - 1 ==> created[1..][k] == created[k + 1];
      LastProducedNone(created[1..], p);
    }
  }

  /** The `k`-th creation returned data, and no later creation of the same
      position did. */
  ghost predicate LastWithData<P, D>(created: seq<Creation<P, D>>, k: nat) {
    && k < |created|
    && created[k].owner.createDataForPos(created[k].pos).IsValue()
    && forall j :: k < j < |created| && created[j].pos == created[k].pos ==>
      !created[j].owner.createDataForPos(created[j].pos).IsValue()
  }

  /** The last produced data of a position is the answer of the last creation
      of it that returned data. */
  lemma {:induction false} LastProducedIsLast<P, D>(created: seq<Creation<P, D>>, k: nat)
    requires LastWithData(created, k)
    ensures LastProduced(created, created[k].pos) == created[k].owner.createDataForPos(created[k].pos).result
    decreases k
  {
    var rest := created[1..];
    assert forall j :: 0 <= j < |rest| ==> rest[j] == created[j + 1];
    if k == 0 {
      LastProducedNone(rest, created[0].pos);
    } else {
      LastProducedIsLast(rest, k - 1);
    }
  }

  // ---------------------------------------------------------------------
  // Data transformation
  // ---------------------------------------------------------------------

  /** Phase 3 treats all positions that share a data value alike: they
      survive together and keep sharing their (transformed) value. */
  lemma SharedDataStaysShared<P, D>(ops: seq<Operator<P, D>>, w: map<P, D>, p: P, q: P)
    requires TransformAllData(ops, w).Success?
    requires p in w && q in w && w[p] == w[q]
    ensures p in TransformAllData(ops, w).value <==> q in TransformAllData(ops, w).value
    ensures p in TransformAllData(ops, w).value ==>
      TransformAllData(ops, w).value[p] == TransformAllData(ops, w).value[q]
  {
  }

  /** A chain that answers `null` for data `x` removes every position that
      references `x`; when every other value of the template survives, those
      are the only positions removed. */
  lemma RemovedDataRemovesReferences<P, D>(ops: seq<Operator<P, D>>, w: map<P, D>, x: D)
    requires TransformAllData(ops, w).Success?
    requires ChainData(ops, x) == Returned(None)
    ensures forall p :: p in w && w[p] == x ==> p !in TransformAllData(ops, w).value
    ensures (forall p :: p in w && w[p] != x ==> ChainData(ops, w[p]).IsValue()) ==>
      TransformAllData(ops, w).value.Keys == set p | p in w && w[p] != x
  {
  }

  // ---------------------------------------------------------------------
  // Position transformation
  // ---------------------------------------------------------------------

  /** Deleting a position from a template whose phase 4 succeeds cannot make
      phase 4 fail. */
  lemma SubTemplateMovesCleanly<P, D>(ops: seq<Operator<P, D>>, w: map<P, D>, p: P)
    requires TransformAllPositions(ops, w).Success?
    ensures !PosChainThrows(ops, w - {p}) && !Colliding(ops, w - {p})
  {
  }

  /** A `null` from the position chain removes that position and nothing
      else: the result is the one obtained without that position. */
  lemma NullPositionRemovesOnlyIt<P, D>(ops: seq<Operator<P, D>>, w: map<P, D>, p: P)
    requires TransformAllPositions(ops, w).Success?
    requires p in w && ChainPos(ops, p, w[p]) == Returned(None)
    ensures TransformAllPositions(ops, w - {p}) == TransformAllPositions(ops, w)
  {
    var w' := w - {p};
    SubTemplateMovesCleanly(ops, w, p);
    var r := TransformAllPositions(ops, w).value;
    var r' := TransformAllPositions(ops, w').value;
    forall q | q in r
      ensures q in r' && r'[q] == r[q]
    {
      var s :| s in w && ChainPos(ops, s, w[s]) == Returned(Some(q));
      assert s != p && s in w' && w'[s] == w[s];
    }
    forall q | q in r'
      ensures q in r
    {
      var s :| s in w' && ChainPos(ops, s, w'[s]) == Returned(Some(q));
      assert s in w && w'[s] == w[s];
    }
    assert r' == r;
  }
}
