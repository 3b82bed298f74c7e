/** An operator of a template transaction (`ITransactionOperator`): four
    callbacks and a declared set of characteristics.  Positions `P` and data
    `D` are opaque; a callback answer is a value, `null`, or an exception. */
module TransactionOperator {
  import opened Results

  /** The kinds of work an operator may declare that it performs. The source
      enum may grow, so nothing here depends on it being exhaustive. */
  datatype Characteristic = TransformPosition | TransformData | CreateData

  /** What one invocation of a callback did: it returned a value, returned
      `null` (`Returned(None)`), or threw. */
  datatype Call<T> = Returned(result: Option<T>) | Threw {

    /** The invocation returned an actual (non-null) value. */
    predicate IsValue() {
      Returned? && result.Some?
    }
  }

  /** The behaviour of `createPos` across the successive calls of one
      execution: the non-null positions it returns, in order, and whether the
      call after the last of them throws instead of returning `null`. */
  datatype PosGenerator<P> = PosGenerator(produced: seq<P>, throwsAtEnd: bool) {

    /** The answer of the `k`-th call, counting from 0. */
    function Next(k: nat): Call<P> {
      if k < |produced| then Returned(Some(produced[k]))
      else if throwsAtEnd then Threw
      else Returned(None)
    }
  }

  datatype Operator<!P, !D> = Operator(
    createPos: PosGenerator<P>,
    createDataForPos: P -> Call<D>,
    transformData: D -> Call<D>,
    transformPos: (P, D) -> Call<P>,
    characteristics: set<Characteristic>)

  /** The operator that overrides nothing: every callback is the interface's
      default method. */
  function DefaultOperator<P, D>(): Operator<P, D> {
    Operator(
      PosGenerator([], false),
      (p: P) => Threw,                   // "does not support creating data"
      (d: D) => Returned(Some(d)),
      (p: P, d: D) => Returned(Some(p)),
      {})
  }

  /** `createPos` returns `null` on its first call. */
  predicate CreatesNothing<P, D>(op: Operator<P, D>) {
    |op.createPos.produced| == 0 && !op.createPos.throwsAtEnd
  }

  /** `transformData` is the identity. */
  ghost predicate KeepsData<P, D(!new)>(op: Operator<P, D>) {
    forall d :: op.transformData(d) == Returned(Some(d))
  }

  /** `transformPos` returns its position argument. */
  ghost predicate KeepsPositions<P(!new), D(!new)>(op: Operator<P, D>) {
    forall p, d :: op.transformPos(p, d) == Returned(Some(p))
  }

  /** The operator behaves like the interface defaults wherever the engine
      can observe it (`createDataForPos` is never reached when nothing is
      created). */
  ghost predicate BehavesAsDefault<P(!new), D(!new)>(op: Operator<P, D>) {
    CreatesNothing(op) && KeepsData(op) && KeepsPositions(op)
  }

  /** Every callback whose characteristic is not declared behaves as its
      default, so an engine may skip it. */
  ghost predicate RespectsCharacteristics<P(!new), D(!new)>(op: Operator<P, D>) {
    && (CreateData !in op.characteristics ==> CreatesNothing(op))
    && (TransformData !in op.characteristics ==> KeepsData(op))
    && (TransformPosition !in op.characteristics ==> KeepsPositions(op))
  }

  /** The interface defaults: no position is created, data creation fails,
      both transforms are identities and no characteristic is declared. */
  lemma DefaultOperatorContract<P(!new), D(!new)>()
    ensures DefaultOperator<P, D>().createPos.Next(0) == Returned(None)
    ensures forall p: P :: DefaultOperator<P, D>().createDataForPos(p) == Threw
    ensures forall d: D :: DefaultOperator<P, D>().transformData(d) == Returned(Some(d))
    ensures forall p: P, d: D :: DefaultOperator<P, D>().transformPos(p, d) == Returned(Some(p))
    ensures DefaultOperator<P, D>().characteristics == {}
    ensures BehavesAsDefault(DefaultOperator<P, D>())
    ensures RespectsCharacteristics(DefaultOperator<P, D>())
  {
  }

  /** Calls `createPos` until it stops returning positions, as the engine's
      first phase does; reports the positions returned and whether the final
      call threw. */
  method DrainCreatePos<P>(gen: PosGenerator<P>) returns (positions: seq<P>, threw: bool)
    ensures positions == gen.produced
    ensures threw <==> gen.throwsAtEnd
    ensures forall k :: 0 <= k < |positions| ==> gen.Next(k) == Returned(Some(positions[k]))
    ensures !gen.Next(|positions|).IsValue()
  {
    positions := [];
    var k := 0;
    var answer := gen.Next(0);
    while answer.IsValue()
      invariant k <= |gen.produced|
      invariant positions == gen.produced[..k]
      invariant answer == gen.Next(k)
      decreases |gen.produced| - k
    {
      positions := positions + [answer.result.value];
      k := k + 1;
      answer := gen.Next(k);
    }
    threw := answer.Threw?;
  }
}
