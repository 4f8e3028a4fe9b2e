/** What executing a batch of transactions guarantees, one by one and in parallel. */
module Batches {
  import opened MachineInts
  import opened MapSums
  import opened ChainState
  import opened Execution
  import opened ExecutionTheorems
  import opened StateMerge
  import opened Executor

  // ---- Sequential execution --------------------------------------------------------

  function TotalGas(rs: seq<Receipt>): nat
  {
    if rs == [] then 0 else TotalGas(rs[..|rs| - 1]) + rs[|rs| - 1].gasUsed
  }

  lemma ReceiptNamesTx(env: Env, s: KvState, tx: Tx, baseFee: U64, proposer: string)
    ensures var r := ApplyTx(env, s, tx, baseFee, proposer);
            r.Applied? ==> r.receipt.txHash == env.txHash(tx)
  {
  }

  /** What holds of an executor that has processed `txs` from `s` without an error. */
  ghost predicate Accounted(p: Params, s: KvState, txs: seq<Tx>, e: Exec)
  {
    && |e.receipts| == |txs|
    && (forall i :: 0 <= i < |txs| ==> e.receipts[i].txHash == p.env.txHash(txs[i]) && p.env.txHash(txs[i]) in e.hashes)
    && (forall i, j :: 0 <= i < j < |txs| ==> p.env.txHash(txs[i]) != p.env.txHash(txs[j]))
    && e.gasUsed == TotalGas(e.receipts)
    && (txs != [] ==> e.gasUsed <= p.maxGas)
    && ApplyAll(p.env, s, txs, p.baseFee, p.proposer) == Some(e.state)
  }

  lemma {:induction false} ApplyAllSnoc(env: Env, s: KvState, txs: seq<Tx>, tx: Tx, baseFee: U64, proposer: string)
    requires ApplyAll(env, s, txs, baseFee, proposer).Some?
    ensures var r := ApplyTx(env, ApplyAll(env, s, txs, baseFee, proposer).value, tx, baseFee, proposer);
            ApplyAll(env, s, txs + [tx], baseFee, proposer) == if r.Abort? then None else Some(r.state)
    decreases |txs|
  {
    if txs == [] {
      assert txs + [tx] == [tx] && [tx][1..] == [];
    } else {
      assert (txs + [tx])[1..] == txs[1..] + [tx];
      ApplyAllSnoc(env, ApplyTx(env, s, txs[0], baseFee, proposer).state, txs[1..], tx, baseFee, proposer);
    }
  }

  lemma AccountedStep(p: Params, s: KvState, txs: seq<Tx>, e: Exec, tx: Tx)
    requires p.maxGas < U64_MAX && Accounted(p, s, txs, e) && ExecuteTx(p, e, tx).1 == Done
    ensures Accounted(p, s, txs + [tx], ExecuteTx(p, e, tx).0)
  {
    var r := ApplyTx(p.env, e.state, tx, p.baseFee, p.proposer);
    ReceiptNamesTx(p.env, e.state, tx, p.baseFee, p.proposer);
    ApplyAllSnoc(p.env, s, txs, tx, p.baseFee, p.proposer);
    var e' := ExecuteTx(p, e, tx).0;
    assert e'.receipts[..|txs|] == e.receipts && e'.receipts[|txs|] == r.receipt;
  }

  /** A batch that finishes has one receipt per transaction in order, no hash twice, and
      gas equal to the receipts' total and within the limit; its state is that of
      applying the transactions one after the other. */
  lemma {:induction false} BatchAccounted(p: Params, s: KvState, txs: seq<Tx>)
    requires p.maxGas < U64_MAX && ExecuteBatch(p, Start(s), txs).1 == Done
    ensures Accounted(p, s, txs, ExecuteBatch(p, Start(s), txs).0)
    decreases |txs|
  {
    if txs != [] {
      var init, last := txs[..|txs| - 1], txs[|txs| - 1];
      assert txs == init + [last];
      if ExecuteBatch(p, Start(s), init).1 != Done { ExecuteBatchStops(p, Start(s), init, [last]); }
      BatchAccounted(p, s, init);
      ExecuteBatchSnoc(p, Start(s), init, last);
      AccountedStep(p, s, init, ExecuteBatch(p, Start(s), init).0, last);
    }
  }

  /** Sequential execution keeps the total supply even when it stops early. */
  lemma {:induction false} BatchConserves(p: Params, e: Exec, txs: seq<Tx>)
    requires Supply(e.state) < U64_MAX
    ensures Supply(ExecuteBatch(p, e, txs).0.state) == Supply(e.state)
    decreases |txs|
  {
    if txs != [] {
      if ApplyTx(p.env, e.state, txs[0], p.baseFee, p.proposer).Applied? {
        ApplyConserves(p.env, e.state, txs[0], p.baseFee, p.proposer);
      }
      if ExecuteTx(p, e, txs[0]).1 == Done { BatchConserves(p, ExecuteTx(p, e, txs[0]).0, txs[1..]); }
    }
  }

  // ---- Parallel execution ----------------------------------------------------------

  /** A successful transaction changes its sender's balance, so its state always
      conflicts with the state it started from. */
  lemma SuccessConflicts(p: Params, s: KvState, tx: Tx)
    requires Supply(s) < U64_MAX && p.baseFee >= 1
    requires ApplyTx(p.env, s, tx, p.baseFee, p.proposer).Applied?
    requires ApplyTx(p.env, s, tx, p.baseFee, p.proposer).receipt.success
    ensures !Compatible(s, ApplyTx(p.env, s, tx, p.baseFee, p.proposer).state)
  {
    RejectionChangesNothing(p.env, s, tx, p.baseFee, p.proposer);
    var fees := Precheck(p.env, s, tx, p.baseFee).fees;
    SumMember(s.balances, tx.from);
    IntrinsicAtLeastBase(tx.payload);
    FeesExact(tx, p.baseFee, fees.intrinsic);
    MulMono(1, p.baseFee, fees.intrinsic);
    ChargeConserves(s, tx.from, p.proposer, fees);
    var t := ChargeFees(s, tx.from, p.proposer, fees);
    PayloadFrame(p.env, t, tx, WithFees(EmptyReceipt(p.env, tx), fees));
    assert tx.from in s.balances && tx.from in t.balances && s.balances[tx.from] != t.balances[tx.from];
  }

  /** Above the threshold the parallel path can only report an error, and then the
      executor is as it was. */
  lemma ParallelNeverCommits(p: Params, e: Exec, txs: seq<Tx>)
    requires |txs| > QUANTUM_PARALLEL_THRESHOLD && p.verifySignatures
    requires Supply(e.state) < U64_MAX && p.baseFee >= 1
    ensures ExecuteParallel(p, e, txs).0 == e && ExecuteParallel(p, e, txs).1 != Done
  {
    var rs := Workers(p, e.state, txs);
    if AllSigned(p, txs) && !AnyAborts(rs) {
      if rs[0].receipt.success { SuccessConflicts(p, e.state, txs[0]); }
      assert rs[..1][..0] == [];
      assert FoldAll(e.state, rs[..1]).outcome != Done;
      FoldStops(e.state, rs, 1);
    }
  }

  predicate AllApplied(rs: seq<ApplyResult>) { forall i :: 0 <= i < |rs| ==> rs[i].Applied? }

  /** The receipts of results that all went through, in order. */
  function ReceiptsOf(rs: seq<ApplyResult>): (r: seq<Receipt>)
    requires AllApplied(rs)
    ensures |r| == |rs|
  {
    if rs == [] then [] else ReceiptsOf(rs[..|rs| - 1]) + [rs[|rs| - 1].receipt]
  }

  lemma {:induction false} ReceiptAt(rs: seq<ApplyResult>, i: nat)
    requires AllApplied(rs) && i < |rs|
    ensures ReceiptsOf(rs)[i] == rs[i].receipt
    decreases |rs|
  {
    if i < |rs| - 1 { ReceiptAt(rs[..|rs| - 1], i); }
  }

  predicate AllSucceed(rs: seq<ApplyResult>)
  {
    forall i :: 0 <= i < |rs| ==> rs[i].Applied? && rs[i].receipt.success
  }

  /** The receipts of the results in order, all successful, with their gas added up and
      saturated. */
  predicate Summed(f: Fold, rs: seq<ApplyResult>)
  {
    AllSucceed(rs) && f.receipts == ReceiptsOf(rs) && f.gas == Min(TotalGas(ReceiptsOf(rs)), U64_MAX)
  }

  lemma SummedSnoc(acc: Fold, f: Fold, init: seq<ApplyResult>, r: ApplyResult)
    requires Summed(acc, init) && r.Applied? && r.receipt.success
    requires f.receipts == acc.receipts + [r.receipt] && f.gas == SatAdd64(acc.gas, r.receipt.gasUsed)
    ensures Summed(f, init + [r])
  {
    ReceiptsSnoc(init, r);
  }

  lemma {:induction false} FoldReceipts(base: KvState, rs: seq<ApplyResult>)
    requires FoldAll(base, rs).outcome == Done
    ensures Summed(FoldAll(base, rs), rs)
    decreases |rs|
  {
    if rs != [] {
      var n := |rs| - 1;
      var acc := FoldAll(base, rs[..n]);
      OneMerged(acc, rs[n]);
      FoldReceipts(base, rs[..n]);
      SummedSnoc(acc, FoldAll(base, rs), rs[..n], rs[n]);
      assert rs == rs[..n] + [rs[n]];
    }
  }

  lemma OneMerged(acc: Fold, r: ApplyResult)
    requires FoldOne(acc, r).outcome == Done
    ensures acc.outcome == Done && r.Applied? && r.receipt.success
    ensures FoldOne(acc, r).receipts == acc.receipts + [r.receipt]
    ensures FoldOne(acc, r).gas == SatAdd64(acc.gas, r.receipt.gasUsed)
  {
  }

  lemma ReceiptsSnoc(rs: seq<ApplyResult>, r: ApplyResult)
    requires AllApplied(rs) && r.Applied?
    ensures ReceiptsOf(rs + [r]) == ReceiptsOf(rs) + [r.receipt]
    ensures TotalGas(ReceiptsOf(rs + [r])) == TotalGas(ReceiptsOf(rs)) + r.receipt.gasUsed
  {
    assert (rs + [r])[..|rs|] == rs;
    var all := ReceiptsOf(rs) + [r.receipt];
    assert all[..|all| - 1] == ReceiptsOf(rs);
  }

  /** Without any hypothesis on fees or supply, a parallel batch is all or nothing: the
      successful receipts of all workers with their gas, or no change. */
  lemma ParallelAllOrNothing(p: Params, e: Exec, txs: seq<Tx>)
    requires |txs| > QUANTUM_PARALLEL_THRESHOLD && p.verifySignatures
    ensures var (e', out) := ExecuteParallel(p, e, txs);
            var rs := Workers(p, e.state, txs);
            if out != Done then e' == e
            else
              && AllSucceed(rs) && e'.receipts == e.receipts + ReceiptsOf(rs)
              && e'.gasUsed == Min(TotalGas(ReceiptsOf(rs)), U64_MAX) <= p.maxGas
  {
    if ExecuteParallel(p, e, txs).1 == Done { FoldReceipts(e.state, Workers(p, e.state, txs)); }
  }

  /** Each worker's receipt names its transaction. */
  lemma WorkersNameTxs(p: Params, base: KvState, txs: seq<Tx>, i: nat)
    requires i < |txs| && AllApplied(Workers(p, base, txs))
    ensures ReceiptsOf(Workers(p, base, txs))[i].txHash == p.env.txHash(txs[i])
  {
    ReceiptAt(Workers(p, base, txs), i);
    ReceiptNamesTx(p.env, base, txs[i], p.baseFee, p.proposer);
  }

  /** A successful result whose state can be merged into `s`. */
  predicate Joins(s: KvState, r: ApplyResult) { r.Applied? && r.receipt.success && Compatible(s, r.state) }

  /** Every worker succeeds, and neither the base state nor any two worker states differ
      on a key that both hold. */
  predicate Mergeable(base: KvState, rs: seq<ApplyResult>)
  {
    && (forall i :: 0 <= i < |rs| ==> Joins(base, rs[i]))
    && (forall i, j :: 0 <= i < j < |rs| ==> rs[i].Applied? && Joins(rs[i].state, rs[j]))
  }

  /** A union can take in exactly what both of its parts can take in. */
  lemma UnionTakesIn(a: KvState, b: KvState, c: KvState)
    requires Compatible(a, b)
    ensures Compatible(Union(a, b), c) <==> Compatible(a, c) && Compatible(b, c)
  {
    AgreeUnion(a.kv, b.kv, c.kv);
    AgreeUnion(a.balances, b.balances, c.balances);
    AgreeUnion(a.nonces, b.nonces, c.nonces);
    AgreeUnion(a.vm.storage, b.vm.storage, c.vm.storage);
    AgreeUnion(a.vm.code, b.vm.code, c.vm.code);
  }

  lemma AgreeUnion<K, V>(a: map<K, V>, b: map<K, V>, c: map<K, V>)
    requires Agree(a, b)
    ensures Agree(a + b, c) <==> Agree(a, c) && Agree(b, c)
  {
    if Agree(a + b, c) {
      forall k | k in a && k in c ensures a[k] == c[k] { assert (a + b)[k] == a[k]; }
    }
  }

  /** The base and every worker state can take in `c`. */
  predicate AllTakeIn(base: KvState, rs: seq<ApplyResult>, c: KvState)
  {
    Compatible(base, c) && forall i :: 0 <= i < |rs| ==> rs[i].Applied? && Compatible(rs[i].state, c)
  }

  /** A merged batch can take in exactly what the base and all its workers can take in. */
  lemma {:induction false} FoldTakesIn(base: KvState, rs: seq<ApplyResult>, c: KvState)
    requires FoldAll(base, rs).outcome == Done
    ensures Compatible(FoldAll(base, rs).state, c) <==> AllTakeIn(base, rs, c)
    decreases |rs|
  {
    if rs != [] {
      var n := |rs| - 1;
      FoldTakesIn(base, rs[..n], c);
      UnionTakesIn(FoldAll(base, rs[..n]).state, rs[n].state, c);
      assert forall i :: 0 <= i < n ==> rs[..n][i] == rs[i];
    }
  }

  lemma {:induction false} FoldDoneIff(base: KvState, rs: seq<ApplyResult>)
    ensures FoldAll(base, rs).outcome == Done <==> Mergeable(base, rs)
    decreases |rs|
  {
    if rs != [] {
      var n := |rs| - 1;
      FoldDoneIff(base, rs[..n]);
      MergeableSnoc(base, rs);
      if FoldAll(base, rs[..n]).outcome == Done && rs[n].Applied? { FoldTakesIn(base, rs[..n], rs[n].state); }
    }
  }

  lemma MergeableSnoc(base: KvState, rs: seq<ApplyResult>)
    requires rs != []
    ensures var n := |rs| - 1;
            Mergeable(base, rs) <==>
            && Mergeable(base, rs[..n])
            && rs[n].Applied? && rs[n].receipt.success && AllTakeIn(base, rs[..n], rs[n].state)
  {
    var n := |rs| - 1;
    assert forall i :: 0 <= i < n ==> rs[..n][i] == rs[i];
    if Mergeable(base, rs) {
      assert forall i :: 0 <= i < n ==> Joins(rs[i].state, rs[n]);
    }
  }

  /** The parallel path commits if and only if all signatures hold, every worker succeeds,
      no two of them nor the base state disagree on a shared key, and the gas fits. */
  lemma ParallelCommitsIff(p: Params, e: Exec, txs: seq<Tx>)
    requires |txs| > QUANTUM_PARALLEL_THRESHOLD && p.verifySignatures
    ensures var rs := Workers(p, e.state, txs);
            ExecuteParallel(p, e, txs).1 == Done <==>
            AllSigned(p, txs) && Mergeable(e.state, rs) && GasFits(rs, p.maxGas)
  {
    var rs := Workers(p, e.state, txs);
    MergeOutcome(e.state, rs, p.maxGas);
  }

  predicate GasFits(rs: seq<ApplyResult>, maxGas: nat)
  {
    AllApplied(rs) && Min(TotalGas(ReceiptsOf(rs)), U64_MAX) <= maxGas
  }

  lemma MergeOutcome(base: KvState, rs: seq<ApplyResult>, maxGas: nat)
    ensures Mergeable(base, rs) <==> !AnyAborts(rs) && FoldAll(base, rs).outcome == Done
    ensures Mergeable(base, rs) ==> (FoldAll(base, rs).gas <= maxGas <==> GasFits(rs, maxGas))
  {
    FoldDoneIff(base, rs);
    if Mergeable(base, rs) { FoldReceipts(base, rs); }
  }

  // ---- Supply on the parallel path -------------------------------------------------

  /** The same money: every balance of the base, only empty accounts besides, and the same
      burned total. */
  predicate SameMoney(base: KvState, s: KvState)
  {
    && (forall a :: a in base.balances ==> a in s.balances && s.balances[a] == base.balances[a])
    && (forall a :: a in s.balances && a !in base.balances ==> s.balances[a] == 0)
    && s.burned == base.burned
  }

  lemma SameMoneySameSupply(base: KvState, s: KvState)
    requires SameMoney(base, s)
    ensures Supply(s) == Supply(base)
  {
    SumSplit(s.balances, base.balances.Keys);
    assert Restrict(s.balances, base.balances.Keys) == base.balances;
    SumOfZeros(s.balances - base.balances.Keys);
  }

  /** A transaction drops no account and never lowers the burned total. */
  lemma AccountsStay(env: Env, s: KvState, tx: Tx, baseFee: U64, proposer: string)
    requires ApplyTx(env, s, tx, baseFee, proposer).Applied?
    ensures var t := ApplyTx(env, s, tx, baseFee, proposer).state;
            s.balances.Keys <= t.balances.Keys && t.burned >= s.burned
  {
    match Precheck(env, s, tx, baseFee)
    case Charge(fees) =>
      PayloadFrame(env, ChargeFees(s, tx.from, proposer, fees), tx, WithFees(EmptyReceipt(env, tx), fees));
    case _ =>
  }

  /** A result that agrees with the base on all balances has moved no money. */
  lemma AgreeingWorkerMovesNothing(p: Params, base: KvState, tx: Tx)
    requires Supply(base) < U64_MAX && ApplyTx(p.env, base, tx, p.baseFee, p.proposer).Applied?
    requires Agree(base.balances, ApplyTx(p.env, base, tx, p.baseFee, p.proposer).state.balances)
    ensures SameMoney(base, ApplyTx(p.env, base, tx, p.baseFee, p.proposer).state)
  {
    AccountsStay(p.env, base, tx, p.baseFee, p.proposer);
    ApplyConserves(p.env, base, tx, p.baseFee, p.proposer);
    NothingAdded(base, ApplyTx(p.env, base, tx, p.baseFee, p.proposer).state);
  }

  lemma NothingAdded(base: KvState, s: KvState)
    requires base.balances.Keys <= s.balances.Keys && Agree(base.balances, s.balances)
    requires s.burned >= base.burned && Supply(s) == Supply(base)
    ensures SameMoney(base, s)
  {
    SumSplit(s.balances, base.balances.Keys);
    assert Restrict(s.balances, base.balances.Keys) == base.balances;
    forall a | a in s.balances && a !in base.balances ensures s.balances[a] == 0 {
      SumMember(s.balances - base.balances.Keys, a);
    }
  }

  predicate MovesNothingIfAgreeing(base: KvState, r: ApplyResult)
  {
    r.Applied? && Agree(base.balances, r.state.balances) ==> SameMoney(base, r.state)
  }

  /** Merging results that each move no money as soon as they agree with the base moves
      none either. */
  lemma {:induction false} FoldMovesNothing(base: KvState, rs: seq<ApplyResult>)
    requires FoldAll(base, rs).outcome == Done
    requires forall i :: 0 <= i < |rs| ==> MovesNothingIfAgreeing(base, rs[i])
    ensures SameMoney(base, FoldAll(base, rs).state)
    decreases |rs|
  {
    if rs != [] {
      var n := |rs| - 1;
      assert forall i :: 0 <= i < n ==> rs[..n][i] == rs[i];
      FoldMovesNothing(base, rs[..n]);
      UnionMovesNothing(base, FoldAll(base, rs[..n]).state, rs[n].state);
    }
  }

  lemma UnionMovesNothing(base: KvState, acc: KvState, s: KvState)
    requires SameMoney(base, acc) && Compatible(acc, s)
    requires Agree(base.balances, s.balances) ==> SameMoney(base, s)
    ensures SameMoney(base, Union(acc, s))
  {
    assert Agree(base.balances, s.balances);
  }

  /** Whatever the base fee, the parallel path keeps the supply: what it commits moves no
      money at all. */
  lemma ParallelConserves(p: Params, e: Exec, txs: seq<Tx>)
    requires Supply(e.state) < U64_MAX
    ensures Supply(ExecuteParallel(p, e, txs).0.state) == Supply(e.state)
  {
    BatchConserves(p, e, txs);
    ParallelStates(p, e, txs);
    var f := FoldAll(e.state, Workers(p, e.state, txs));
    if f.outcome == Done {
      WorkersMoveNothing(p, e.state, txs);
      SameMoneySameSupply(e.state, f.state);
    }
  }

  /** The states the parallel path can end in. */
  lemma ParallelStates(p: Params, e: Exec, txs: seq<Tx>)
    ensures var s := ExecuteParallel(p, e, txs).0.state;
            var f := FoldAll(e.state, Workers(p, e.state, txs));
            s == ExecuteBatch(p, e, txs).0.state || s == e.state || (f.outcome == Done && s == f.state)
  {
  }

  lemma WorkersMoveNothing(p: Params, base: KvState, txs: seq<Tx>)
    requires Supply(base) < U64_MAX && FoldAll(base, Workers(p, base, txs)).outcome == Done
    ensures SameMoney(base, FoldAll(base, Workers(p, base, txs)).state)
  {
    var rs := Workers(p, base, txs);
    forall i | 0 <= i < |rs| ensures MovesNothingIfAgreeing(base, rs[i]) {
      if rs[i].Applied? && Agree(base.balances, rs[i].state.balances) { AgreeingWorkerMovesNothing(p, base, txs[i]); }
    }
    FoldMovesNothing(base, rs);
  }
}
