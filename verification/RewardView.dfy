/** The overflow-guarded reward decomposition (src/epose_reward_view.h). */
module RewardView {
  import opened Basics
  import SupplyMath

  datatype Output = Output(index: u64, amount: u64, publicKey: string)

  /** The amounts both sides of the mapping carry. */
  datatype Amounts = Amounts(
    scheduledSubsidy: u64, transactionFees: u64, minerSubsidy: u64, minerFees: u64, issuedSubsidy: u64,
    emissionAdvance: u64, coinbaseTotal: u64, minerReward: u64, serviceReward: u64, permanentlyUnissued: u64)

  datatype Reply = Reply(
    mappingAvailable: bool, paymentProofValid: bool, serviceRewardActive: bool,
    height: u64, payoutEpoch: u64, sourceEpoch: u64, qualifiedCount: u64, amounts: Amounts,
    blockHash: string, parentHash: string, qualificationHash: string,
    payeeKey: string, rewardViewKey: string, rewardSpendKey: string, outputs: seq<Output>)

  datatype View = View(
    payoutEpoch: u64, sourceEpoch: u64, qualifiedCount: u64, amounts: Amounts, serviceRewardActive: bool,
    qualificationHash: string, payeeKey: string, outputs: seq<Output>)

  predicate LowerHex64(s: string) {
    |s| == 64 && forall i :: 0 <= i < 64 ==> '0' <= s[i] <= '9' || 'a' <= s[i] <= 'f'
  }

  // --- what acceptance means, over unbounded integers ------------------------------------------

  function Total(outputs: seq<Output>): (sum: nat) {
    if outputs == [] then 0 else Total(outputs[..|outputs| - 1]) + outputs[|outputs| - 1].amount
  }

  predicate OutputsOk(outputs: seq<Output>, outputCount: nat) {
    && (forall i :: 0 <= i < |outputs| ==> outputs[i].index < outputCount && LowerHex64(outputs[i].publicKey))
    && (forall i, j :: 0 <= i < j < |outputs| ==> outputs[i].index != outputs[j].index)
  }

  /** The conservation equations: the coinbase is the miner's reward plus the service reward, and also the
      issued subsidy plus the fees; the miner gets its subsidy and all fees; what was scheduled is what was
      issued plus what never will be. */
  predicate Conserves(a: Amounts) {
    && a.minerReward + a.serviceReward == a.coinbaseTotal
    && a.issuedSubsidy + a.transactionFees == a.coinbaseTotal
    && a.minerSubsidy + a.minerFees == a.minerReward
    && a.minerFees == a.transactionFees
    && a.issuedSubsidy == a.minerSubsidy + a.serviceReward
    && a.scheduledSubsidy == a.issuedSubsidy + a.permanentlyUnissued
    && a.emissionAdvance == a.scheduledSubsidy
  }

  predicate BoundTo(r: Reply, blockHash: string, height: u64, coinbase: u64) {
    && r.mappingAvailable && r.blockHash == blockHash && r.height == height && r.amounts.coinbaseTotal == coinbase
    && LowerHex64(r.blockHash) && LowerHex64(r.parentHash) && LowerHex64(r.qualificationHash)
  }

  predicate ServiceOk(r: Reply) {
    if r.serviceRewardActive then
      && r.paymentProofValid && r.amounts.serviceReward > 0 && r.qualifiedCount > 0 && r.outputs != []
      && Total(r.outputs) == r.amounts.serviceReward
      && LowerHex64(r.payeeKey) && LowerHex64(r.rewardViewKey) && LowerHex64(r.rewardSpendKey)
    else
      !r.paymentProofValid && r.amounts.serviceReward == 0 && r.outputs == []
  }

  predicate Acceptable(r: Reply, blockHash: string, height: u64, coinbase: u64, outputCount: nat) {
    BoundTo(r, blockHash, height, coinbase) && Conserves(r.amounts) && OutputsOk(r.outputs, outputCount) && ServiceOk(r)
  }

  // --- the source's checks ---------------------------------------------------------------------

  /** a + b, unless it would wrap. */
  function Sum64(a: u64, b: u64): (s: Option<u64>)
    ensures s == if a + b < TWO_64 then Some(a + b) else None
  {
    if a > MAX_64 - b then None else Some(a + b)
  }

  /** The amount checks in the order of the source, each behind its wrap-around guard. */
  method CheckAmounts(a: Amounts) returns (ok: bool)
    ensures ok <==> Conserves(a)
  {
    var issued := Sum64(a.minerSubsidy, a.serviceReward);
    if issued.None? {
      return false;
    }
    var scheduled := Sum64(issued.value, a.permanentlyUnissued);
    if scheduled.None? {
      return false;
    }
    var reward := Sum64(a.minerReward, a.serviceReward);
    if reward != Some(a.coinbaseTotal) {
      return false;
    }
    var coinbase := Sum64(a.issuedSubsidy, a.transactionFees);
    if coinbase != Some(a.coinbaseTotal) {
      return false;
    }
    var miner := Sum64(a.minerSubsidy, a.minerFees);
    if miner != Some(a.minerReward) {
      return false;
    }
    ok := a.minerFees == a.transactionFees && a.issuedSubsidy == issued.value
          && a.scheduledSubsidy == scheduled.value && a.emissionAdvance == a.scheduledSubsidy;
  }

  lemma {:induction false} TotalGrows(outputs: seq<Output>, k: nat)
    requires k <= |outputs|
    ensures Total(outputs[..k]) <= Total(outputs)
    decreases |outputs| - k
  {
    if k < |outputs| {
      assert outputs[..k + 1][..k] == outputs[..k];
      TotalGrows(outputs, k + 1);
    } else {
      assert outputs[..k] == outputs;
    }
  }

  /** The output loop: a total, or None at a bad index, a repeated index, a bad key or an overflow. */
  method SumOutputs(outputs: seq<Output>, outputCount: nat) returns (total: Option<u64>)
    ensures total == if OutputsOk(outputs, outputCount) && Total(outputs) < TWO_64 then Some(Total(outputs)) else None
  {
    hide OutputsOk, LowerHex64;
    var sum: u64 := 0;
    var seen: set<u64> := {};
    var i := 0;
    NoOutputs(outputs, outputCount);
    while i < |outputs|
      invariant i <= |outputs|
      invariant sum == Total(outputs[..i])
      invariant OutputsOk(outputs[..i], outputCount)
      invariant seen == Indices(outputs[..i])
    {
      var o := outputs[i];
      NextOutput(outputs, i, outputCount);
      TotalGrows(outputs, i + 1);
      if o.index >= outputCount || o.index in seen || !LowerHex64(o.publicKey) {
        return None;
      }
      if sum > MAX_64 - o.amount {
        return None;
      }
      sum := sum + o.amount;
      seen := seen + {o.index};
      i := i + 1;
    }
    assert outputs[..i] == outputs;
    total := Some(sum);
  }

  function Indices(outputs: seq<Output>): (s: set<u64>) {
    set o | o in outputs :: o.index
  }

  lemma NoOutputs(outputs: seq<Output>, outputCount: nat)
    ensures OutputsOk(outputs[..0], outputCount) && Indices(outputs[..0]) == {} && Total(outputs[..0]) == 0
  {
  }

  /** One more output: it must be in range, new and well-formed, or no continuation is acceptable. */
  lemma NextOutput(outputs: seq<Output>, i: nat, outputCount: nat)
    requires i < |outputs| && OutputsOk(outputs[..i], outputCount)
    ensures var o := outputs[i];
            var good := o.index < outputCount && o.index !in Indices(outputs[..i]) && LowerHex64(o.publicKey);
            && (good ==> OutputsOk(outputs[..i + 1], outputCount))
            && (!good ==> !OutputsOk(outputs, outputCount))
    ensures Indices(outputs[..i + 1]) == Indices(outputs[..i]) + {outputs[i].index}
    ensures Total(outputs[..i + 1]) == Total(outputs[..i]) + outputs[i].amount
  {
    hide LowerHex64;
    var init, o := outputs[..i], outputs[i];
    assert outputs[..i + 1] == init + [o] && outputs[..i + 1][..i] == init;
    if o.index in Indices(init) {
      var other :| other in init && other.index == o.index;
      var k :| 0 <= k < i && init[k] == other;
      assert outputs[k].index == outputs[i].index;
    }
  }

  /** make_epose_reward_view accepts exactly when the identities, the hash formats and every conservation
      equation hold over unbounded integers: the wrap-around guards reject nothing valid. */
  method MakeView(r: Reply, blockHash: string, height: u64, coinbase: u64, outputCount: nat) returns (view: Option<View>)
    ensures view.Some? <==> Acceptable(r, blockHash, height, coinbase, outputCount)
    ensures view.Some? ==>
              view.value == View(r.payoutEpoch, r.sourceEpoch, r.qualifiedCount, r.amounts, r.serviceRewardActive,
                                 r.qualificationHash, r.payeeKey, r.outputs)
  {
    if !BoundTo(r, blockHash, height, coinbase) {
      return None;
    }
    var conserved := CheckAmounts(r.amounts);
    if !conserved {
      return None;
    }
    var total := SumOutputs(r.outputs, outputCount);
    if total.None? {
      return None;
    }
    if r.serviceRewardActive {
      if !r.paymentProofValid || r.amounts.serviceReward == 0 || r.qualifiedCount == 0 || r.outputs == []
         || total.value != r.amounts.serviceReward
         || !LowerHex64(r.payeeKey) || !LowerHex64(r.rewardViewKey) || !LowerHex64(r.rewardSpendKey) {
        return None;
      }
    } else if r.paymentProofValid || r.amounts.serviceReward != 0 || r.outputs != [] {
      return None;
    }
    view := Some(View(r.payoutEpoch, r.sourceEpoch, r.qualifiedCount, r.amounts, r.serviceRewardActive,
                      r.qualificationHash, r.payeeKey, r.outputs));
  }

  /** An accepted view and the supply index agree on what the block issued: coinbase minus fees is the issued
      subsidy, which the miner and the service outputs receive in full. */
  lemma ViewAgreesWithSupply(r: Reply, blockHash: string, height: u64, coinbase: u64, outputCount: nat)
    requires Acceptable(r, blockHash, height, coinbase, outputCount)
    ensures SupplyMath.MintedDelta(coinbase, r.amounts.transactionFees) == Some(r.amounts.issuedSubsidy)
    ensures r.amounts.issuedSubsidy == r.amounts.minerSubsidy + Total(r.outputs)
    ensures coinbase == r.amounts.minerReward + Total(r.outputs)
  {
    if !r.serviceRewardActive {
      assert Total(r.outputs) == 0;
    }
  }
}
