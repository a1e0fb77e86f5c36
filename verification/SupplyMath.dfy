/** Issuance records with 128-bit running totals (src/supply_math.h). */
module SupplyMath {
  import opened Basics
  import opened Chain

  datatype Totals = Totals(coinbase: nat, fees: nat, minted: nat)

  datatype Record = Record(
    height: u64, hash: Id, parent: Id,
    coinbase: u64, fees: u64, minted: u64,
    cumCoinbase: u128, cumFees: u128, cumMinted: u128)
  {
    function Cumulative(): (t: Totals) {
      Totals(cumCoinbase, cumFees, cumMinted)
    }
  }

  function Ids(rs: seq<Record>): (ids: seq<Id>)
    ensures |ids| == |rs|
    ensures forall i :: 0 <= i < |rs| ==> ids[i] == rs[i].hash
  {
    seq(|rs|, i requires 0 <= i < |rs| => rs[i].hash)
  }

  function CheckedAdd(lhs: u128, rhs: u128): (sum: Option<u128>)
    ensures sum.Some? <==> lhs + rhs < TWO_128
    ensures sum.Some? ==> sum.value == lhs + rhs
  {
    if rhs > TWO_128 - 1 - lhs then None else Some(lhs + rhs)
  }

  function MintedDelta(coinbase: u64, fees: u64): (minted: Option<u64>)
    ensures minted.Some? <==> fees <= coinbase
    ensures minted.Some? ==> minted.value + fees == coinbase
  {
    if fees > coinbase then None else Some(coinbase - fees)
  }

  /** Running totals just before record n. */
  function Prior(rs: seq<Record>, n: nat): (t: Totals)
    requires n <= |rs|
  {
    if n == 0 then Totals(0, 0, 0) else rs[n - 1].Cumulative()
  }

  /** Record i has its height, names its predecessor, and continues the running totals exactly. */
  predicate Continues(rs: seq<Record>, i: nat)
    requires i < |rs|
  {
    && rs[i].height == i
    && rs[i].parent == (if i == 0 then "" else rs[i - 1].hash)
    && rs[i].minted + rs[i].fees == rs[i].coinbase
    && rs[i].cumCoinbase == Prior(rs, i).coinbase + rs[i].coinbase
    && rs[i].cumFees == Prior(rs, i).fees + rs[i].fees
    && rs[i].cumMinted == Prior(rs, i).minted + rs[i].minted
  }

  /** What load guarantees of any accepted file. */
  predicate Accumulated(rs: seq<Record>) {
    forall i :: 0 <= i < |rs| ==> Continues(rs, i)
  }

  /** What append builds: accumulated, and every hash non-empty. */
  predicate WellFormed(rs: seq<Record>) {
    && Accumulated(rs)
    && forall i :: 0 <= i < |rs| ==> rs[i].hash != ""
  }

  // --- independent sums ------------------------------------------------------------------------

  function SumFees(fees: seq<u64>): (sum: nat) {
    if fees == [] then 0 else SumFees(fees[..|fees| - 1]) + fees[|fees| - 1]
  }

  lemma {:induction false} SumFeesAppend(fees: seq<u64>, k: nat)
    requires k < |fees|
    ensures SumFees(fees[..k + 1]) == SumFees(fees[..k]) + fees[k]
    ensures SumFees(fees[..k]) <= SumFees(fees)
    decreases |fees| - k
  {
    assert fees[..k + 1][..k] == fees[..k];
    if k + 1 < |fees| {
      SumFeesAppend(fees, k + 1);
    } else {
      assert fees[..k + 1] == fees;
    }
  }

  /** Issuance over a chain of ids: coinbase, fees, and coinbase minus fees block by block. */
  ghost function Issuance(content: Id -> Block, ids: seq<Id>): (t: Totals)
    requires forall i :: 0 <= i < |ids| ==> SumFees(content(ids[i]).fees) <= content(ids[i]).coinbase
  {
    if ids == [] then Totals(0, 0, 0)
    else
      var t := Issuance(content, ids[..|ids| - 1]);
      var b := content(ids[|ids| - 1]);
      Totals(t.coinbase + b.coinbase, t.fees + SumFees(b.fees), t.minted + (b.coinbase - SumFees(b.fees)))
  }

  /** The record carries the amounts of the block its hash names. */
  ghost predicate Matches(content: Id -> Block, r: Record) {
    r.coinbase == content(r.hash).coinbase && r.fees == SumFees(content(r.hash).fees)
  }

  /** Records that describe the blocks their hashes name. */
  ghost predicate Faithful(content: Id -> Block, rs: seq<Record>) {
    && WellFormed(rs)
    && Linked(content, Ids(rs))
    && forall i :: 0 <= i < |rs| ==> Matches(content, rs[i])
  }

  /** The running totals of faithful records are the issuance over the linked chain of their hashes. */
  lemma {:induction false} CumulativeIsIssuance(content: Id -> Block, rs: seq<Record>)
    requires Faithful(content, rs)
    ensures forall i :: 0 <= i < |rs| ==> SumFees(content(Ids(rs)[i]).fees) <= content(Ids(rs)[i]).coinbase
    ensures Prior(rs, |rs|) == Issuance(content, Ids(rs))
  {
    if rs != [] {
      var init := rs[..|rs| - 1];
      FaithfulPrefix(content, rs, |rs| - 1);
      CumulativeIsIssuance(content, init);
      assert Ids(rs)[..|rs| - 1] == Ids(init);
      assert Continues(rs, |rs| - 1);
      assert Prior(rs, |rs| - 1) == Prior(init, |init|);
    }
  }

  lemma AccumulatedPrefix(rs: seq<Record>, k: nat)
    requires Accumulated(rs) && k <= |rs|
    ensures Accumulated(rs[..k])
  {
    forall i | 0 <= i < k ensures Continues(rs[..k], i) {
      assert Continues(rs, i);
    }
  }

  lemma FaithfulPrefix(content: Id -> Block, rs: seq<Record>, k: nat)
    requires Faithful(content, rs) && k <= |rs|
    ensures Faithful(content, rs[..k]) && Ids(rs[..k]) == Ids(rs)[..k]
  {
    AccumulatedPrefix(rs, k);
    assert Ids(rs[..k]) == Ids(rs)[..k];
    forall i | 0 <= i < k ensures LinkedBlock(content, Ids(rs[..k]), i) {
      assert LinkedBlock(content, Ids(rs), i);
    }
  }

  /** Running totals stay below record count times 2^64, and minted is coinbase minus fees. */
  lemma {:induction false} TotalsBounded(rs: seq<Record>, n: nat)
    requires Accumulated(rs) && n <= |rs|
    ensures Prior(rs, n).coinbase <= n * MAX_64
    ensures Prior(rs, n).minted + Prior(rs, n).fees == Prior(rs, n).coinbase
  {
    if n > 0 {
      TotalsBounded(rs, n - 1);
      assert Continues(rs, n - 1);
    }
  }

  // --- append and rollback ---------------------------------------------------------------------

  /** The link test of append_supply_record, without its overflow tests. */
  predicate Fits(rs: seq<Record>, r: Record) {
    && r.height == |rs|
    && r.hash != ""
    && r.parent == (if rs == [] then "" else rs[|rs| - 1].hash)
    && r.fees <= r.coinbase
  }

  function Append(rs: seq<Record>, r: Record): (out: Option<seq<Record>>)
  {
    if !Fits(rs, r) then None
    else
      var prior := Prior(rs, |rs|);
      var minted := MintedDelta(r.coinbase, r.fees);
      var c := CheckedAdd(prior.coinbase, r.coinbase);
      var f := CheckedAdd(prior.fees, r.fees);
      var m := CheckedAdd(prior.minted, minted.value);
      if c.None? || f.None? || m.None? then None
      else Some(rs + [r.(minted := minted.value, cumCoinbase := c.value, cumFees := f.value, cumMinted := m.value)])
  }

  lemma AppendGrows(rs: seq<Record>, r: Record)
    ensures Append(rs, r).Some? ==> |Append(rs, r).value| == |rs| + 1
  {
  }

  /** From any accumulated list, append fails only on a bad link, an empty hash or fees above coinbase:
      the 128-bit additions cannot overflow. What it builds keeps the invariant. */
  lemma AppendFailsOnlyOnLink(rs: seq<Record>, r: Record)
    requires Accumulated(rs)
    ensures Append(rs, r).Some? <==> Fits(rs, r)
    ensures Append(rs, r).Some? ==>
              var out := Append(rs, r).value;
              && Accumulated(out) && (WellFormed(rs) ==> WellFormed(out))
              && |out| == |rs| + 1 && out[..|rs|] == rs
              && Prior(out, |out|).minted == Prior(out, |out|).coinbase - Prior(out, |out|).fees
  {
    TotalsBounded(rs, |rs|);
    if Fits(rs, r) {
      assert |rs| * MAX_64 <= MAX_64 * MAX_64;
      var out := Append(rs, r).value;
      forall i | 0 <= i < |out| ensures Continues(out, i) {
        if i < |rs| {
          assert Continues(rs, i);
        }
      }
    }
  }

  method AppendRecord(rs: seq<Record>, r: Record) returns (ok: bool, out: seq<Record>)
    ensures ok <==> Append(rs, r).Some?
    ensures out == if ok then Append(rs, r).value else rs
  {
    out := rs;
    var minted := MintedDelta(r.coinbase, r.fees);
    if r.height != |rs| || r.hash == "" || (r.height == 0 && r.parent != "")
       || (r.height > 0 && r.parent != rs[|rs| - 1].hash) || minted.None? {
      return false, out;
    }
    var prior := if rs == [] then Totals(0, 0, 0) else rs[|rs| - 1].Cumulative();
    var c := CheckedAdd(prior.coinbase, r.coinbase);
    var f := CheckedAdd(prior.fees, r.fees);
    var m := CheckedAdd(prior.minted, minted.value);
    if c.None? || f.None? || m.None? {
      return false, out;
    }
    out := rs + [r.(minted := minted.value, cumCoinbase := c.value, cumFees := f.value, cumMinted := m.value)];
    ok := true;
  }

  /** Rollback by the last record only: the records kept, and the instant after the last read. */
  function Rollback(w: World, t: nat, rs: seq<Record>, count: nat): (out: (seq<Record>, nat))
    ensures out.0 <= rs && t <= out.1
    decreases |rs|
  {
    if rs == [] then (rs, t)
    else
      var last := rs[|rs| - 1];
      if last.height >= count then Rollback(w, t, rs[..|rs| - 1], count)
      else if w.IdAt(t, last.height) == last.hash then (rs, t + 1)
      else Rollback(w, t + 1, rs[..|rs| - 1], count)
  }

  method RollbackRecords(d: Daemon, rs: seq<Record>, count: nat) returns (out: seq<Record>)
    modifies d
    ensures (out, d.now) == Rollback(d.world, old(d.now), rs, count)
  {
    out := rs;
    while out != []
      invariant Rollback(d.world, old(d.now), rs, count) == Rollback(d.world, d.now, out, count)
      decreases |out|
    {
      var last := out[|out| - 1];
      if last.height < count {
        var id := d.BlockId(last.height);
        if id == last.hash {
          return;
        }
      }
      out := out[..|out| - 1];
    }
  }

  ghost predicate IsLongestCommonPrefix(k: nat, a: seq<Id>, b: seq<Id>) {
    && k <= |a| && k <= |b| && a[..k] == b[..k]
    && (k == |a| || k == |b| || a[k] != b[k])
  }

  /** Against a chain that stays put, inspecting only the last record leaves exactly the longest common
      prefix: a matching id forces every earlier record to match. */
  lemma {:induction false} RollbackLeavesCommonPrefix(w: World, t: nat, rs: seq<Record>, chain: seq<Id>)
    requires w.Valid() && Faithful(w.content, rs)
    requires w.Holds(chain, t, t + |rs|)
    ensures var (out, t') := Rollback(w, t, rs, |chain|);
            && t' <= t + |rs|
            && IsLongestCommonPrefix(|out|, Ids(rs), chain)
            && out == rs[..|out|]
    decreases |rs|
  {
    if rs != [] {
      var n := |rs| - 1;
      assert Continues(rs, n);
      assert w.ChainAt(t) == chain && w.LinkedAt(t);
      if n < |chain| && chain[n] == rs[n].hash {
        SharedBlockSharesPast(w.content, Ids(rs), chain, n);
        assert Ids(rs)[..n + 1] == Ids(rs);
      } else {
        FaithfulPrefix(w.content, rs, n);
        var t1 := if n < |chain| then t + 1 else t;
        RollbackLeavesCommonPrefix(w, t1, rs[..n], chain);
        var k := |Rollback(w, t1, rs[..n], |chain|).0|;
        assert Ids(rs[..n])[..k] == Ids(rs)[..k];
        assert rs[..n][..k] == rs[..k];
      }
    }
  }
}
