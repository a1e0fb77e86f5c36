/** When a snapshot marked complete is the canonical chain, and how soon one is published. */
module SupplyCompleteness {
  import opened Basics
  import opened Text
  import opened Chain
  import opened SupplyMath
  import opened Checkpoint
  import opened SupplyPass
  import opened SupplyTheorems

  // --- what complete means ---------------------------------------------------------------------

  /** The last record of a prepared batch was canonical at its last read; the tip was read two instants
      after the count. */
  lemma BatchWasChecked(w: World, cfg: Settings, s: State)
    ensures var b := Prepare(w, cfg, s);
            b.Batch? ==>
              && b.observedCount == |w.ChainAt(s.now)| > 0
              && b.observedTip == w.IdAt(s.now + 2, b.observedCount - 1)
              && b.records != [] && s.now + 4 <= b.now
              && w.IdAt(b.now - 1, LastHeight(b.records)) == LastHash(b.records)
  {
    hide Rollback, ReadRecord, Append;
    var count := |w.ChainAt(s.now)|;
    var rolled := Rollback(w, s.now + 3, s.records, count);
    var target := Min(count, |rolled.0| + cfg.Batch());
    assert count > 0 ==> target > 0;
  }

  function LastHeight(rs: seq<Record>): (h: nat) {
    if rs == [] then 0 else rs[|rs| - 1].height
  }

  lemma KnownTipKnowsRecords(w: World, t: nat, rs: seq<Record>)
    requires w.Valid() && Faithful(w.content, rs) && rs != []
    ensures w.IdAt(t, |rs| - 1) == LastHash(rs) <==> StartsWith(w.ChainAt(t), rs)
  {
    var n := |rs| - 1;
    var chain := w.ChainAt(t);
    assert w.LinkedAt(t) && LinkedBlock(w.content, Ids(rs), n);
    if w.IdAt(t, n) == LastHash(rs) {
      SharedBlockSharesPast(w.content, Ids(rs), chain, n);
      assert Ids(rs)[..n + 1] == Ids(rs);
    }
    assert StartsWith(chain, rs) ==> chain[n] == chain[..|rs|][n] == Ids(rs)[n];
  }

  /** The records are, block for block, the first blocks of the chain. */
  ghost predicate StartsWith(chain: seq<Id>, rs: seq<Record>) {
    |rs| <= |chain| && Ids(rs) == chain[..|rs|]
  }

  ghost predicate CompletePass(w: World, cfg: Settings, s: State, stage: Stage) {
    var p := UpdateOnce(w, cfg, s, stage);
    p.Committed? && p.complete
  }

  /** A complete pass commits the batch it prepared, which has as many records as the chain had blocks both
      before and after. */
  lemma CompletePassShape(w: World, cfg: Settings, s: State, stage: Stage)
    ensures var b, s' := Prepare(w, cfg, s), Turn(w, cfg, s, stage);
            CompletePass(w, cfg, s, stage) ==>
              && b.Batch? && s'.records == b.records && s'.now == b.now + (if b.records == [] then 1 else 2)
              && s'.snapshot == Published("current", |b.records|, b.observedTip, b.records, true)
              && b.observedCount == |b.records| == |w.ChainAt(b.now)|
              && (b.records != [] ==> w.IdAt(b.now + 1, |b.records| - 1) == b.observedTip)
  {
    hide Prepare, Encode, DiskAt, Published;
  }

  /** What a complete pass leaves behind, in terms of what it read and when. */
  lemma CompletePassFacts(w: World, cfg: Settings, s: State, stage: Stage)
    requires Faithful(w.content, s.records) && w.Valid()
    ensures var s' := Turn(w, cfg, s, stage);
            var n := |s'.records|;
            CompletePass(w, cfg, s, stage) ==>
              && s'.snapshot.complete && s'.snapshot.blockCount == n > 0 && s.now + 6 <= s'.now
              && Faithful(w.content, s'.records)
              && s'.snapshot.indexedThroughHash == LastHash(s'.records)
              && |w.ChainAt(s.now)| == n && |w.ChainAt(s'.now - 2)| == n
              && w.IdAt(s.now + 2, n - 1) == w.IdAt(s'.now - 1, n - 1) == s'.snapshot.tipHash
              && w.IdAt(s'.now - 3, n - 1) == LastHash(s'.records)
  {
    hide Prepare, Turn, CompletePass, Linked;
    CompletePassShape(w, cfg, s, stage);
    BatchWasChecked(w, cfg, s);
    PrepareIsFaithful(w, cfg, s);
    var b := Prepare(w, cfg, s);
    assert b.Batch? ==> Continues(b.records, |b.records| - 1);
  }

  /** On every schedule: of a snapshot marked complete, the records are the chain at the instant the tip was
      read exactly when the two hashes it publishes agree and the chain had not outgrown the published count
      by then. The hashes alone decide whether the records are the first blocks of that chain, and decide
      everything when count and tip were read from one chain. */
  lemma CompleteIsCanonicalIffHashesAgree(w: World, cfg: Settings, s: State, stage: Stage)
    requires w.Valid() && Faithful(w.content, s.records)
    ensures var s' := Turn(w, cfg, s, stage);
            CompletePass(w, cfg, s, stage) ==>
            && s'.snapshot.complete && s'.now > 0
            && (Ids(s'.records) == w.ChainAt(s'.now - 1)
                <==> && s'.snapshot.indexedThroughHash == s'.snapshot.tipHash
                     && |w.ChainAt(s'.now - 1)| == s'.snapshot.blockCount)
            && (s'.snapshot.indexedThroughHash == s'.snapshot.tipHash
                <==> StartsWith(w.ChainAt(s'.now - 1), s'.records))
            && (OneChain(w, s'.now - 2, s'.now - 1) ==>
                  (Ids(s'.records) == w.ChainAt(s'.now - 1)
                   <==> s'.snapshot.indexedThroughHash == s'.snapshot.tipHash))
  {
    hide Turn, CompletePass, Faithful;
    CompletePassFacts(w, cfg, s, stage);
    var s' := Turn(w, cfg, s, stage);
    if CompletePass(w, cfg, s, stage) {
      KnownTipKnowsRecords(w, s'.now - 1, s'.records);
      var chain := w.ChainAt(s'.now - 1);
      assert chain[..|chain|] == chain;
    }
  }

  ghost function Work(work: Id -> nat, chain: seq<Id>): (n: nat) {
    if chain == [] then 0 else work(chain[|chain| - 1])
  }

  ghost predicate RisesAt(w: World, work: Id -> nat, t: nat) {
    w.ChainAt(t + 1) == w.ChainAt(t) || Work(work, w.ChainAt(t)) < Work(work, w.ChainAt(t + 1))
  }

  /** The daemon switches chains only to one with strictly more cumulative work. */
  ghost predicate Rising(w: World, work: Id -> nat) {
    forall t: nat :: RisesAt(w, work, t)
  }

  lemma {:induction false} WorkNeverReturns(w: World, work: Id -> nat, t: nat, u: nat)
    requires Rising(w, work) && t <= u
    ensures w.ChainAt(t) == w.ChainAt(u) || Work(work, w.ChainAt(t)) < Work(work, w.ChainAt(u))
    decreases u - t
  {
    if t < u {
      assert RisesAt(w, work, t);
      WorkNeverReturns(w, work, t + 1, u);
    }
  }

  /** With rising work, and each (count, tip) pair read from one chain, complete is never wrong: the
      records are block for block the canonical chain and end at its tip. */
  lemma CompleteIsCanonical(w: World, cfg: Settings, s: State, stage: Stage, work: Id -> nat)
    requires w.Valid() && Faithful(w.content, s.records) && Rising(w, work)
    ensures var s' := Turn(w, cfg, s, stage);
            CompletePass(w, cfg, s, stage) && OneChain(w, s.now, s.now + 2) && OneChain(w, s'.now - 2, s'.now - 1) ==>
            && s'.now > 0 && Ids(s'.records) == w.ChainAt(s'.now - 1)
            && s'.snapshot.indexedThroughHash == s'.snapshot.tipHash
  {
    hide Turn, CompletePass, Faithful, Rising;
    CompletePassFacts(w, cfg, s, stage);
    var s' := Turn(w, cfg, s, stage);
    if CompletePass(w, cfg, s, stage) && OneChain(w, s.now, s.now + 2) && OneChain(w, s'.now - 2, s'.now - 1) {
      var first, checked, last := s.now + 2, s'.now - 3, s'.now - 1;
      assert Work(work, w.ChainAt(first)) == Work(work, w.ChainAt(last));
      WorkNeverReturns(w, work, first, checked);
      WorkNeverReturns(w, work, checked, last);
      assert w.ChainAt(checked) == w.ChainAt(last);
      KnownTipKnowsRecords(w, checked, s'.records);
      assert w.ChainAt(last)[..|s'.records|] == w.ChainAt(last);
    }
  }

  /** The same after any run: restarts, failed passes, crashes and reorganisations included. */
  lemma CompleteIsCanonicalInEveryRun(
      w: World, cfg: Settings, d: Disk, now: nat, events: seq<Event>, stage: Stage, work: Id -> nat)
    requires w.Valid() && Clean(cfg.base.network) && OwnFile(w, cfg, d.state) && OwnFile(w, cfg, d.durable)
    requires Rising(w, work)
    ensures var s := Run(w, cfg, Start(w, cfg, d, now), events);
            var s' := Turn(w, cfg, s, stage);
            CompletePass(w, cfg, s, stage) && OneChain(w, s.now, s.now + 2) && OneChain(w, s'.now - 2, s'.now - 1) ==>
            && s'.now > 0 && Ids(s'.records) == w.ChainAt(s'.now - 1)
            && s'.snapshot.indexedThroughHash == s'.snapshot.tipHash
  {
    hide Run, Start, Turn, CompletePass, Faithful, Rising, OwnFile, Describes;
    EveryRunPublishesExactTotals(w, cfg, d, now, events);
    CompleteIsCanonical(w, cfg, Run(w, cfg, Start(w, cfg, d, now), events), stage, work);
  }

  /** A count and a tip read from one chain. */
  ghost predicate OneChain(w: World, t: int, u: int) {
    0 <= t && 0 <= u && w.ChainAt(t) == w.ChainAt(u)
  }

  // --- the A-B-A schedule ----------------------------------------------------------------------

  function AbaBlock(id: Id): (b: Block) {
    if id == "g" then Block("", 10, []) else if id == "b" then Block("g", 7, []) else Block("g", 5, [])
  }

  function AbaInstant(t: nat): (i: Instant) {
    Instant(if 3 <= t < 11 then ["g", "b"] else ["g", "a"], false)
  }

  /** The chain is A while the tip is observed, B while the batch is read, and A again at the end. */
  const ABA := World(AbaBlock, AbaInstant)

  const FRESH := State(true, "g", [], INITIAL_SNAPSHOT, Disk(None, None, None), 0)

  lemma AbaValid()
    ensures ABA.Valid()
  {
    assert "g"[0] != NULL_ID[0] && "a"[0] != NULL_ID[0] && "b"[0] != NULL_ID[0];
    forall t: nat ensures ABA.LinkedAt(t) {
      var c := ABA.ChainAt(t);
      assert LinkedBlock(ABA.content, c, 0) && LinkedBlock(ABA.content, c, 1);
    }
  }

  lemma AbaReads()
    ensures var r0 := ReadRecord(ABA, 3, 0, "");
            && r0 == (Some(Record(0, "g", "", 10, 0, 10, 0, 0, 0)), 6)
            && Append([], r0.0.value) == Some([Record(0, "g", "", 10, 0, 10, 10, 0, 10)])
    ensures var one := [Record(0, "g", "", 10, 0, 10, 10, 0, 10)];
            var r1 := ReadRecord(ABA, 6, 1, "g");
            && r1 == (Some(Record(1, "b", "g", 7, 0, 7, 0, 0, 0)), 10)
            && Append(one, r1.0.value) == Some(one + [Record(1, "b", "g", 7, 0, 7, 17, 0, 17)])
  {
    assert "b"[0] != "g"[0];
    assert FeeTotal(AbaBlock("g").fees, 0, 0) == Some(0);
    assert FeeTotal(AbaBlock("b").fees, 0, 0) == Some(0);
    assert ReadRecord(ABA, 3, 0, "").0.Some?;
    assert ReadRecord(ABA, 6, 1, "g").0.Some?;
    var genesis := Record(0, "g", "", 10, 0, 10, 10, 0, 10);
    assert [] + [genesis] == [genesis];
  }

  lemma AbaBatch(cfg: Settings)
    requires cfg.Batch() >= 2
    ensures Prepare(ABA, cfg, FRESH).Batch?
    ensures var b := Prepare(ABA, cfg, FRESH);
            |b.records| == 2 && b.records[1].hash == "b" && b.observedCount == 2 && b.observedTip == "a" && b.now == 11
  {
    AbaReads();
    var one := [Record(0, "g", "", 10, 0, 10, 10, 0, 10)];
    var two := one + [Record(1, "b", "g", 7, 0, 7, 17, 0, 17)];
    hide ReadRecord, Append;
    assert Extend(ABA, 10, two, 2) == (Some(two), 10);
    assert Extend(ABA, 6, one, 2) == (Some(two), 10);
    assert Extend(ABA, 3, [], 2) == (Some(two), 10);
  }

  /** Without rising work a switch from A to B and back between the two tip reads publishes, as complete,
      the totals of B under the tip of A. */
  lemma AbaDefeatsComplete(cfg: Settings)
    requires cfg.Batch() >= 2
    ensures ABA.Valid()
    ensures var s' := Turn(ABA, cfg, FRESH, DirectorySynced);
            && s'.snapshot.complete
            && s'.snapshot.tipHash == "a" && s'.snapshot.indexedThroughHash == "b"
            && Ids(s'.records) != ABA.ChainAt(s'.now - 1)
  {
    AbaValid();
    AbaBatch(cfg);
    var b := Prepare(ABA, cfg, FRESH);
    assert CountAndTip(ABA, 11) == (2, "a", 13);
    assert Ids(b.records)[1] == "b";
  }

  function GrowthInstant(t: nat): (i: Instant) {
    Instant(if t < 8 then ["g"] else ["g", "a"], false)
  }

  /** A block arrives between the last count read and the last tip read. */
  const GROWTH := World(AbaBlock, GrowthInstant)

  /** Agreeing hashes alone are not enough: the snapshot is marked complete while a block is missing. */
  lemma GrowthDefeatsComplete(cfg: Settings)
    ensures GROWTH.Valid()
    ensures var s' := Turn(GROWTH, cfg, FRESH, DirectorySynced);
            && s'.snapshot.complete
            && s'.snapshot.indexedThroughHash == s'.snapshot.tipHash == "g"
            && Ids(s'.records) != GROWTH.ChainAt(s'.now - 1)
  {
    assert "g"[0] != NULL_ID[0] && "a"[0] != NULL_ID[0];
    forall t: nat ensures GROWTH.LinkedAt(t) {
      var c := GROWTH.ChainAt(t);
      assert LinkedBlock(GROWTH.content, c, 0) && (|c| > 1 ==> LinkedBlock(GROWTH.content, c, 1));
    }
    var one := [Record(0, "g", "", 10, 0, 10, 10, 0, 10)];
    GrowthBatch(cfg);
    assert CountAndTip(GROWTH, 7) == (1, "g", 9);
    assert |Ids(one)| == 1;
  }

  lemma GrowthBatch(cfg: Settings)
    ensures Prepare(GROWTH, cfg, FRESH) == Batch([Record(0, "g", "", 10, 0, 10, 10, 0, 10)], 1, "g", 7)
  {
    assert FeeTotal(AbaBlock("g").fees, 0, 0) == Some(0);
    var one := [Record(0, "g", "", 10, 0, 10, 10, 0, 10)];
    var r := ReadRecord(GROWTH, 3, 0, "");
    assert r == (Some(Record(0, "g", "", 10, 0, 10, 0, 0, 0)), 6);
    assert [] + one == one;
    assert Append([], r.0.value) == Some(one);
    hide ReadRecord, Append;
    assert Extend(GROWTH, 6, one, 1) == (Some(one), 6);
    assert Extend(GROWTH, 3, [], 1) == (Some(one), 6);
  }

  // --- progress on a stable chain --------------------------------------------------------------

  /** From an instant on the chain is c, no read fails, and every block's fees are covered. */
  ghost predicate Quiet(w: World, c: seq<Id>, from: nat) {
    && c != []
    && (forall t: nat :: from <= t ==> w.ChainAt(t) == c && !w.schedule(t).fault)
    && forall i :: 0 <= i < |c| ==> SumFees(w.content(c[i]).fees) <= w.content(c[i]).coinbase
  }

  lemma QuietRead(w: World, c: seq<Id>, t: nat, rs: seq<Record>)
    requires w.Valid() && Quiet(w, c, t) && Faithful(w.content, rs)
    requires |rs| < |c| && Ids(rs) == c[..|rs|]
    ensures var r := ReadRecord(w, t, |rs|, LastHash(rs));
            && r.0.Some? && t <= r.1
            && Append(rs, r.0.value).Some?
            && var out := Append(rs, r.0.value).value;
               && Faithful(w.content, out) && |out| == |rs| + 1 && Ids(out) == c[..|rs| + 1]
  {
    var n := |rs|;
    assert w.ChainAt(t) == w.ChainAt(t + 1) == w.ChainAt(t + 2) == w.ChainAt(t + 3) == c;
    assert w.LinkedAt(t) && LinkedBlock(w.content, c, n);
    FeeTotalIsSum(w.content(c[n]).fees, 0, 0);
    if n > 0 {
      assert LastHash(rs) == Ids(rs)[n - 1] == c[n - 1];
    }
    ReadRecordIsFaithful(w, t, rs);
    var r := ReadRecord(w, t, n, LastHash(rs)).0.value;
    var out := Append(rs, r).value;
    assert Ids(out) == Ids(rs) + [c[n]];
  }

  lemma {:induction false} QuietExtend(w: World, c: seq<Id>, t: nat, rs: seq<Record>, target: nat)
    requires w.Valid() && Quiet(w, c, t) && Faithful(w.content, rs)
    requires |rs| <= target <= |c| && Ids(rs) == c[..|rs|]
    ensures var (out, t') := Extend(w, t, rs, target);
            out.Some? && t <= t' && Faithful(w.content, out.value) && Ids(out.value) == c[..target]
    decreases target - |rs|
  {
    if |rs| < target {
      QuietRead(w, c, t, rs);
      var r := ReadRecord(w, t, |rs|, LastHash(rs));
      QuietExtend(w, c, r.1, Append(rs, r.0.value).value, target);
    }
  }

  /** What Prepare does when its own reads see count, genesis, tip and last record in place. */
  lemma PrepareShape(w: World, cfg: Settings, s: State, count: nat, tip: Id, kept: seq<Record>, t1: nat, out: seq<Record>, t2: nat)
    requires |w.ChainAt(s.now)| == count && count > 0
    requires w.IdAt(s.now + 1, 0) == s.genesis && w.IdAt(s.now + 2, count - 1) == tip
    requires Rollback(w, s.now + 3, s.records, count) == (kept, t1)
    requires Extend(w, t1, kept, Min(count, |kept| + cfg.Batch())) == (Some(out), t2)
    requires out != [] && w.IdAt(t2, LastHeight(out)) == LastHash(out)
    ensures Prepare(w, cfg, s) == Batch(out, count, tip, t2 + 1)
  {
    hide Rollback, Extend;
  }

  /** Rolling back and reading a batch on a stable chain. */
  lemma QuietBatch(w: World, cfg: Settings, c: seq<Id>, s: State, k: nat) returns (kept: seq<Record>, t1: nat, out: seq<Record>, t2: nat)
    requires w.Valid() && Quiet(w, c, s.now)
    requires Faithful(w.content, s.records) && IsLongestCommonPrefix(k, Ids(s.records), c)
    ensures Rollback(w, s.now + 3, s.records, |c|) == (kept, t1)
    ensures Extend(w, t1, kept, Min(|c|, |kept| + cfg.Batch())) == (Some(out), t2)
    ensures s.now + 3 <= t2 && Faithful(w.content, out) && Ids(out) == c[..Min(|c|, k + cfg.Batch())]
  {
    hide Rollback, Extend, Linked;
    RollbackLeavesCommonPrefix(w, s.now + 3, s.records, c);
    kept, t1 := Rollback(w, s.now + 3, s.records, |c|).0, Rollback(w, s.now + 3, s.records, |c|).1;
    CommonPrefixUnique(|kept|, k, Ids(s.records), c);
    FaithfulPrefix(w.content, s.records, k);
    RollbackTime(w, s.now + 3, s.records, |c|);
    var target := Min(|c|, k + cfg.Batch());
    QuietExtend(w, c, t1, kept, target);
    var extended := Extend(w, t1, kept, target);
    out, t2 := extended.0.value, extended.1;
  }

  lemma QuietPrepare(w: World, cfg: Settings, c: seq<Id>, s: State, k: nat)
    requires w.Valid() && Quiet(w, c, s.now) && c[0] == s.genesis
    requires Faithful(w.content, s.records) && IsLongestCommonPrefix(k, Ids(s.records), c)
    ensures var b := Prepare(w, cfg, s);
            && b.Batch? && s.now < b.now
            && b.observedCount == |c| && b.observedTip == c[|c| - 1]
            && Faithful(w.content, b.records) && Ids(b.records) == c[..Min(|c|, k + cfg.Batch())]
  {
    var kept, t1, out, t2 := QuietBatch(w, cfg, c, s, k);
    var n := Min(|c|, k + cfg.Batch());
    LastOfPrefix(w.content, out, c, n);
    QuietReads(w, c, s.now, s.now, 0);
    QuietReads(w, c, s.now, s.now + 1, 0);
    QuietReads(w, c, s.now, s.now + 2, |c| - 1);
    QuietReads(w, c, s.now, t2, n - 1);
    hide Prepare, Rollback, Extend, Linked, IsLongestCommonPrefix, Quiet, Faithful, LastHeight, LastHash;
    PrepareShape(w, cfg, s, |c|, c[|c| - 1], kept, t1, out, t2);
  }

  lemma QuietReads(w: World, c: seq<Id>, from: nat, t: nat, height: nat)
    requires Quiet(w, c, from) && from <= t && height < |c|
    ensures |w.ChainAt(t)| == |c| && w.IdAt(t, height) == c[height]
  {
  }

  lemma LastOfPrefix(content: Id -> Block, rs: seq<Record>, c: seq<Id>, n: nat)
    requires Faithful(content, rs) && 0 < n <= |c| && Ids(rs) == c[..n]
    ensures rs != [] && LastHeight(rs) == n - 1 && LastHash(rs) == c[n - 1]
  {
    assert |rs| == |Ids(rs)| == n && Ids(rs)[n - 1] == c[n - 1];
    assert Continues(rs, n - 1);
  }

  lemma RollbackTime(w: World, t: nat, rs: seq<Record>, count: nat)
    ensures t <= Rollback(w, t, rs, count).1
  {
  }

  /** A pass over a stable chain keeps the longest common prefix and reads one batch beyond it; it is
      complete exactly when the batch reaches the tip. */
  lemma QuietPass(w: World, cfg: Settings, c: seq<Id>, s: State, stage: Stage, k: nat)
    requires w.Valid() && Quiet(w, c, s.now) && c[0] == s.genesis
    requires Faithful(w.content, s.records) && IsLongestCommonPrefix(k, Ids(s.records), c)
    requires PersistSucceeds(stage)
    ensures var p := UpdateOnce(w, cfg, s, stage);
            && p.Committed? && s.now <= p.now
            && Faithful(w.content, p.records)
            && Ids(p.records) == c[..Min(|c|, k + cfg.Batch())]
            && (p.complete <==> k + cfg.Batch() >= |c|)
  {
    hide Prepare, Encode, DiskAt, Faithful;
    QuietPrepare(w, cfg, c, s, k);
    var t := Prepare(w, cfg, s).now;
    assert w.ChainAt(t) == w.ChainAt(t + 1) == c;
  }

  lemma CommonPrefixUnique(j: nat, k: nat, a: seq<Id>, b: seq<Id>)
    requires IsLongestCommonPrefix(j, a, b) && IsLongestCommonPrefix(k, a, b)
    ensures j == k
  {
  }

  /** Passes needed from common prefix k: at least one, and enough batches to cover the rest. */
  function PassesNeeded(n: nat, k: nat, batch: nat): (m: nat)
    requires k <= n && 1 <= batch
  {
    var batches := (n - k + batch - 1) / batch;
    if batches < 1 then 1 else batches
  }

  lemma EnoughPasses(n: nat, k: nat, batch: nat, m: nat)
    requires k <= n && 1 <= batch && 1 <= m
    ensures m >= PassesNeeded(n, k, batch) <==> k + m * batch >= n
  {
    var d := n - k + batch - 1;
    var q := d / batch;
    DivBounds(d, batch);
    if q <= m {
      MulMonotone(q, m, batch);
      MulMonotone(q + 1, m + 1, batch);
    } else {
      MulMonotone(m + 1, q, batch);
    }
  }

  function Ticks(stages: seq<Stage>): (events: seq<Event>)
    ensures |events| == |stages|
  {
    seq(|stages|, i requires 0 <= i < |stages| => Tick(stages[i]))
  }

  /** The state s1, m passes after s: m batches beyond the common prefix k are indexed, and the snapshot
      is complete exactly when enough passes were made. */
  ghost predicate IndexedAfter(w: World, cfg: Settings, c: seq<Id>, s: State, k: nat, m: nat, s1: State)
    requires k <= |c|
  {
    && s1.running && s1.genesis == s.genesis && s.now <= s1.now
    && Faithful(w.content, s1.records)
    && Ids(s1.records) == c[..Min(|c|, k + m * cfg.Batch())]
    && (s1.snapshot.complete <==> m >= PassesNeeded(|c|, k, cfg.Batch()))
  }

  lemma QuietTurn(w: World, cfg: Settings, c: seq<Id>, s: State, stage: Stage, k: nat)
    requires w.Valid() && Quiet(w, c, s.now) && c[0] == s.genesis && s.running
    requires Faithful(w.content, s.records) && IsLongestCommonPrefix(k, Ids(s.records), c)
    requires PersistSucceeds(stage)
    ensures var s1 := Step(w, cfg, s, Tick(stage));
            && s1.running && s1.genesis == s.genesis && s.now <= s1.now
            && Faithful(w.content, s1.records)
            && Ids(s1.records) == c[..Min(|c|, k + cfg.Batch())]
            && (s1.snapshot.complete <==> k + cfg.Batch() >= |c|)
  {
    hide UpdateOnce, Faithful;
    QuietPass(w, cfg, c, s, stage, k);
  }

  lemma PrefixIsCommon(a: seq<Id>, c: seq<Id>, k: nat)
    requires k <= |c| && a == c[..k]
    ensures IsLongestCommonPrefix(k, a, c)
  {
    assert a[..k] == a;
  }

  lemma NextBatch(n: nat, k: nat, m: nat, b: nat)
    requires k <= n
    ensures (m + 1) * b == m * b + b && m * b >= 0 && k + 0 * b == k
    ensures Min(n, Min(n, k + m * b) + b) == Min(n, k + (m + 1) * b)
    ensures Min(n, k + m * b) + b >= n <==> k + (m + 1) * b >= n
  {
  }

  lemma OneMorePass(w: World, cfg: Settings, c: seq<Id>, s: State, k: nat, m: nat, s1: State, stage: Stage)
    requires w.Valid() && Quiet(w, c, s.now) && c[0] == s.genesis && k <= |c| && PersistSucceeds(stage)
    requires s1.running && s1.genesis == s.genesis && s.now <= s1.now && Faithful(w.content, s1.records)
    requires IsLongestCommonPrefix(Min(|c|, k + m * cfg.Batch()), Ids(s1.records), c)
    ensures IndexedAfter(w, cfg, c, s, k, m + 1, Step(w, cfg, s1, Tick(stage)))
  {
    hide Step, Faithful, IsLongestCommonPrefix, PassesNeeded;
    NextBatch(|c|, k, m, cfg.Batch());
    QuietTurn(w, cfg, c, s1, stage, Min(|c|, k + m * cfg.Batch()));
    EnoughPasses(|c|, k, cfg.Batch(), m + 1);
  }

  /** On a stable chain of n valid blocks, from any state reached, each successful pass extends the index
      by one batch, and the snapshot is complete from pass max(1, ceil((n - common prefix) / batch)) on
      and not before. */
  lemma {:induction false} StableChainIsIndexed(
      w: World, cfg: Settings, c: seq<Id>, s: State, k: nat, stages: seq<Stage>)
    requires w.Valid() && Quiet(w, c, s.now) && s.running && c[0] == s.genesis
    requires Faithful(w.content, s.records) && IsLongestCommonPrefix(k, Ids(s.records), c)
    requires stages != [] && forall i :: 0 <= i < |stages| ==> PersistSucceeds(stages[i])
    ensures IndexedAfter(w, cfg, c, s, k, |stages|, Run(w, cfg, s, Ticks(stages)))
    decreases |stages|
  {
    assert k <= |c|;
    hide Step, Faithful, IsLongestCommonPrefix, PassesNeeded, Quiet;
    var m := |stages| - 1;
    var init := stages[..m];
    assert Ticks(stages)[..m] == Ticks(init);
    var s1 := Run(w, cfg, s, Ticks(init));
    NextBatch(|c|, k, m, cfg.Batch());
    if m > 0 {
      StableChainIsIndexed(w, cfg, c, s, k, init);
      PrefixIsCommon(Ids(s1.records), c, Min(|c|, k + m * cfg.Batch()));
    }
    OneMorePass(w, cfg, c, s, k, m, s1, stages[m]);
  }
}
