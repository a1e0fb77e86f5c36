/** One pass of the supply index as a function of the world it reads (src/SupplyIndex.cpp, read_record,
    update_once, publish and the error branch of run). The class SupplyIndex refines it. */
module SupplyPass {
  import opened Basics
  import opened Decimal
  import opened Text
  import opened Chain
  import opened SupplyMath
  import opened Checkpoint

  datatype Snapshot = Snapshot(
    availability: string, blockCount: nat, tipHash: Id,
    indexedBlockCount: nat, indexedThroughHeight: nat, indexedThroughHash: Id,
    mintedSupply: string, grossCoinbase: string, cumulativeFees: string, complete: bool)

  const INITIAL_SNAPSHOT := Snapshot("indexing", 0, "", 0, 0, "", "0", "0", "0", false)

  datatype State = State(running: bool, genesis: Id, records: seq<Record>, snapshot: Snapshot, disk: Disk, now: nat)

  /** Operator settings: base.genesis is ignored, the genesis is read from the chain at start. */
  datatype Settings = Settings(base: Config, batchSize: nat)
  {
    /** The constructor clamps the batch to [1, 4096]. */
    function Batch(): (b: nat)
      ensures 1 <= b <= 4096 && (1 <= batchSize <= 4096 ==> b == batchSize)
      ensures batchSize < 1 ==> b == 1
      ensures batchSize > 4096 ==> b == 4096
    {
      if batchSize < 1 then 1 else if batchSize > 4096 then 4096 else batchSize
    }

    function Binding(genesis: Id): (c: Config) {
      base.(genesis := genesis)
    }
  }

  // --- reading one block -----------------------------------------------------------------------

  /** The fee loop of read_record, stopping at a 64-bit overflow. */
  function FeeTotal(fees: seq<u64>, k: nat, sum: u64): (total: Option<u64>)
    requires k <= |fees|
    decreases |fees| - k
  {
    if k == |fees| then Some(sum)
    else if fees[k] > MAX_64 - sum then None
    else FeeTotal(fees, k + 1, sum + fees[k])
  }

  lemma {:induction false} FeeTotalIsSum(fees: seq<u64>, k: nat, sum: u64)
    requires k <= |fees| && sum == SumFees(fees[..k])
    ensures FeeTotal(fees, k, sum) == if SumFees(fees) < TWO_64 then Some(SumFees(fees)) else None
    decreases |fees| - k
  {
    if k == |fees| {
      assert fees[..k] == fees;
    } else {
      SumFeesAppend(fees, k);
      if k + 1 < |fees| {
        SumFeesAppend(fees, k + 1);
      } else {
        assert fees[..k + 1] == fees;
      }
      if fees[k] <= MAX_64 - sum {
        FeeTotalIsSum(fees, k + 1, sum + fees[k]);
      }
    }
  }

  /** read_record: the record without running totals, and the instant after its last read. */
  function ReadRecord(w: World, t: nat, height: nat, parent: Id): (r: (Option<Record>, nat))
  {
    var id := BlockRead(w, t, height);
    if id.None? then (None, t + 1)
    else
      var hash := w.IdAt(t + 1, height);
      if hash == "" || id.value != hash || (height > 0 && parent == "") then (None, t + 2)
      else if height > 0 && (w.IdAt(t + 2, height - 1) != parent || w.content(id.value).parent != parent) then
        (None, t + 3)
      else
        var t1 := if height > 0 then t + 3 else t + 2;
        var fees := TransactionsRead(w, t1, id.value);
        if fees.None? then (None, t1 + 1)
        else
          var total := FeeTotal(fees.value, 0, 0);
          var coinbase := w.content(id.value).coinbase;
          if total.None? || total.value > coinbase then (None, t1 + 1)
          else
            (Some(Record(height, hash, if height == 0 then "" else parent, coinbase, total.value,
                         coinbase - total.value, 0, 0, 0)), t1 + 1)
  }

  function LastHash(rs: seq<Record>): (h: Id) {
    if rs == [] then "" else rs[|rs| - 1].hash
  }

  /** The batch loop: read and append until target, or fail. */
  function Extend(w: World, t: nat, rs: seq<Record>, target: nat): (r: (Option<seq<Record>>, nat))
    ensures t <= r.1
    ensures r.0.Some? ==> |r.0.value| >= target && (|rs| <= target ==> |r.0.value| == target)
    decreases target - |rs|
  {
    if |rs| >= target then (Some(rs), t)
    else
      var (record, t1) := ReadRecord(w, t, |rs|, LastHash(rs));
      if record.None? then (None, t1)
      else
        var next := Append(rs, record.value);
        if next.None? then (None, t1) else Extend(w, t1, next.value, target)
  }

  // --- publishing ------------------------------------------------------------------------------

  function Published(availability: string, count: nat, tip: Id, rs: seq<Record>, complete: bool): (s: Snapshot) {
    if rs == [] then INITIAL_SNAPSHOT.(availability := availability, blockCount := count, tipHash := tip, complete := complete)
    else
      var last := rs[|rs| - 1];
      Snapshot(availability, count, tip, |rs|, last.height, last.hash,
               Print(last.cumMinted), Print(last.cumCoinbase), Print(last.cumFees), complete)
  }

  /** Reading (count, tip): two reads, or one when the chain is empty. */
  function CountAndTip(w: World, t: nat): (r: (nat, Id, nat)) {
    var count := |w.ChainAt(t)|;
    if count > 0 then (count, w.IdAt(t + 1, count - 1), t + 2) else (count, "", t + 1)
  }

  // --- update_once -----------------------------------------------------------------------------

  /** The first half: observe the tip, roll back, read a batch, recheck its last block. */
  datatype Batch = NoBatch(now: nat)
                 | Batch(records: seq<Record>, observedCount: nat, observedTip: Id, now: nat)

  function Prepare(w: World, cfg: Settings, s: State): (b: Batch)
  {
    var t := s.now;
    var count := |w.ChainAt(t)|;
    if count == 0 then NoBatch(t + 1)
    else if w.IdAt(t + 1, 0) != s.genesis then NoBatch(t + 2)
    else
      var tip := w.IdAt(t + 2, count - 1);
      var (kept, t1) := Rollback(w, t + 3, s.records, count);
      var (batch, t2) := Extend(w, t1, kept, Min(count, |kept| + cfg.Batch()));
      if batch.None? then NoBatch(t2)
      else if batch.value == [] then Batch([], count, tip, t2)
      else
        var last := batch.value[|batch.value| - 1];
        if w.IdAt(t2, last.height) != last.hash then NoBatch(t2 + 1)
        else Batch(batch.value, count, tip, t2 + 1)
  }

  /** What a pass did; attempted is what persist was given. */
  datatype Pass = Failed(now: nat, disk: Disk, attempted: Option<seq<Record>>)
                | Committed(records: seq<Record>, disk: Disk, observedCount: nat, observedTip: Id,
                            finalCount: nat, finalTip: Id, complete: bool, now: nat)

  function UpdateOnce(w: World, cfg: Settings, s: State, stage: Stage): (p: Pass)
  {
    match Prepare(w, cfg, s)
    case NoBatch(t) => Failed(t, s.disk, None)
    case Batch(rs, count, tip, t) =>
      var disk := DiskAt(s.disk, Encode(cfg.Binding(s.genesis), rs), stage);
      if !PersistSucceeds(stage) then Failed(t, disk, Some(rs))
      else
        var (finalCount, finalTip, t1) := CountAndTip(w, t);
        Committed(rs, disk, count, tip, finalCount, finalTip,
                  finalCount == |rs| && finalCount == count && finalTip == tip, t1)
  }

  /** One turn of run's loop. */
  function Turn(w: World, cfg: Settings, s: State, stage: Stage): (s': State)
  {
    match UpdateOnce(w, cfg, s, stage)
    case Committed(rs, disk, _, _, count, tip, complete, t) =>
      s.(records := rs, disk := disk, now := t,
         snapshot := Published(if complete then "current" else "indexing", count, tip, rs, complete))
    case Failed(t, disk, _) =>
      var (count, tip, t1) := CountAndTip(w, t);
      s.(disk := disk, now := t1, snapshot := Published("error", count, tip, s.records, false))
  }

  lemma TurnKeepsRunning(w: World, cfg: Settings, s: State, stage: Stage)
    ensures Turn(w, cfg, s, stage).running == s.running
  {
    hide UpdateOnce;
  }

  /** What load makes of a state file: its records, or none when there is no file or it is rejected. */
  function Loaded(cfg: Settings, genesis: Id, f: Option<File>): (rs: seq<Record>) {
    var decoded := if f.None? then None else Decode(cfg.Binding(genesis), f.value.text);
    if decoded.Some? then decoded.value else []
  }

  /** Construction and start: read the genesis, load the checkpoint, or refuse to run. */
  function Start(w: World, cfg: Settings, disk: Disk, now: nat): (s: State) {
    var nonEmpty := |w.ChainAt(now)| > 0;
    var genesis := if nonEmpty then w.IdAt(now + 1, 0) else "";
    var t := if nonEmpty then now + 2 else now + 1;
    if cfg.base.resetId == "" || genesis == "" then
      State(false, genesis, [], Published("error", 0, "", [], false), disk, t)
    else
      State(true, genesis, Loaded(cfg, genesis, disk.state), INITIAL_SNAPSHOT, disk, t)
  }

  /** A turn, a clean restart, or a crash after any step of the turn's persist followed by a restart. */
  datatype Event = Tick(stage: Stage) | Restart | Crash(stage: Stage, loss: Loss)

  function Step(w: World, cfg: Settings, s: State, e: Event): (s': State)
  {
    match e
    case Tick(stage) => if s.running then Turn(w, cfg, s, stage) else s
    case Restart => Start(w, cfg, s.disk, s.now)
    case Crash(stage, loss) =>
      var died := if s.running then Turn(w, cfg, s, stage) else s;
      Start(w, cfg, AfterCrash(died.disk, loss), died.now)
  }

  function Run(w: World, cfg: Settings, s: State, events: seq<Event>): (s': State)
  {
    if events == [] then s
    else Step(w, cfg, Run(w, cfg, s, events[..|events| - 1]), events[|events| - 1])
  }
}
