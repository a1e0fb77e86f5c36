/** The supply index as the source runs it: an object whose fields each pass updates. Every method is proved
    equal to its function in SupplyPass, so the theorems about those functions are about this object. */
module SupplyIndexObject {
  import opened Basics
  import opened Decimal
  import opened Chain
  import opened SupplyMath
  import opened Checkpoint
  import opened SupplyPass
  import opened SupplyTheorems
  import SupplyCompleteness

  class SupplyIndex {
    const daemon: Daemon
    const cfg: Settings
    var running: bool
    var genesis: Id
    var records: seq<Record>
    var snapshot: Snapshot
    var disk: Disk

    ghost function Abs(): (s: State)
      reads this, daemon
    {
      State(running, genesis, records, snapshot, disk, daemon.now)
    }

    constructor (daemon: Daemon, cfg: Settings, disk: Disk)
      ensures this.daemon == daemon && this.cfg == cfg && this.disk == disk && !running
    {
      this.daemon := daemon;
      this.cfg := cfg;
      this.disk := disk;
      running := false;
      genesis := "";
      records := [];
      snapshot := INITIAL_SNAPSHOT;
    }

    method Open()
      modifies this, daemon
      ensures Abs() == Start(daemon.world, cfg, old(disk), old(daemon.now))
    {
      records := [];
      snapshot := INITIAL_SNAPSHOT;
      genesis := "";
      var count := daemon.BlockCount();
      if count > 0 {
        genesis := daemon.BlockId(0);
      }
      running := true;
      if cfg.base.resetId == "" || genesis == "" {
        running := false;
        Publish("error", 0, "", [], false);
        return;
      }
      var file := if disk.state.None? then None else Some(disk.state.value.text);
      var ok, loaded := Load(cfg.Binding(genesis), file);
      if ok && loaded.Some? {
        records := loaded.value;
      }
    }

    method FetchRecord(height: nat, parent: Id) returns (r: Option<Record>)
      modifies daemon
      ensures (r, daemon.now) == ReadRecord(daemon.world, old(daemon.now), height, parent)
    {
      var id := daemon.BlockAt(height);
      if id.None? {
        return None;
      }
      var hash := daemon.BlockId(height);
      if hash == "" || id.value != hash || (height > 0 && parent == "") {
        return None;
      }
      var block := daemon.world.content(id.value);
      if height > 0 {
        var actual := daemon.BlockId(height - 1);
        if actual != parent || block.parent != parent {
          return None;
        }
      }
      var fees := daemon.Transactions(id.value);
      if fees.None? {
        return None;
      }
      var total: u64 := 0;
      var i := 0;
      while i < |fees.value|
        invariant i <= |fees.value|
        invariant FeeTotal(fees.value, 0, 0) == FeeTotal(fees.value, i, total)
      {
        if fees.value[i] > MAX_64 - total {
          return None;
        }
        total := total + fees.value[i];
        i := i + 1;
      }
      var minted := MintedDelta(block.coinbase, total);
      if minted.None? {
        return None;
      }
      r := Some(Record(height, hash, if height == 0 then "" else parent, block.coinbase, total, minted.value, 0, 0, 0));
    }

    /** The stage names the last step that takes effect. */
    method Persist(rs: seq<Record>, stage: Stage) returns (ok: bool)
      modifies this`disk
      ensures ok <==> PersistSucceeds(stage)
      ensures disk == DiskAt(old(disk), Encode(cfg.Binding(genesis), rs), stage)
    {
      var text := Format(cfg.Binding(genesis), rs);
      if stage.Untouched? {
        return false;
      }
      if stage.Written? {
        disk := WriteTemp(disk, text[..Min(stage.chars, |text|)]);
        return false;
      }
      disk := SyncTemp(WriteTemp(disk, text));
      if stage.Synced? {
        return false;
      }
      disk := RenameTemp(disk);
      if stage.DirectorySynced? {
        disk := SyncDirectory(disk);
      }
      ok := true;
    }

    /** Defaults first, then the fields of the last record. Whatever blocks the records describe faithfully,
        the new snapshot states their issuance. */
    method Publish(availability: string, count: nat, tip: Id, rs: seq<Record>, complete: bool)
      modifies this`snapshot
      ensures snapshot == Published(availability, count, tip, rs, complete)
      ensures forall content :: Faithful(content, rs) ==> Describes(content, snapshot, Ids(rs))
    {
      var next := INITIAL_SNAPSHOT;
      next := next.(availability := availability, blockCount := count, tipHash := tip);
      next := next.(indexedBlockCount := |rs|, complete := complete);
      if rs != [] {
        var last := rs[|rs| - 1];
        next := next.(indexedThroughHeight := last.height, indexedThroughHash := last.hash);
        next := next.(mintedSupply := Print(last.cumMinted), grossCoinbase := Print(last.cumCoinbase),
                      cumulativeFees := Print(last.cumFees));
      }
      snapshot := next;
      forall content | Faithful(content, rs) ensures Describes(content, snapshot, Ids(rs)) {
        PublishedDescribes(content, availability, count, tip, rs, complete);
      }
    }

    method ReadCountAndTip() returns (count: nat, tip: Id)
      modifies daemon
      ensures (count, tip, daemon.now) == CountAndTip(daemon.world, old(daemon.now))
    {
      count := daemon.BlockCount();
      tip := "";
      if count > 0 {
        tip := daemon.BlockId(count - 1);
      }
    }

    method ExtendBatch(kept: seq<Record>, target: nat) returns (r: Option<seq<Record>>)
      modifies daemon
      ensures (r, daemon.now) == Extend(daemon.world, old(daemon.now), kept, target)
    {
      hide ReadRecord, Append;
      var candidate := kept;
      while |candidate| < target
        invariant Extend(daemon.world, old(daemon.now), kept, target) == Extend(daemon.world, daemon.now, candidate, target)
        decreases target - |candidate|
      {
        var record := FetchRecord(|candidate|, LastHash(candidate));
        if record.None? {
          return None;
        }
        AppendGrows(candidate, record.value);
        var ok, next := AppendRecord(candidate, record.value);
        if !ok {
          return None;
        }
        candidate := next;
      }
      r := Some(candidate);
    }

    method PrepareBatch() returns (batch: Option<(seq<Record>, nat, Id)>)
      modifies daemon
      ensures var b := Prepare(daemon.world, cfg, old(Abs()));
              && daemon.now == b.now
              && batch == if b.Batch? then Some((b.records, b.observedCount, b.observedTip)) else None
    {
      hide Extend, Rollback;
      var count := daemon.BlockCount();
      if count == 0 {
        return None;
      }
      var first := daemon.BlockId(0);
      if first != genesis {
        return None;
      }
      var tip := daemon.BlockId(count - 1);
      assert tip == daemon.world.IdAt(old(daemon.now) + 2, count - 1);
      var kept := RollbackRecords(daemon, records, count);
      var extended := ExtendBatch(kept, Min(count, |kept| + cfg.Batch()));
      if extended.None? {
        return None;
      }
      var candidate := extended.value;
      if candidate != [] {
        var last := candidate[|candidate| - 1];
        var id := daemon.BlockId(last.height);
        if id != last.hash {
          return None;
        }
      }
      batch := Some((candidate, count, tip));
    }

    method Update(stage: Stage) returns (ok: bool)
      modifies this, daemon
      ensures var p := UpdateOnce(daemon.world, cfg, old(Abs()), stage);
              && (ok <==> p.Committed?)
              && (ok ==> Abs() == Turn(daemon.world, cfg, old(Abs()), stage))
              && (!ok ==> Abs() == old(Abs()).(disk := p.disk, now := p.now))
    {
      hide Prepare, Encode, DiskAt;
      var batch := PrepareBatch();
      if batch.None? {
        return false;
      }
      var (candidate, count, tip) := batch.value;
      ok := Persist(candidate, stage);
      if !ok {
        return false;
      }
      var finalCount, finalTip := ReadCountAndTip();
      var complete := finalCount == |candidate| && finalCount == count && finalTip == tip;
      records := candidate;
      Publish(if complete then "current" else "indexing", finalCount, finalTip, candidate, complete);
    }

    /** One turn of the loop: a pass, and on failure an error snapshot over the records of before. */
    method TakeTurn(stage: Stage)
      modifies this, daemon
      ensures Abs() == Turn(daemon.world, cfg, old(Abs()), stage)
    {
      hide UpdateOnce;
      var ok := Update(stage);
      if !ok {
        var count, tip := ReadCountAndTip();
        Publish("error", count, tip, records, false);
      }
    }

    /** The background loop, one pass per element. */
    method Loop(stages: seq<Stage>)
      requires running
      modifies this, daemon
      ensures Abs() == Run(daemon.world, cfg, old(Abs()), SupplyCompleteness.Ticks(stages))
    {
      hide Turn, UpdateOnce;
      ghost var events := SupplyCompleteness.Ticks(stages);
      var i := 0;
      while i < |stages|
        invariant i <= |stages| && running
        invariant Abs() == Run(daemon.world, cfg, old(Abs()), events[..i])
      {
        ghost var before := Abs();
        assert events[..i + 1][..i] == events[..i];
        assert events[..i + 1][i] == Tick(stages[i]);
        TurnKeepsRunning(daemon.world, cfg, before, stages[i]);
        TakeTurn(stages[i]);
        assert Run(daemon.world, cfg, old(Abs()), events[..i + 1]) == Turn(daemon.world, cfg, before, stages[i]);
        i := i + 1;
      }
      assert events[..i] == events;
    }
  }
}
