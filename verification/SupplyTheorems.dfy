/** What every run of the supply index guarantees. */
module SupplyTheorems {
  import opened Basics
  import opened Decimal
  import opened Text
  import opened Chain
  import opened SupplyMath
  import opened Checkpoint
  import opened SupplyPass

  // --- published totals ------------------------------------------------------------------------

  /** The snapshot's totals are the issuance over the linked chain ids, which ends at the indexed hash. */
  ghost predicate Describes(content: Id -> Block, s: Snapshot, ids: seq<Id>) {
    && Linked(content, ids)
    && (forall i :: 0 <= i < |ids| ==> SumFees(content(ids[i]).fees) <= content(ids[i]).coinbase)
    && s.indexedBlockCount == |ids|
    && s.indexedThroughHash == (if ids == [] then "" else ids[|ids| - 1])
    && s.indexedThroughHeight == (if ids == [] then 0 else |ids| - 1)
    && var total := Issuance(content, ids);
       && s.mintedSupply == Print(total.minted)
       && s.grossCoinbase == Print(total.coinbase)
       && s.cumulativeFees == Print(total.fees)
       && total.minted == total.coinbase - total.fees
  }

  lemma PublishedDescribes(content: Id -> Block, availability: string, count: nat, tip: Id, rs: seq<Record>, complete: bool)
    requires Faithful(content, rs)
    ensures Describes(content, Published(availability, count, tip, rs, complete), Ids(rs))
  {
    CumulativeIsIssuance(content, rs);
    TotalsBounded(rs, |rs|);
    if rs != [] {
      assert Continues(rs, |rs| - 1);
    } else {
      assert Print(0) == "0";
    }
  }

  // --- the invariant of every run --------------------------------------------------------------

  /** Text some pass of this installation wrote. */
  ghost predicate Wrote(w: World, cfg: Settings, text: string, genesis: Id, rs: seq<Record>) {
    Clean(genesis) && Faithful(w.content, rs) && text == Encode(cfg.Binding(genesis), rs)
  }

  ghost predicate OwnFile(w: World, cfg: Settings, f: Option<File>) {
    f.Some? ==> f.value.synced && exists g, rs :: Wrote(w, cfg, f.value.text, g, rs)
  }

  /** The snapshot states the issuance of the records in memory; only between a start and the first turn is it
      still the initial one, which states nothing indexed. */
  ghost predicate Reports(w: World, s: State) {
    || Describes(w.content, s.snapshot, Ids(s.records))
    || (s.running && s.snapshot == INITIAL_SNAPSHOT && Describes(w.content, s.snapshot, []))
  }

  ghost predicate Inv(w: World, cfg: Settings, s: State) {
    && Clean(s.genesis)
    && Faithful(w.content, s.records)
    && Reports(w, s)
    && (s.snapshot.availability == "current" <==> s.snapshot.complete)
    && OwnFile(w, cfg, s.disk.state)
    && OwnFile(w, cfg, s.disk.durable)
  }

  lemma AppendIsFaithful(content: Id -> Block, rs: seq<Record>, r: Record)
    requires Faithful(content, rs) && Fits(rs, r) && Linked(content, Ids(rs) + [r.hash])
    requires r.coinbase == content(r.hash).coinbase && r.fees == SumFees(content(r.hash).fees)
    ensures Append(rs, r).Some? && Faithful(content, Append(rs, r).value)
  {
    AppendFailsOnlyOnLink(rs, r);
    var out := Append(rs, r).value;
    assert forall i :: 0 <= i < |rs| ==> out[i] == out[..|rs|][i];
    assert Matches(content, out[|rs|]);
    assert Ids(out) == Ids(rs) + [r.hash];
  }

  /** A read that succeeds gives a record of the block its hash names, whatever the chain did meanwhile. */
  lemma ReadRecordIsFaithful(w: World, t: nat, rs: seq<Record>)
    requires w.Valid() && Faithful(w.content, rs)
    ensures var r := ReadRecord(w, t, |rs|, LastHash(rs)).0;
            r.Some? ==> Append(rs, r.value).Some? && Faithful(w.content, Append(rs, r.value).value)
  {
    var r := ReadRecord(w, t, |rs|, LastHash(rs)).0;
    if r.Some? {
      assert w.LinkedAt(t);
      var id := w.ChainAt(t)[|rs|];
      FeeTotalIsSum(w.content(id).fees, 0, 0);
      assert r.value.hash == id;
      assert LinkedBlock(w.content, w.ChainAt(t), |rs|);
      var ids := Ids(rs) + [id];
      forall i | 0 <= i < |ids| ensures LinkedBlock(w.content, ids, i) {
        assert i < |rs| ==> LinkedBlock(w.content, Ids(rs), i);
      }
      AppendIsFaithful(w.content, rs, r.value);
    }
  }

  lemma {:induction false} ExtendIsFaithful(w: World, t: nat, rs: seq<Record>, target: nat)
    requires w.Valid() && Faithful(w.content, rs)
    ensures var (out, _) := Extend(w, t, rs, target);
            out.Some? ==> Faithful(w.content, out.value) && rs <= out.value
    decreases target - |rs|
  {
    if |rs| < target {
      var (record, t1) := ReadRecord(w, t, |rs|, LastHash(rs));
      ReadRecordIsFaithful(w, t, rs);
      if record.Some? {
        ExtendIsFaithful(w, t1, Append(rs, record.value).value, target);
      }
    }
  }

  /** Whether a pass got as far as persist, and the records it handed over. */
  predicate Persisted(p: Pass) {
    p.Committed? || p.attempted.Some?
  }

  function Attempt(p: Pass): (rs: seq<Record>) {
    match p
    case Committed(rs, _, _, _, _, _, _, _) => rs
    case Failed(_, _, attempted) => if attempted.Some? then attempted.value else []
  }

  lemma RollbackIsFaithful(w: World, t: nat, rs: seq<Record>, count: nat)
    requires Faithful(w.content, rs)
    ensures Faithful(w.content, Rollback(w, t, rs, count).0)
  {
    var kept := Rollback(w, t, rs, count).0;
    FaithfulPrefix(w.content, rs, |kept|);
    assert kept == rs[..|kept|];
  }

  lemma PrepareIsFaithful(w: World, cfg: Settings, s: State)
    requires w.Valid() && Faithful(w.content, s.records)
    ensures Prepare(w, cfg, s).Batch? ==> Faithful(w.content, Prepare(w, cfg, s).records)
  {
    var count := |w.ChainAt(s.now)|;
    var rolled := Rollback(w, s.now + 3, s.records, count);
    RollbackIsFaithful(w, s.now + 3, s.records, count);
    var target := Min(count, |rolled.0| + cfg.Batch());
    PrepareIsExtend(w, cfg, s, count, rolled, target);
    ExtendIsFaithful(w, rolled.1, rolled.0, target);
  }

  lemma PrepareIsExtend(w: World, cfg: Settings, s: State, count: nat, rolled: (seq<Record>, nat), target: nat)
    requires count == |w.ChainAt(s.now)| && rolled == Rollback(w, s.now + 3, s.records, count)
    requires target == Min(count, |rolled.0| + cfg.Batch())
    ensures Prepare(w, cfg, s).Batch? ==> Extend(w, rolled.1, rolled.0, target).0 == Some(Prepare(w, cfg, s).records)
  {
    hide Extend, Rollback;
  }

  lemma PassIsFaithful(w: World, cfg: Settings, s: State, stage: Stage)
    requires w.Valid() && Faithful(w.content, s.records)
    ensures var p := UpdateOnce(w, cfg, s, stage);
            && Faithful(w.content, Attempt(p))
            && p.disk == if Persisted(p) then DiskAt(s.disk, Encode(cfg.Binding(s.genesis), Attempt(p)), stage) else s.disk
  {
    PrepareIsFaithful(w, cfg, s);
  }

  lemma PersistKeepsOwnFiles(w: World, cfg: Settings, d: Disk, genesis: Id, rs: seq<Record>, stage: Stage)
    requires Clean(genesis) && Faithful(w.content, rs)
    requires OwnFile(w, cfg, d.state) && OwnFile(w, cfg, d.durable)
    ensures var d' := DiskAt(d, Encode(cfg.Binding(genesis), rs), stage);
            OwnFile(w, cfg, d'.state) && OwnFile(w, cfg, d'.durable)
  {
    assert Wrote(w, cfg, Encode(cfg.Binding(genesis), rs), genesis, rs);
  }

  /** The published block count and tip are what the last reads saw. */
  ghost predicate SawLast(w: World, s: State) {
    if s.snapshot.blockCount > 0 then
      s.now >= 2 && s.snapshot.blockCount == |w.ChainAt(s.now - 2)| && s.snapshot.tipHash == w.IdAt(s.now - 1, s.snapshot.blockCount - 1)
    else
      s.now >= 1 && w.ChainAt(s.now - 1) == [] && s.snapshot.tipHash == ""
  }

  lemma TurnSawLast(w: World, cfg: Settings, s: State, stage: Stage)
    ensures var p, s' := UpdateOnce(w, cfg, s, stage), Turn(w, cfg, s, stage);
            && SawLast(w, s')
            && (s'.snapshot.availability == "error" <==> p.Failed?)
            && (s'.snapshot.availability == "current" <==> s'.snapshot.complete)
  {
    hide Prepare, Encode, DiskAt, Print;
    assert |"error"| == 5 && |"current"| == 7 && |"indexing"| == 8;
  }

  /** What a turn publishes, whether its pass succeeded or not: the issuance of the records in memory, the
      count and tip just read, and an availability that tells failed, unfinished and complete passes apart. */
  lemma TurnReports(w: World, cfg: Settings, s: State, stage: Stage)
    requires w.Valid() && Faithful(w.content, s.records)
    ensures var p, s' := UpdateOnce(w, cfg, s, stage), Turn(w, cfg, s, stage);
            && Faithful(w.content, s'.records)
            && Describes(w.content, s'.snapshot, Ids(s'.records))
            && SawLast(w, s')
            && (s'.snapshot.availability == "error" <==> p.Failed?)
            && (s'.snapshot.availability == "current" <==> s'.snapshot.complete)
            && (p.Failed? ==> s'.records == s.records)
  {
    TurnSawLast(w, cfg, s, stage);
    PassIsFaithful(w, cfg, s, stage);
    hide UpdateOnce, Encode, DiskAt, Describes, SawLast, Published, Faithful;
    match UpdateOnce(w, cfg, s, stage)
    case Committed(rs, _, _, _, count, tip, complete, _) =>
      PublishedDescribes(w.content, if complete then "current" else "indexing", count, tip, rs, complete);
    case Failed(t, _, _) =>
      var (count, tip, _) := CountAndTip(w, t);
      PublishedDescribes(w.content, "error", count, tip, s.records, false);
  }

  lemma TurnKeepsInv(w: World, cfg: Settings, s: State, stage: Stage)
    requires w.Valid() && Inv(w, cfg, s)
    ensures Inv(w, cfg, Turn(w, cfg, s, stage))
  {
    hide Describes, Faithful, OwnFile;
    PassIsFaithful(w, cfg, s, stage);
    TurnReports(w, cfg, s, stage);
    PersistKeepsOwnFiles(w, cfg, s.disk, s.genesis, Attempt(UpdateOnce(w, cfg, s, stage)), stage);
    hide UpdateOnce;
  }

  /** A pass over no chain, or over one with another genesis, fails without touching the checkpoint. */
  lemma ForeignChainIsRefused(w: World, cfg: Settings, s: State, stage: Stage)
    requires w.ChainAt(s.now) == [] || w.IdAt(s.now + 1, 0) != s.genesis
    ensures var s' := Turn(w, cfg, s, stage);
            s'.records == s.records && s'.disk == s.disk && s'.snapshot.availability == "error"
  {
    PrepareRefuses(w, cfg, s);
    hide Prepare, Encode, DiskAt, Print;
  }

  lemma PrepareRefuses(w: World, cfg: Settings, s: State)
    requires w.ChainAt(s.now) == [] || w.IdAt(s.now + 1, 0) != s.genesis
    ensures Prepare(w, cfg, s).NoBatch?
  {
    hide Extend, Rollback;
  }

  lemma RecordIsClean(content: Id -> Block, rs: seq<Record>, i: nat)
    requires Faithful(content, rs) && i < |rs|
    ensures CleanRecord(rs[i])
  {
    assert Continues(rs, i) && LinkedBlock(content, Ids(rs), i);
    assert i > 0 ==> LinkedBlock(content, Ids(rs), i - 1);
  }

  /** Every checkpoint of this installation loads back as faithful records or not at all. */
  lemma OwnFileLoads(w: World, cfg: Settings, text: string, genesis: Id)
    requires Clean(cfg.base.network)
    requires exists g, rs :: Wrote(w, cfg, text, g, rs)
    ensures var loaded := Decode(cfg.Binding(genesis), text);
            loaded.Some? ==> Faithful(w.content, loaded.value)
  {
    hide Encode, Decode;
    var g: Id, rs: seq<Record> :| Wrote(w, cfg, text, g, rs);
    AcceptedTextAccumulates(cfg.Binding(genesis), text);
    if Clean(cfg.base.resetId) {
      forall i | 0 <= i < |rs| ensures CleanRecord(rs[i]) {
        RecordIsClean(w.content, rs, i);
      }
      LoadAfterPersist(cfg.Binding(genesis), cfg.Binding(g), rs);
    }
  }

  lemma StartEstablishesInv(w: World, cfg: Settings, d: Disk, now: nat)
    requires w.Valid() && Clean(cfg.base.network)
    requires OwnFile(w, cfg, d.state) && OwnFile(w, cfg, d.durable)
    ensures Inv(w, cfg, Start(w, cfg, d, now))
  {
    var s := Start(w, cfg, d, now);
    assert w.LinkedAt(now + 1);
    if |w.ChainAt(now + 1)| > 0 {
      assert LinkedBlock(w.content, w.ChainAt(now + 1), 0);
    }
    if d.state.Some? {
      OwnFileLoads(w, cfg, d.state.value.text, s.genesis);
    }
    assert Faithful(w.content, []);
    PublishedDescribes(w.content, s.snapshot.availability, 0, "", [], false);
    assert Describes(w.content, s.snapshot, Ids([]));
  }

  /** The index runs exactly when a reset id is configured and the chain has a genesis block, and then holds what
      the state file gives; otherwise it publishes an error. */
  lemma StartRunsIff(w: World, cfg: Settings, d: Disk, now: nat)
    requires w.Valid() && w.ChainAt(now) == w.ChainAt(now + 1)
    ensures var s, chain := Start(w, cfg, d, now), w.ChainAt(now);
            && (s.running <==> cfg.base.resetId != "" && chain != [])
            && (s.running ==> s.genesis == chain[0] && s.records == Loaded(cfg, chain[0], d.state))
            && (!s.running <==> s.snapshot.availability == "error")
  {
    assert w.LinkedAt(now);
    if w.ChainAt(now) != [] {
      assert LinkedBlock(w.content, w.ChainAt(now), 0);
    }
  }

  lemma StepKeepsInv(w: World, cfg: Settings, s: State, e: Event)
    requires w.Valid() && Clean(cfg.base.network) && Inv(w, cfg, s)
    ensures Inv(w, cfg, Step(w, cfg, s, e))
  {
    match e
    case Tick(stage) =>
      TurnKeepsInv(w, cfg, s, stage);
    case Restart =>
      StartEstablishesInv(w, cfg, s.disk, s.now);
    case Crash(stage, loss) =>
      TurnKeepsInv(w, cfg, s, stage);
      var died := if s.running then Turn(w, cfg, s, stage) else s;
      StartEstablishesInv(w, cfg, AfterCrash(died.disk, loss), died.now);
  }

  /** In every run, through reorganisations between any two reads, failed passes, restarts and crashes in the
      middle of a checkpoint, the published totals are exactly the issuance over the hash-linked chain of the
      records in memory, which ends at indexedThroughHash, and the records describe the blocks they name. */
  lemma {:induction false} EveryRunPublishesExactTotals(w: World, cfg: Settings, d: Disk, now: nat, events: seq<Event>)
    requires w.Valid() && Clean(cfg.base.network)
    requires OwnFile(w, cfg, d.state) && OwnFile(w, cfg, d.durable)
    ensures Inv(w, cfg, Run(w, cfg, Start(w, cfg, d, now), events))
    decreases |events|
  {
    if events == [] {
      StartEstablishesInv(w, cfg, d, now);
    } else {
      EveryRunPublishesExactTotals(w, cfg, d, now, events[..|events| - 1]);
      StepKeepsInv(w, cfg, Run(w, cfg, Start(w, cfg, d, now), events[..|events| - 1]), events[|events| - 1]);
    }
  }

  /** After every turn of every run the snapshot is the issuance of exactly the records in memory, with the
      count and tip that turn read last. */
  lemma EveryTurnReportsItsRecords(w: World, cfg: Settings, d: Disk, now: nat, events: seq<Event>, stage: Stage)
    requires w.Valid() && Clean(cfg.base.network)
    requires OwnFile(w, cfg, d.state) && OwnFile(w, cfg, d.durable)
    ensures var s := Run(w, cfg, Start(w, cfg, d, now), events);
            var s' := Step(w, cfg, s, Tick(stage));
            s.running ==>
              && Describes(w.content, s'.snapshot, Ids(s'.records))
              && SawLast(w, s')
              && (s'.snapshot.availability == "error" <==> UpdateOnce(w, cfg, s, stage).Failed?)
              && (UpdateOnce(w, cfg, s, stage).Failed? ==> s'.records == s.records)
  {
    hide Run, Start, Turn, UpdateOnce, Describes, Faithful, OwnFile;
    EveryRunPublishesExactTotals(w, cfg, d, now, events);
    TurnReports(w, cfg, Run(w, cfg, Start(w, cfg, d, now), events), stage);
  }

  lemma OwnRecordsReadBack(w: World, cfg: Settings, genesis: Id, rs: seq<Record>)
    requires Faithful(w.content, rs)
    requires Clean(cfg.base.network) && Clean(cfg.base.resetId) && Clean(genesis)
    ensures Decode(cfg.Binding(genesis), Encode(cfg.Binding(genesis), rs)) == Some(rs)
  {
    hide Encode, Decode;
    forall i | 0 <= i < |rs| ensures CleanRecord(rs[i]) {
      RecordIsClean(w.content, rs, i);
    }
    LoadAfterPersist(cfg.Binding(genesis), cfg.Binding(genesis), rs);
  }
}
