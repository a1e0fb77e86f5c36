/** Crashes: what the supply index resumes from when it dies after any step of a pass. */
module SupplyCrash {
  import opened Basics
  import opened Text
  import opened Chain
  import opened SupplyMath
  import opened Checkpoint
  import opened SupplyPass
  import opened SupplyTheorems
  import SupplyCompleteness

  // --- memory mirrors the state file -----------------------------------------------------------

  /** Reloading the state file would give the records in memory; a reset id that cannot be read back makes
      every reload start over instead. */
  ghost predicate Mirrors(cfg: Settings, s: State) {
    s.running ==>
      && cfg.base.resetId != "" && s.genesis != ""
      && (Clean(cfg.base.resetId) ==> s.records == Loaded(cfg, s.genesis, s.disk.state))
  }

  lemma OwnRecordsReload(w: World, cfg: Settings, genesis: Id, rs: seq<Record>)
    requires Faithful(w.content, rs)
    requires Clean(cfg.base.network) && Clean(cfg.base.resetId) && Clean(genesis)
    ensures Loaded(cfg, genesis, Some(File(Encode(cfg.Binding(genesis), rs), true))) == rs
  {
    hide Encode, Decode;
    OwnRecordsReadBack(w, cfg, genesis, rs);
  }

  lemma DirtyResetIdReloadsNothing(cfg: Settings, genesis: Id, f: Option<File>)
    requires !Clean(cfg.base.resetId)
    ensures Loaded(cfg, genesis, f) == []
  {
    hide Decode;
    if f.Some? {
      AcceptedTextAccumulates(cfg.Binding(genesis), f.value.text);
    }
  }

  lemma TurnMirrors(w: World, cfg: Settings, s: State, stage: Stage)
    requires w.Valid() && Clean(cfg.base.network) && Inv(w, cfg, s) && Mirrors(cfg, s) && s.running
    ensures Mirrors(cfg, Turn(w, cfg, s, stage))
  {
    hide UpdateOnce, Encode, Decode, Faithful, Loaded;
    PassIsFaithful(w, cfg, s, stage);
    PassOutcome(w, cfg, s, stage);
    if Clean(cfg.base.resetId) {
      OwnRecordsReload(w, cfg, s.genesis, Attempt(UpdateOnce(w, cfg, s, stage)));
    }
  }

  /** A pass commits what it attempted exactly when its persist succeeded. */
  lemma PassOutcome(w: World, cfg: Settings, s: State, stage: Stage)
    ensures var p := UpdateOnce(w, cfg, s, stage);
            && (p.Committed? <==> Persisted(p) && PersistSucceeds(stage))
            && Turn(w, cfg, s, stage).disk == p.disk
            && Turn(w, cfg, s, stage).records == if p.Committed? then Attempt(p) else s.records
  {
    hide Prepare, Encode, DiskAt;
  }

  lemma StartMirrors(w: World, cfg: Settings, d: Disk, now: nat)
    ensures Mirrors(cfg, Start(w, cfg, d, now))
  {
  }

  /** After every run the records in memory are those of the state file. */
  lemma {:induction false} EveryRunMirrors(w: World, cfg: Settings, d: Disk, now: nat, events: seq<Event>)
    requires w.Valid() && Clean(cfg.base.network)
    requires OwnFile(w, cfg, d.state) && OwnFile(w, cfg, d.durable)
    ensures Mirrors(cfg, Run(w, cfg, Start(w, cfg, d, now), events))
    decreases |events|
  {
    hide Start, Turn, Mirrors, Inv, OwnFile;
    if events == [] {
      StartMirrors(w, cfg, d, now);
    } else {
      var before := events[..|events| - 1];
      var s := Run(w, cfg, Start(w, cfg, d, now), before);
      EveryRunMirrors(w, cfg, d, now, before);
      match events[|events| - 1]
      case Tick(stage) =>
        if s.running {
          EveryRunPublishesExactTotals(w, cfg, d, now, before);
          TurnMirrors(w, cfg, s, stage);
        }
      case Restart =>
        StartMirrors(w, cfg, s.disk, s.now);
      case Crash(stage, loss) =>
        var died := if s.running then Turn(w, cfg, s, stage) else s;
        StartMirrors(w, cfg, AfterCrash(died.disk, loss), died.now);
    }
  }

  /** No pass succeeds without syncing the directory. */
  ghost predicate AlwaysSynced(events: seq<Event>) {
    forall i :: 0 <= i < |events| ==> events[i] != Tick(Renamed)
  }

  lemma TurnDisk(w: World, cfg: Settings, s: State, stage: Stage)
    ensures var d := Turn(w, cfg, s, stage).disk;
            s.disk.durable == s.disk.state && stage != Renamed ==> d.durable == d.state
  {
    hide Prepare, Encode;
  }

  lemma {:induction false} SyncedRunsStaySettled(w: World, cfg: Settings, d: Disk, now: nat, events: seq<Event>)
    requires d.durable == d.state && AlwaysSynced(events)
    ensures var disk := Run(w, cfg, Start(w, cfg, d, now), events).disk;
            disk.durable == disk.state
    decreases |events|
  {
    hide Turn;
    if events != [] {
      var before := events[..|events| - 1];
      SyncedRunsStaySettled(w, cfg, d, now, before);
      var last := events[|events| - 1];
      if last.Tick? {
        TurnDisk(w, cfg, Run(w, cfg, Start(w, cfg, d, now), before), last.stage);
      }
    }
  }

  // --- what a crash resumes from ---------------------------------------------------------------

  /** The state file found after the process died within or after a pass and the disk lost what it may. */
  function LeftBehind(w: World, cfg: Settings, s: State, stage: Stage, loss: Loss): (f: Option<File>) {
    AfterCrash(Turn(w, cfg, s, stage).disk, loss).state
  }

  /** The records found are those of before the pass, or those it had persisted. */
  ghost predicate OldOrNew(w: World, cfg: Settings, s: State, stage: Stage, found: seq<Record>) {
    var p := UpdateOnce(w, cfg, s, stage);
    found == s.records || (Persisted(p) && PersistSucceeds(stage) && found == Attempt(p))
  }

  lemma LeftBehindFile(w: World, cfg: Settings, s: State, stage: Stage, loss: Loss)
    requires OwnFile(w, cfg, s.disk.state) && OwnFile(w, cfg, s.disk.durable)
    ensures var p := UpdateOnce(w, cfg, s, stage);
            LeftBehind(w, cfg, s, stage, loss) ==
              if loss.renameLost && !(Persisted(p) && stage.DirectorySynced?) then s.disk.durable
              else if Persisted(p) && PersistSucceeds(stage) then Some(File(Encode(cfg.Binding(s.genesis), Attempt(p)), true))
              else s.disk.state
  {
    hide Prepare, Encode;
  }

  /** Exactly what a crash leaves, for every state reached, every step and every loss. */
  lemma CrashOutcome(w: World, cfg: Settings, s: State, stage: Stage, loss: Loss)
    requires w.Valid() && Clean(cfg.base.network) && Inv(w, cfg, s) && Mirrors(cfg, s) && s.running
    ensures var p := UpdateOnce(w, cfg, s, stage);
            Loaded(cfg, s.genesis, LeftBehind(w, cfg, s, stage, loss)) ==
              if !Clean(cfg.base.resetId) then []
              else if loss.renameLost && !(Persisted(p) && stage.DirectorySynced?) then Loaded(cfg, s.genesis, s.disk.durable)
              else if Persisted(p) && PersistSucceeds(stage) then Attempt(p)
              else s.records
  {
    hide UpdateOnce, Encode, Loaded, Faithful, LeftBehind;
    PassIsFaithful(w, cfg, s, stage);
    LeftBehindFile(w, cfg, s, stage, loss);
    if Clean(cfg.base.resetId) {
      OwnRecordsReload(w, cfg, s.genesis, Attempt(UpdateOnce(w, cfg, s, stage)));
    } else {
      DirtyResetIdReloadsNothing(cfg, s.genesis, LeftBehind(w, cfg, s, stage, loss));
    }
  }

  /** A restart under the same genesis resumes from the state file left behind. */
  lemma CrashLoadsLeftBehind(w: World, cfg: Settings, s: State, stage: Stage, loss: Loss)
    requires Mirrors(cfg, s) && s.running
    ensures var s' := Step(w, cfg, s, Crash(stage, loss));
            s'.genesis == s.genesis ==> s'.running && s'.records == Loaded(cfg, s.genesis, LeftBehind(w, cfg, s, stage, loss))
  {
    hide Turn, Loaded;
  }

  /** In every run in which successful passes also sync the directory, a crash after any step of a pass,
      whatever it loses, resumes from the records of before the pass or the ones it had persisted, whole. */
  lemma CrashResumesOldOrNew(
      w: World, cfg: Settings, d: Disk, now: nat, events: seq<Event>, stage: Stage, loss: Loss)
    requires w.Valid() && Clean(cfg.base.network) && Clean(cfg.base.resetId)
    requires OwnFile(w, cfg, d.state) && d.durable == d.state && AlwaysSynced(events)
    ensures var s := Run(w, cfg, Start(w, cfg, d, now), events);
            var s' := Step(w, cfg, s, Crash(stage, loss));
            s.running && s'.genesis == s.genesis ==> s'.running && OldOrNew(w, cfg, s, stage, s'.records)
  {
    hide Run, Start, Step, UpdateOnce, LeftBehind, Loaded, Inv, OwnFile;
    var s := Run(w, cfg, Start(w, cfg, d, now), events);
    EveryRunPublishesExactTotals(w, cfg, d, now, events);
    EveryRunMirrors(w, cfg, d, now, events);
    SyncedRunsStaySettled(w, cfg, d, now, events);
    if s.running {
      CrashLoadsLeftBehind(w, cfg, s, stage, loss);
      CrashOutcome(w, cfg, s, stage, loss);
    }
  }

  // --- when a crash can lose more --------------------------------------------------------------

  /** Two own files that give the same records give them from the same text. */
  lemma SameRecordsSameFile(w: World, cfg: Settings, genesis: Id, f: Option<File>)
    requires Clean(cfg.base.network) && OwnFile(w, cfg, f) && Loaded(cfg, genesis, f) != []
    ensures f == Some(File(Encode(cfg.Binding(genesis), Loaded(cfg, genesis, f)), true))
  {
    hide Encode, Decode;
    var g: Id, rs: seq<Record> :| Wrote(w, cfg, f.value.text, g, rs);
    if !Clean(cfg.base.resetId) {
      DirtyResetIdReloadsNothing(cfg, genesis, f);
    } else {
      forall i | 0 <= i < |rs| ensures CleanRecord(rs[i]) {
        RecordIsClean(w.content, rs, i);
      }
      LoadAfterPersist(cfg.Binding(genesis), cfg.Binding(g), rs);
      assert cfg.Binding(genesis).Fields()[2] == genesis && cfg.Binding(g).Fields()[2] == g;
    }
  }

  /** After every run with records in memory, the state file is the text persist writes for them. */
  lemma EveryRunStoresItsRecords(w: World, cfg: Settings, d: Disk, now: nat, events: seq<Event>)
    requires w.Valid() && Clean(cfg.base.network) && Clean(cfg.base.resetId)
    requires OwnFile(w, cfg, d.state) && OwnFile(w, cfg, d.durable)
    ensures var s := Run(w, cfg, Start(w, cfg, d, now), events);
            s.running && s.records != [] ==> s.disk.state == Some(File(Encode(cfg.Binding(s.genesis), s.records), true))
  {
    hide Run, Start, Loaded, Encode, OwnFile, Faithful;
    var s := Run(w, cfg, Start(w, cfg, d, now), events);
    EveryRunPublishesExactTotals(w, cfg, d, now, events);
    EveryRunMirrors(w, cfg, d, now, events);
    if s.running && s.records != [] {
      SameRecordsSameFile(w, cfg, s.genesis, s.disk.state);
    }
  }

  /** In every run: no crash, after any step and with any loss, resumes from anything but the old or the new
      records, if and only if the file an unsynced rename may bring back still holds the records in memory.
      Once there are records that means that the last rename reached the disk. */
  lemma CrashIsSafeIffRenameSynced(w: World, cfg: Settings, d: Disk, now: nat, events: seq<Event>)
    requires w.Valid() && Clean(cfg.base.network)
    requires OwnFile(w, cfg, d.state) && OwnFile(w, cfg, d.durable)
    ensures var s := Run(w, cfg, Start(w, cfg, d, now), events);
            s.running ==>
              && ((forall stage, loss :: OldOrNew(w, cfg, s, stage, Loaded(cfg, s.genesis, LeftBehind(w, cfg, s, stage, loss))))
                  <==> Loaded(cfg, s.genesis, s.disk.durable) == s.records)
              && (Clean(cfg.base.resetId) && s.records != [] ==>
                    (Loaded(cfg, s.genesis, s.disk.durable) == s.records <==> s.disk.durable == s.disk.state))
  {
    hide Run, Start, UpdateOnce, LeftBehind, Loaded, Inv, OwnFile, Mirrors;
    var s := Run(w, cfg, Start(w, cfg, d, now), events);
    EveryRunPublishesExactTotals(w, cfg, d, now, events);
    EveryRunMirrors(w, cfg, d, now, events);
    if s.running {
      ReachedCrashIsSafeIff(w, cfg, s);
      ReachedDurableIff(w, cfg, s);
    }
  }

  lemma ReachedCrashIsSafeIff(w: World, cfg: Settings, s: State)
    requires w.Valid() && Clean(cfg.base.network) && Inv(w, cfg, s) && Mirrors(cfg, s) && s.running
    ensures (forall stage, loss :: OldOrNew(w, cfg, s, stage, Loaded(cfg, s.genesis, LeftBehind(w, cfg, s, stage, loss))))
            <==> Loaded(cfg, s.genesis, s.disk.durable) == s.records
  {
    hide UpdateOnce, LeftBehind, Loaded, Inv, Mirrors;
    forall stage, loss
      ensures Loaded(cfg, s.genesis, s.disk.durable) == s.records ==>
                OldOrNew(w, cfg, s, stage, Loaded(cfg, s.genesis, LeftBehind(w, cfg, s, stage, loss)))
    {
      CrashOutcome(w, cfg, s, stage, loss);
      if !Clean(cfg.base.resetId) {
        DirtyResetIdReloadsNothing(cfg, s.genesis, s.disk.durable);
      }
    }
    var lost := Loss(true, "", "");
    CrashOutcome(w, cfg, s, Untouched, lost);
    if !Clean(cfg.base.resetId) {
      DirtyResetIdReloadsNothing(cfg, s.genesis, s.disk.durable);
    }
    assert OldOrNew(w, cfg, s, Untouched, Loaded(cfg, s.genesis, LeftBehind(w, cfg, s, Untouched, lost)))
           ==> Loaded(cfg, s.genesis, s.disk.durable) == s.records;
  }

  lemma ReachedDurableIff(w: World, cfg: Settings, s: State)
    requires w.Valid() && Clean(cfg.base.network) && Inv(w, cfg, s) && Mirrors(cfg, s) && s.running
    ensures Clean(cfg.base.resetId) && s.records != [] ==>
              (Loaded(cfg, s.genesis, s.disk.durable) == s.records <==> s.disk.durable == s.disk.state)
  {
    hide Loaded, Encode, Faithful;
    if Clean(cfg.base.resetId) && s.records != [] {
      SameRecordsSameFile(w, cfg, s.genesis, s.disk.state);
      if Loaded(cfg, s.genesis, s.disk.durable) == s.records {
        SameRecordsSameFile(w, cfg, s.genesis, s.disk.durable);
      }
    }
  }

  // --- the unsynced rename ---------------------------------------------------------------------

  /** One block, for ever. */
  const ONE := World(_ => Block("", 10, []), _ => Instant(["g"], false))

  const EMPTY_DISK := Disk(None, None, None)

  /** The state after a first pass whose rename was not synced. */
  lemma FirstPass(cfg: Settings)
    requires cfg.base.resetId != ""
    ensures var s := Run(ONE, cfg, Start(ONE, cfg, EMPTY_DISK, 0), [Tick(Renamed)]);
            s.running && s.genesis == "g" && s.records != [] && Faithful(ONE.content, s.records) && s.disk.durable == None
  {
    hide UpdateOnce, Encode, Faithful;
    OneIsQuiet(0);
    var s0 := Start(ONE, cfg, EMPTY_DISK, 0);
    assert [Tick(Renamed)][..0] == [];
    assert Run(ONE, cfg, s0, []) == s0;
    EmptyIsFaithful();
    SupplyCompleteness.QuietPass(ONE, cfg, ["g"], s0, Renamed, 0);
    PassIsFaithful(ONE, cfg, s0, Renamed);
    assert |Ids(Turn(ONE, cfg, s0, Renamed).records)| == 1;
  }

  /** persist reports success although the directory was not synced. After such a pass a crash, even before
      the next pass does anything, starts over: neither what was current before nor what any pass wrote. */
  lemma UnsyncedRenameLosesRecords(cfg: Settings)
    requires cfg.base.resetId != ""
    ensures ONE.Valid()
    ensures var s := Run(ONE, cfg, Start(ONE, cfg, EMPTY_DISK, 0), [Tick(Renamed)]);
            var s' := Step(ONE, cfg, s, Crash(Untouched, Loss(true, "", "")));
            && s.running && s'.running && s'.genesis == s.genesis
            && s'.records == [] && !OldOrNew(ONE, cfg, s, Untouched, s'.records)
  {
    hide Run, UpdateOnce, Encode, Faithful;
    OneIsQuiet(0);
    FirstPass(cfg);
    var s := Run(ONE, cfg, Start(ONE, cfg, EMPTY_DISK, 0), [Tick(Renamed)]);
    PassOutcome(ONE, cfg, s, Untouched);
    PassIsFaithful(ONE, cfg, s, Untouched);
  }

  lemma EmptyIsFaithful()
    ensures Faithful(ONE.content, [])
  {
  }

  lemma OneIsQuiet(t: nat)
    ensures ONE.Valid() && SupplyCompleteness.Quiet(ONE, ["g"], t)
  {
    assert "g"[0] != NULL_ID[0];
    forall t: nat ensures ONE.LinkedAt(t) {
      assert LinkedBlock(ONE.content, ONE.ChainAt(t), 0);
    }
  }
}
