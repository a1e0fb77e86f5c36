/** What every interleaving of hashing, seed-change and miner threads guarantees. */
module RandomXTheorems {
  import opened Basics
  import opened RandomXDataset
  import opened RandomX
  import opened RandomXProof

  // --- the right memory ------------------------------------------------------------------------

  /** While a thread calculates for a seed, the memory its machine uses is wholly initialised for that seed. */
  ghost predicate CalculatesRight(items: nat, sh: Shared, th: Thread) {
    match th.pc
    case FullCalc(seed) =>
      th.vmFull && sh.dataset.Some? && |sh.dataset.value| == items && DatasetFor(sh.dataset.value, seed)
    case LightCalc(seed) => th.mainKey == Some(seed) && sh.mainCache == Ready(seed)
    case SecondaryCalc(seed) => th.secondaryKey == Some(seed) && sh.secondaryCache == Ready(seed)
    case ExclusiveCalc(seed) => th.secondaryKey == Some(seed) && sh.secondaryCache == Ready(seed)
    case _ => true
  }

  lemma InvCalculatesRight(items: nat, s: System, i: nat)
    requires Inv(items, s) && i < |s.threads|
    ensures CalculatesRight(items, s.shared, s.threads[i]) && CountsOk(s.threads[i])
  {
    hide CountsOk;
    assert ThreadOk(s.shared, i, s.threads[i]);
  }

  /** In every interleaving, at every moment: a calculation in progress uses memory initialised for the seed
      of its call, and a thread that is not inside a call has calculated exactly one result per call. */
  lemma EveryHashUsesItsSeed(items: nat, s: System, actions: seq<Action>, i: nat)
    requires Initial(s) && i < |s.threads|
    ensures var s' := Run(items, s, actions);
            && |s'.threads| == |s.threads|
            && CalculatesRight(items, s'.shared, s'.threads[i])
            && s'.threads[i].results <= s'.threads[i].calls + 1
            && (s'.threads[i].pc.Idle? ==> s'.threads[i].results == s'.threads[i].calls)
  {
    RunKeepsInv(items, s, actions);
    InvCalculatesRight(items, Run(items, s, actions), i);
  }

  /** The seed a hash call was given. */
  function CallSeed(pc: Pc): (seed: Option<Seed>) {
    match pc
    case TryDataset(s) => Some(s)
    case DatasetHeld(s) => Some(s)
    case FullCalc(s) => Some(s)
    case DatasetDone(s, _) => Some(s)
    case WaitMainCache(s) => Some(s)
    case MainCacheHeld(s) => Some(s)
    case LightCalc(s) => Some(s)
    case MainCacheDone(s, _) => Some(s)
    case CheckSecondary(s) => Some(s)
    case WaitFirstInit(s) => Some(s)
    case FirstInitHeld(s) => Some(s)
    case FirstInit(s) => Some(s)
    case WaitSecondaryRead(s) => Some(s)
    case SecondaryReadHeld(s) => Some(s)
    case SecondaryCalc(s) => Some(s)
    case SecondaryReadDone(s, _) => Some(s)
    case WaitSecondaryWrite(s) => Some(s)
    case SecondaryWriteHeld(s) => Some(s)
    case Reinit(s) => Some(s)
    case ExclusiveCalc(s) => Some(s)
    case ExclusiveDone(s) => Some(s)
    case _ => None
  }

  /** A hash call keeps its seed until it returns. */
  lemma CallKeepsItsSeed(items: nat, sh: Shared, i: nat, th: Thread, c: Choice)
    requires CallSeed(th.pc).Some? && Advance(items, sh, i, th, c).Some?
    ensures var th' := Advance(items, sh, i, th, c).value.1;
            CallSeed(th'.pc) == CallSeed(th.pc) || (th'.pc == Idle && th'.calls == th.calls + 1)
  {
    hide SeedPath;
  }

  // --- seed changes ----------------------------------------------------------------------------

  /** The seed a seed change was asked for. */
  function TargetSeed(pc: Pc): (seed: Option<Seed>) {
    match pc
    case WaitDataset(target, _) => target
    case WaitCacheWrite(s, _) => Some(s)
    case BothHeld(s, _) => Some(s)
    case CacheInit(s, _) => Some(s)
    case WaitFill(target, _) => target
    case Fill(target, _, _) => target
    case DatasetRelease(target) => target
    case _ => None
  }

  /** Calls begin with the seed they were given, and a seed change keeps its own until it returns. */
  lemma CallsWorkForTheirSeed(items: nat, sh: Shared, i: nat, th: Thread, job: Job, c: Choice)
    ensures Begin(sh, th, job, c).Some? ==>
              var pc := Begin(sh, th, job, c).value.pc;
              && (job.Hash? ==> CallSeed(pc) == Some(job.seed))
              && (job.SetMain? && !c.isMain ==> TargetSeed(pc) == Some(job.main))
    ensures TargetSeed(th.pc).Some? && Advance(items, sh, i, th, c).Some? ==>
              var pc := Advance(items, sh, i, th, c).value.1.pc;
              TargetSeed(pc) == TargetSeed(th.pc) || pc == Idle
  {
    hide MainPath, SecondaryPath, FillSlice, AllSlices, Blank, SliceCount, AddReader, DropReader, Key;
  }

  /** The main memory is wholly initialised for the seed. */
  ghost predicate MainMemoryFor(items: nat, sh: Shared, seed: Seed) {
    && sh.mainSeed == Some(seed) && sh.mainCache == Ready(seed)
    && (sh.dataset.Some? ==> |sh.dataset.value| == items && DatasetFor(sh.dataset.value, seed))
  }

  /** In every interleaving, at the instant a seed change returns, by either exit, the main seed is the one it
      was asked for, and the cache and, if allocated, the dataset are wholly initialised for it. */
  lemma SeedChangeTakesEffect(items: nat, s: System, actions: seq<Action>, i: nat, c: Choice)
    requires Initial(s) && i < |s.threads|
    ensures var before := Run(items, s, actions);
            && |before.threads| == |s.threads|
            && var target, next := TargetSeed(before.threads[i].pc), Step(items, before, Move(i, c));
               target.Some? && next.Some? && next.value.threads[i].pc.Idle? ==>
                 MainMemoryFor(items, next.value.shared, target.value)
  {
    RunKeepsInv(items, s, actions);
    var before := Run(items, s, actions);
    var next := Step(items, before, Move(i, c));
    if TargetSeed(before.threads[i].pc).Some? && next.Some? && next.value.threads[i].pc.Idle? {
      StepKeepsInv(items, before, Move(i, c));
      ReturnsWithSeed(items, before, i, c);
      FreeDatasetIsReady(items, next.value);
    }
  }

  lemma ReturnsWithSeed(items: nat, s: System, i: nat, c: Choice)
    requires Inv(items, s) && i < |s.threads| && TargetSeed(s.threads[i].pc).Some?
    requires Step(items, s, Move(i, c)).Some? && Step(items, s, Move(i, c)).value.threads[i].pc.Idle?
    ensures var sh' := Step(items, s, Move(i, c)).value.shared;
            sh'.mainSeed == TargetSeed(s.threads[i].pc) && sh'.datasetLock.writer.None?
  {
    hide MainPath, SecondaryPath, FillSlice, AllSlices, Blank, SliceCount, Key;
    assert ThreadOk(s.shared, i, s.threads[i]);
  }

  /** While nobody writes the dataset, the main memory is ready for the main seed. */
  lemma FreeDatasetIsReady(items: nat, s: System)
    requires Inv(items, s) && s.shared.datasetLock.writer.None? && s.shared.mainSeed.Some?
    ensures MainMemoryFor(items, s.shared, s.shared.mainSeed.value)
  {
    hide MemoryOk, CountsOk, DatasetFor;
    assert s.shared.cacheLock.writer.None?;
  }

  /** A miner start with no dataset, and a seed change with none, allocate it when memory allows; no step of any
      thread takes it away. */
  lemma DatasetIsAllocated(items: nat, sh: Shared, i: nat, th: Thread, c: Choice)
    requires LocksOk(sh, i, th.pc) && Advance(items, sh, i, th, c).Some?
    ensures var sh' := Advance(items, sh, i, th, c).value.0;
            && (sh.dataset.Some? ==> sh'.dataset.Some?)
            && (c.yes && (th.pc.MinerHeld? || (th.pc.BothHeld? && !IsMain(sh, th.pc.seed))) ==> sh'.dataset.Some?)
  {
    hide MainPath, SecondaryPath, FillSlice, AllSlices, Blank, SliceCount, Key;
    if InMainPath(th.pc) {
      MainGuards(sh, i, th, c);
    } else if InSecondaryPath(th.pc) {
      SecondaryGuards(sh, i, th, c);
    }
  }

  // --- which memory an uncontended call uses ---------------------------------------------------

  /** k steps of one thread with the same choices. */
  function Drive(items: nat, sh: Shared, i: nat, th: Thread, c: Choice, k: nat): (r: Option<(Shared, Thread)>)
    decreases k
  {
    if k == 0 then Some((sh, th))
    else
      var next := Advance(items, sh, i, th, c);
      if next.None? then None else Drive(items, next.value.0, i, next.value.1, c, k - 1)
  }

  lemma DriveFour(items: nat, sh: Shared, i: nat, th: Thread, c: Choice, k: nat,
                  sh1: Shared, th1: Thread, sh2: Shared, th2: Thread, sh3: Shared, th3: Thread, sh4: Shared, th4: Thread)
    requires Advance(items, sh, i, th, c) == Some((sh1, th1)) && Advance(items, sh1, i, th1, c) == Some((sh2, th2))
    requires Advance(items, sh2, i, th2, c) == Some((sh3, th3)) && Advance(items, sh3, i, th3, c) == Some((sh4, th4))
    ensures Drive(items, sh, i, th, c, 2) == Some((sh2, th2))
    ensures Drive(items, sh, i, th, c, k + 4) == Drive(items, sh4, i, th4, c, k)
  {
    hide Advance;
    assert Drive(items, sh, i, th, c, 2) == Drive(items, sh1, i, th1, c, 1) == Drive(items, sh2, i, th2, c, 0);
    assert Drive(items, sh, i, th, c, k + 4) == Drive(items, sh1, i, th1, c, k + 3);
    assert Drive(items, sh2, i, th2, c, k + 2) == Drive(items, sh3, i, th3, c, k + 1);
  }

  /** A call for the main seed that gets the dataset lock calculates on the dataset and changes nothing shared. */
  lemma MainSeedUsesDataset(items: nat, sh: Shared, i: nat, th: Thread, seed: Seed, c: Choice)
    requires IsMain(sh, seed) && sh.datasetLock == FREE && sh.dataset.Some? && c.yes && th.pc == TryDataset(seed)
    ensures Drive(items, sh, i, th, c, 2).Some? && Drive(items, sh, i, th, c, 2).value.1.pc == FullCalc(seed)
    ensures Drive(items, sh, i, th, c, 4) == Some((sh, Return(th).(results := th.results + 1, vmFull := true)))
  {
    hide SecondaryPath, SeedPath, Drive;
    assert {} + {i} - {i} == {};
    var held := sh.(datasetLock := AddReader(FREE, i));
    var th2 := th.(pc := FullCalc(seed), vmFull := true);
    var th3 := th2.(pc := DatasetDone(seed, true), results := th.results + 1);
    DriveFour(items, sh, i, th, c, 0, held, th.(pc := DatasetHeld(seed)), held, th2, held, th3, sh, Return(th3));
    DriveNone(items, sh, i, Return(th3), c);
  }

  /** Without the dataset it calculates on the main cache, and changes nothing shared either. */
  lemma MainSeedUsesMainCache(items: nat, sh: Shared, i: nat, th: Thread, seed: Seed, c: Choice)
    requires IsMain(sh, seed) && sh.cacheLock == FREE && sh.mainCache == Ready(seed) && th.pc == WaitMainCache(seed)
    ensures Drive(items, sh, i, th, c, 2).Some? && Drive(items, sh, i, th, c, 2).value.1.pc == LightCalc(seed)
    ensures Drive(items, sh, i, th, c, 4) == Some((sh, Return(th).(results := th.results + 1, mainKey := Some(seed))))
  {
    hide SecondaryPath, SeedPath, Drive;
    assert {} + {i} - {i} == {};
    var held := sh.(cacheLock := AddReader(FREE, i));
    var th2 := th.(pc := LightCalc(seed), mainKey := Some(seed));
    var th3 := th2.(pc := MainCacheDone(seed, true), results := th.results + 1);
    DriveFour(items, sh, i, th, c, 0, held, th.(pc := MainCacheHeld(seed)), held, th2, held, th3, sh, Return(th3));
    DriveNone(items, sh, i, Return(th3), c);
  }

  lemma DriveNone(items: nat, sh: Shared, i: nat, th: Thread, c: Choice)
    ensures Drive(items, sh, i, th, c, 0) == Some((sh, th))
  {
  }

  /** A call for the seed of the secondary cache uses it as it is. */
  lemma SameSeedKeepsSecondaryCache(items: nat, sh: Shared, i: nat, th: Thread, seed: Seed, c: Choice)
    requires sh.secondaryLock == FREE && th.pc == WaitSecondaryRead(seed)
    requires IsSecondary(sh, seed) && sh.secondaryCache == Ready(seed)
    ensures Drive(items, sh, i, th, c, 4)
            == Some((sh, Return(th).(results := th.results + 1, secondaryKey := Some(seed))))
  {
    hide MainPath, SeedPath, Drive;
    assert {} + {i} - {i} == {};
    var held := sh.(secondaryLock := AddReader(FREE, i));
    var th2 := th.(pc := SecondaryCalc(seed), secondaryKey := Some(seed));
    var th3 := th2.(pc := SecondaryReadDone(seed, true), results := th.results + 1);
    DriveFour(items, sh, i, th, c, 0, held, th.(pc := SecondaryReadHeld(seed)), held, th2, held, th3, sh, Return(th3));
    DriveNone(items, sh, i, Return(th3), c);
  }

  /** A call for any other seed gives the secondary cache its own. */
  lemma OtherSeedTakesSecondaryCache(items: nat, sh: Shared, i: nat, th: Thread, seed: Seed, c: Choice)
    requires sh.secondaryLock == FREE && th.pc == WaitSecondaryWrite(seed) && !IsSecondary(sh, seed)
    ensures Drive(items, sh, i, th, c, 5)
            == Some((sh.(secondarySeed := Some(seed), secondaryCache := Ready(seed)),
                     Return(th).(results := th.results + 1, secondaryKey := Some(seed))))
  {
    hide MainPath, SeedPath, Drive;
    var held := sh.(secondaryLock := FREE.(writer := Some(i)));
    var rewriting, rewritten := held.(secondaryCache := Unfinished), held.(secondaryCache := Ready(seed), secondarySeed := Some(seed));
    var th3 := th.(pc := ExclusiveCalc(seed), secondaryKey := Some(seed));
    var th4 := th3.(pc := ExclusiveDone(seed), results := th.results + 1);
    DriveFour(items, sh, i, th, c, 1, held, th.(pc := SecondaryWriteHeld(seed)), rewriting, th.(pc := Reinit(seed)),
              rewritten, th3, rewritten, th4);
    var done := rewritten.(secondaryLock := FREE);
    assert Advance(items, rewritten, i, th4, c) == Some((done, Return(th4)));
    DriveOne(items, rewritten, i, th4, c, done, Return(th4));
  }

  lemma DriveOne(items: nat, sh: Shared, i: nat, th: Thread, c: Choice, sh1: Shared, th1: Thread)
    requires Advance(items, sh, i, th, c) == Some((sh1, th1))
    ensures Drive(items, sh, i, th, c, 1) == Some((sh1, th1))
  {
    hide Advance;
    DriveNone(items, sh1, i, th1, c);
  }

  // --- no deadlock -----------------------------------------------------------------------------

  /** A thread inside a call that is not stopped by a lock. */
  predicate CanGo(sh: Shared, pc: Pc) {
    match pc
    case Idle => false
    case WaitMainCache(_) => sh.cacheLock.CanRead()
    case WaitFirstInit(_) => sh.secondaryLock.CanWrite()
    case WaitSecondaryRead(_) => sh.secondaryLock.CanRead()
    case WaitSecondaryWrite(_) => sh.secondaryLock.CanWrite()
    case WaitDataset(_, _) => sh.datasetLock.CanWrite()
    case WaitCacheWrite(_, _) => sh.cacheLock.CanWrite()
    case WaitFill(_, _) => sh.dataset.None? || sh.cacheLock.CanRead()
    case _ => true
  }

  lemma GoingIsPossible(items: nat, sh: Shared, i: nat, th: Thread) returns (c: Choice)
    requires CanGo(sh, th.pc) && MemoryOk(sh, th)
    ensures Advance(items, sh, i, th, c).Some?
  {
    c := Choice(false, false, 0);
    if th.pc.Fill? && th.pc.todo != {} {
      var j :| j in th.pc.todo;
      c := Choice(false, false, j);
    }
  }

  /** Someone holds a lock that cannot be taken. */
  lemma BusyLockHasHolder(l: RwLock, n: nat) returns (h: nat)
    requires LockSane(l, n) && !l.CanWrite()
    ensures h < n && (l.writer == Some(h) || h in l.readers)
  {
    if l.writer.Some? {
      h := l.writer.value;
    } else {
      h :| h in l.readers;
    }
  }

  /** Whoever holds the main cache lock or the secondary lock is never stopped. */
  lemma InnerHolderGoes(sh: Shared, pc: Pc)
    requires ReadsCache(pc) || WritesCache(pc) || ReadsSecondary(pc) || WritesSecondary(pc)
    ensures CanGo(sh, pc)
  {
  }

  lemma CacheOrSecondaryFreesUp(items: nat, s: System, l: RwLock) returns (h: nat)
    requires Inv(items, s) && !l.CanWrite() && (l == s.shared.cacheLock || l == s.shared.secondaryLock)
    ensures h < |s.threads| && CanGo(s.shared, s.threads[h].pc)
  {
    h := BusyLockHasHolder(l, |s.threads|);
    assert ThreadOk(s.shared, h, s.threads[h]);
    InnerHolderGoes(s.shared, s.threads[h].pc);
  }

  /** The dataset lock is taken before the cache lock and nothing is taken under the cache or secondary
      lock, so whenever a call is in progress some call can take its next step. */
  lemma NoDeadlock(items: nat, s: System, actions: seq<Action>, i: nat) returns (j: nat, c: Choice)
    requires Initial(s) && i < |s.threads| && |Run(items, s, actions).threads| == |s.threads|
    requires !Run(items, s, actions).threads[i].pc.Idle?
    ensures j < |s.threads| && Step(items, Run(items, s, actions), Move(j, c)).Some?
  {
    RunKeepsInv(items, s, actions);
    j, c := NextMover(items, Run(items, s, actions), i);
  }

  lemma SomeoneGoes(items: nat, s: System, i: nat) returns (j: nat)
    requires Inv(items, s) && i < |s.threads| && !s.threads[i].pc.Idle?
    ensures j < |s.threads| && CanGo(s.shared, s.threads[j].pc)
  {
    hide SharedOk, MemoryOk, CountsOk;
    j := i;
    var sh := s.shared;
    if !CanGo(sh, s.threads[i].pc) {
      match s.threads[i].pc
      case WaitMainCache(_) => j := CacheOrSecondaryFreesUp(items, s, sh.cacheLock);
      case WaitCacheWrite(_, _) => j := CacheOrSecondaryFreesUp(items, s, sh.cacheLock);
      case WaitFill(_, _) => j := CacheOrSecondaryFreesUp(items, s, sh.cacheLock);
      case WaitFirstInit(_) => j := CacheOrSecondaryFreesUp(items, s, sh.secondaryLock);
      case WaitSecondaryRead(_) => j := CacheOrSecondaryFreesUp(items, s, sh.secondaryLock);
      case WaitSecondaryWrite(_) => j := CacheOrSecondaryFreesUp(items, s, sh.secondaryLock);
      case WaitDataset(_, _) =>
        var h := BusyLockHasHolder(sh.datasetLock, |s.threads|);
        assert ThreadOk(sh, h, s.threads[h]);
        j := h;
        if !CanGo(sh, s.threads[h].pc) {
          j := CacheOrSecondaryFreesUp(items, s, sh.cacheLock);
        }
    }
  }

  // --- every call ends -------------------------------------------------------------------------

  /** Steps a call can still take. */
  function Rank(pc: Pc): (n: nat) {
    match pc
    case Idle => 0
    case TryDataset(_) => 22
    case DatasetHeld(_) => 21
    case WaitMainCache(_) => 21
    case MainCacheHeld(_) => 20
    case FullCalc(_) => 20
    case LightCalc(_) => 19
    case DatasetDone(_, _) => 18
    case MainCacheDone(_, _) => 18
    case CheckSecondary(_) => 17
    case WaitFirstInit(_) => 16
    case FirstInitHeld(_) => 15
    case FirstInit(_) => 14
    case WaitSecondaryRead(_) => 13
    case SecondaryReadHeld(_) => 12
    case SecondaryCalc(_) => 11
    case SecondaryReadDone(_, _) => 10
    case WaitSecondaryWrite(_) => 9
    case SecondaryWriteHeld(_) => 8
    case Reinit(_) => 7
    case ExclusiveCalc(_) => 6
    case ExclusiveDone(_) => 5
    case WaitDataset(_, n) => SliceCount(n) + 7
    case WaitCacheWrite(_, n) => SliceCount(n) + 6
    case BothHeld(_, n) => SliceCount(n) + 5
    case CacheInit(_, n) => SliceCount(n) + 4
    case MinerHeld(n) => SliceCount(n) + 4
    case WaitFill(_, n) => SliceCount(n) + 3
    case Fill(_, _, todo) => |todo| + 2
    case DatasetRelease(_) => 1
  }

  lemma MainStepsAreBounded(sh: Shared, i: nat, th: Thread, c: Choice)
    requires InMainPath(th.pc) && MainPath(sh, i, th, c).Some?
    ensures Rank(MainPath(sh, i, th, c).value.1.pc) < Rank(th.pc)
  {
  }

  lemma SecondaryStepsAreBounded(sh: Shared, i: nat, th: Thread, c: Choice)
    requires InSecondaryPath(th.pc) && SecondaryPath(sh, i, th, c).Some?
    ensures Rank(SecondaryPath(sh, i, th, c).value.1.pc) < Rank(th.pc)
  {
  }

  lemma SeedStepsAreBounded(items: nat, sh: Shared, i: nat, th: Thread, c: Choice)
    requires InSeedPath(th.pc) && SeedPath(items, sh, i, th, c).Some?
    ensures Rank(SeedPath(items, sh, i, th, c).value.1.pc) < Rank(th.pc)
  {
    hide SeedPath, Rank;
    if th.pc.Fill? {
      FillIsBounded(items, sh, i, th, c);
    } else if th.pc.WaitDataset? || th.pc.WaitCacheWrite? || th.pc.BothHeld? {
      LockingIsBounded(items, sh, i, th, c);
    } else {
      AllocatingIsBounded(items, sh, i, th, c);
    }
  }

  lemma LockingIsBounded(items: nat, sh: Shared, i: nat, th: Thread, c: Choice)
    requires (th.pc.WaitDataset? || th.pc.WaitCacheWrite? || th.pc.BothHeld?) && SeedPath(items, sh, i, th, c).Some?
    ensures Rank(SeedPath(items, sh, i, th, c).value.1.pc) < Rank(th.pc)
  {
    hide AllSlices, FillSlice, Blank, SliceCount, AddReader, DropReader, Key;
  }

  lemma AllocatingIsBounded(items: nat, sh: Shared, i: nat, th: Thread, c: Choice)
    requires th.pc.CacheInit? || th.pc.MinerHeld? || th.pc.WaitFill? || th.pc.DatasetRelease?
    requires SeedPath(items, sh, i, th, c).Some?
    ensures Rank(SeedPath(items, sh, i, th, c).value.1.pc) < Rank(th.pc)
  {
    hide AllSlices, FillSlice, Blank, SliceCount, AddReader, DropReader, Key;
  }

  lemma FillIsBounded(items: nat, sh: Shared, i: nat, th: Thread, c: Choice)
    requires th.pc.Fill? && SeedPath(items, sh, i, th, c).Some?
    ensures Rank(SeedPath(items, sh, i, th, c).value.1.pc) < Rank(th.pc)
  {
    hide FillSlice, DropReader, Key;
    var todo := th.pc.todo;
    if todo != {} {
      assert c.slice in todo;
      assert |todo - {c.slice}| == |todo| - 1;
    }
  }

  /** Every step brings its call closer to its end, so a call takes a bounded number of steps. */
  lemma StepsAreBounded(items: nat, sh: Shared, i: nat, th: Thread, c: Choice)
    requires Advance(items, sh, i, th, c).Some?
    ensures Rank(Advance(items, sh, i, th, c).value.1.pc) < Rank(th.pc)
  {
    hide MainPath, SecondaryPath, SeedPath, Rank;
    if InMainPath(th.pc) {
      MainStepsAreBounded(sh, i, th, c);
    } else if InSecondaryPath(th.pc) {
      SecondaryStepsAreBounded(sh, i, th, c);
    } else {
      SeedStepsAreBounded(items, sh, i, th, c);
    }
  }

  ghost function TotalRank(threads: seq<Thread>): (n: nat) {
    if threads == [] then 0 else Rank(threads[0].pc) + TotalRank(threads[1..])
  }

  lemma {:induction false} TotalRankUpdate(threads: seq<Thread>, i: nat, th: Thread)
    requires i < |threads|
    ensures TotalRank(threads[i := th]) == TotalRank(threads) - Rank(threads[i].pc) + Rank(th.pc)
    ensures TotalRank(threads) >= Rank(threads[i].pc)
    decreases |threads|
  {
    if i == 0 {
      assert threads[i := th][1..] == threads[1..];
    } else {
      TotalRankUpdate(threads[1..], i - 1, th);
      assert threads[i := th][1..] == threads[1..][i - 1 := th];
    }
  }

  /** From every reachable state, however far the calls in progress have come, they can all be finished
      in no more moves than their ranks add up to. */
  lemma {:induction false} EveryCallCanReturn(items: nat, s: System) returns (moves: seq<Action>)
    requires Inv(items, s)
    ensures forall k :: 0 <= k < |moves| ==> moves[k].Move?
    ensures |moves| <= TotalRank(s.threads)
    ensures AllIdle(Continue(items, s, moves))
    decreases TotalRank(s.threads)
  {
    if AllIdle(s) {
      moves := [];
    } else {
      var i: nat :| i < |s.threads| && !s.threads[i].pc.Idle?;
      var j, c := NextMover(items, s, i);
      var a := Move(j, c);
      var s1 := Step(items, s, a).value;
      StepKeepsInv(items, s, a);
      MoveLowersRank(items, s, j, c);
      hide Step, Inv;
      var rest := EveryCallCanReturn(items, s1);
      moves := [a] + rest;
      assert moves[0] == a && moves[1..] == rest;
    }
  }

  lemma NextMover(items: nat, s: System, i: nat) returns (j: nat, c: Choice)
    requires Inv(items, s) && i < |s.threads| && !s.threads[i].pc.Idle?
    ensures j < |s.threads| && Step(items, s, Move(j, c)).Some?
  {
    hide Advance;
    j := SomeoneGoes(items, s, i);
    assert ThreadOk(s.shared, j, s.threads[j]);
    c := GoingIsPossible(items, s.shared, j, s.threads[j]);
  }

  lemma MoveLowersRank(items: nat, s: System, i: nat, c: Choice)
    requires i < |s.threads| && Step(items, s, Move(i, c)).Some?
    ensures TotalRank(Step(items, s, Move(i, c)).value.threads) < TotalRank(s.threads)
  {
    StepsAreBounded(items, s.shared, i, s.threads[i], c);
    hide Advance;
    TotalRankUpdate(s.threads, i, Advance(items, s.shared, i, s.threads[i], c).value.1);
  }

  predicate AllIdle(s: System) {
    forall i :: 0 <= i < |s.threads| ==> s.threads[i].pc.Idle?
  }

  /** Taking moves one after another, first move first. */
  function Continue(items: nat, s: System, moves: seq<Action>): (s': System)
    decreases |moves|
  {
    if moves == [] then s
    else
      var next := Step(items, s, moves[0]);
      Continue(items, if next.None? then s else next.value, moves[1..])
  }
}
