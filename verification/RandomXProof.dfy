/** Safety and progress of the RandomX locking protocol. */
module RandomXProof {
  import opened Basics
  import opened RandomXDataset
  import opened RandomX

  // --- invariant -------------------------------------------------------------------------------

  /** The lock words agree with where thread i stands. */
  ghost predicate LockWord(l: RwLock, i: nat, reading: bool, writing: bool) {
    (l.writer == Some(i) <==> writing) && (i in l.readers <==> reading)
  }

  ghost predicate LocksOk(sh: Shared, i: nat, pc: Pc) {
    && LockWord(sh.datasetLock, i, ReadsDataset(pc), WritesDataset(pc))
    && LockWord(sh.cacheLock, i, ReadsCache(pc), WritesCache(pc))
    && LockWord(sh.secondaryLock, i, ReadsSecondary(pc), WritesSecondary(pc))
  }

  /** Every item outside the slices still to do was initialised for the seed. */
  ghost predicate FilledExcept(d: seq<Option<Seed>>, k: nat, todo: set<nat>, seed: Seed)
    requires 1 <= k
  {
    forall x :: 0 <= x < |d| && SliceOf(|d|, k, x) !in todo ==> d[x] == Some(seed)
  }

  ghost predicate DatasetFor(d: seq<Option<Seed>>, seed: Seed) {
    forall x :: 0 <= x < |d| ==> d[x] == Some(seed)
  }

  predicate PastFirstInit(pc: Pc) {
    pc.WaitSecondaryRead? || pc.SecondaryReadHeld? || pc.SecondaryCalc? || pc.SecondaryReadDone?
    || pc.WaitSecondaryWrite? || pc.SecondaryWriteHeld? || pc.Reinit? || pc.ExclusiveCalc? || pc.ExclusiveDone?
  }

  /** A seed change has set the seed it was asked for. */
  predicate Reached(sh: Shared, target: Option<Seed>) {
    target.Some? ==> sh.mainSeed == target
  }

  /** What a position knows about the memory it is about to use or is filling. */
  ghost predicate MemoryOk(sh: Shared, th: Thread) {
    && (PastFirstInit(th.pc) ==> !sh.secondaryCache.Missing?)
    && (th.vmFull ==> sh.dataset.Some?)
    && match th.pc
       case FullCalc(seed) => IsMain(sh, seed) && th.vmFull
       case LightCalc(seed) => IsMain(sh, seed) && th.mainKey == Some(seed)
       case SecondaryCalc(seed) => IsSecondary(sh, seed) && th.secondaryKey == Some(seed)
       case ExclusiveCalc(seed) => IsSecondary(sh, seed) && th.secondaryKey == Some(seed) && sh.secondaryCache == Ready(seed)
       case FirstInit(_) => sh.secondaryCache.Unfinished?
       case Reinit(_) => sh.secondaryCache.Unfinished?
       case CacheInit(seed, _) => IsMain(sh, seed)
       case WaitDataset(target, _) => target.None? ==> sh.mainSeed.Some?
       case MinerHeld(_) => sh.mainSeed.Some?
       case WaitFill(target, _) => sh.mainSeed.Some? && Reached(sh, target)
       case DatasetRelease(target) => Reached(sh, target)
       case Fill(target, k, todo) =>
         && sh.mainSeed.Some? && Reached(sh, target) && sh.dataset.Some? && 1 <= k && (forall j :: j in todo ==> j < k)
         && FilledExcept(sh.dataset.value, k, todo, sh.mainSeed.value)
       case _ => true
  }

  /** A hash call has calculated its one result exactly when it is about to return. */
  predicate CountsOk(th: Thread) {
    th.results == th.calls +
      (match th.pc
       case DatasetDone(_, success) => if success then 1 else 0
       case MainCacheDone(_, success) => if success then 1 else 0
       case SecondaryReadDone(_, success) => if success then 1 else 0
       case ExclusiveDone(_) => 1
       case _ => 0)
  }

  ghost predicate ThreadOk(sh: Shared, i: nat, th: Thread) {
    LocksOk(sh, i, th.pc) && MemoryOk(sh, th) && CountsOk(th)
  }

  /** The position of a lock's writer, or Idle. */
  function WriterPc(l: RwLock, threads: seq<Thread>): (pc: Pc) {
    if l.writer.Some? && l.writer.value < |threads| then threads[l.writer.value].pc else Idle
  }

  predicate LockSane(l: RwLock, n: nat) {
    && (l.writer.Some? ==> l.readers == {} && l.writer.value < n)
    && forall r :: r in l.readers ==> r < n
  }

  predicate FillsDataset(pc: Pc) {
    pc.CacheInit? || pc.WaitFill? || pc.Fill?
  }

  /** The shared memory: consistent with the seeds except while its writer is rewriting it. */
  ghost predicate SharedOk(items: nat, sh: Shared, datasetWriter: Pc, cacheWriter: Pc, secondaryWriter: Pc) {
    && (sh.dataset.Some? ==> |sh.dataset.value| == items)
    && (sh.mainSeed.None? ==> sh.dataset.None?)
    && (!cacheWriter.CacheInit? && sh.mainSeed.Some? ==> sh.mainCache == Ready(sh.mainSeed.value))
    && (!FillsDataset(datasetWriter) && sh.dataset.Some? ==> DatasetFor(sh.dataset.value, sh.mainSeed.value))
    && (!secondaryWriter.FirstInit? && !secondaryWriter.Reinit? ==>
          && (sh.secondarySeed.Some? ==> sh.secondaryCache == Ready(sh.secondarySeed.value))
          && (sh.secondarySeed.None? ==> sh.secondaryCache.Missing?))
  }

  ghost predicate Inv(items: nat, s: System) {
    && LockSane(s.shared.datasetLock, |s.threads|)
    && LockSane(s.shared.cacheLock, |s.threads|)
    && LockSane(s.shared.secondaryLock, |s.threads|)
    && SharedOk(items, s.shared, WriterPc(s.shared.datasetLock, s.threads),
                WriterPc(s.shared.cacheLock, s.threads), WriterPc(s.shared.secondaryLock, s.threads))
    && forall i :: 0 <= i < |s.threads| ==> ThreadOk(s.shared, i, s.threads[i])
  }

  // --- one step by thread i --------------------------------------------------------------------

  /** A filled slice leaves the others as they were. */
  lemma FillSliceProgress(d: seq<Option<Seed>>, k: nat, todo: set<nat>, j: nat, seed: Seed)
    requires j < k && FilledExcept(d, k, todo, seed)
    ensures FilledExcept(FillSlice(d, k, j, Some(seed)), k, todo - {j}, seed)
  {
    var d' := FillSlice(d, k, j, Some(seed));
    forall x | 0 <= x < |d'| && SliceOf(|d'|, k, x) !in todo - {j} ensures d'[x] == Some(seed) {
      SlicesTile(|d|, k, x, j);
    }
  }

  /** What one step by thread i may do to a lock. */
  ghost predicate LockMoves(l: RwLock, l': RwLock, i: nat) {
    || l' == l
    || (l.CanRead() && l' == AddReader(l, i))
    || (i in l.readers && l' == DropReader(l, i))
    || (l.CanWrite() && l' == l.(writer := Some(i)))
    || (l.writer == Some(i) && l' == l.(writer := None))
  }

  ghost predicate LocksMove(sh: Shared, sh': Shared, i: nat) {
    && LockMoves(sh.datasetLock, sh'.datasetLock, i)
    && LockMoves(sh.cacheLock, sh'.cacheLock, i)
    && LockMoves(sh.secondaryLock, sh'.secondaryLock, i)
  }

  /** Memory changes only under the write lock that guards it, and allocations are never undone. */
  ghost predicate Guarded(sh: Shared, sh': Shared, pc: Pc) {
    && (!WritesDataset(pc) ==> sh'.mainSeed == sh.mainSeed && sh'.mainCache == sh.mainCache && sh'.dataset == sh.dataset)
    && (!WritesCache(pc) ==> sh'.mainSeed == sh.mainSeed && sh'.mainCache == sh.mainCache)
    && (!WritesSecondary(pc) ==> sh'.secondarySeed == sh.secondarySeed && sh'.secondaryCache == sh.secondaryCache)
    && (sh.dataset.Some? ==> sh'.dataset.Some?)
    && (sh.mainSeed.Some? ==> sh'.mainSeed.Some?)
    && (!sh.secondaryCache.Missing? ==> !sh'.secondaryCache.Missing?)
  }

  /** Another thread's knowledge survives any guarded step. */
  lemma OtherThreadKeepsOk(sh: Shared, sh': Shared, i: nat, pc: Pc, j: nat, th: Thread, n: nat)
    requires i != j && LocksOk(sh, i, pc) && ThreadOk(sh, j, th)
    requires LocksMove(sh, sh', i) && Guarded(sh, sh', pc)
    requires LockSane(sh.datasetLock, n) && LockSane(sh.cacheLock, n) && LockSane(sh.secondaryLock, n)
    ensures ThreadOk(sh', j, th)
  {
    hide FilledExcept;
    assert LocksOk(sh', j, th.pc);
    assert WritesDataset(pc) ==> !WritesDataset(th.pc) && !ReadsDataset(th.pc);
    assert WritesCache(pc) ==> !WritesCache(th.pc) && !ReadsCache(th.pc);
    assert WritesSecondary(pc) ==> !WritesSecondary(th.pc) && !ReadsSecondary(th.pc);
  }

  lemma LockStaysSane(l: RwLock, l': RwLock, i: nat, n: nat)
    requires LockSane(l, n) && LockMoves(l, l', i) && i < n
    ensures LockSane(l', n)
  {
  }

  // main path

  lemma MainMoves(sh: Shared, i: nat, th: Thread, c: Choice)
    requires InMainPath(th.pc) && MainPath(sh, i, th, c).Some? && LocksOk(sh, i, th.pc)
    ensures var (sh', th') := MainPath(sh, i, th, c).value; LocksMove(sh, sh', i)
  {
  }

  lemma MainHolds(sh: Shared, i: nat, th: Thread, c: Choice)
    requires InMainPath(th.pc) && MainPath(sh, i, th, c).Some? && LocksOk(sh, i, th.pc)
    ensures var (sh', th') := MainPath(sh, i, th, c).value; LocksOk(sh', i, th'.pc)
  {
  }

  lemma MainGuards(sh: Shared, i: nat, th: Thread, c: Choice)
    requires InMainPath(th.pc) && MainPath(sh, i, th, c).Some? && LocksOk(sh, i, th.pc)
    ensures var (sh', th') := MainPath(sh, i, th, c).value; Guarded(sh, sh', th.pc)
  {
  }

  lemma MainSelf(sh: Shared, i: nat, th: Thread, c: Choice)
    requires InMainPath(th.pc) && MainPath(sh, i, th, c).Some? && MemoryOk(sh, th) && CountsOk(th)
    requires th.pc.MainCacheHeld? && sh.mainSeed.Some? ==> sh.mainCache == Ready(sh.mainSeed.value)
    ensures var (sh', th') := MainPath(sh, i, th, c).value; MemoryOk(sh', th') && CountsOk(th')
  {
  }

  // secondary path

  lemma SecondaryMoves(sh: Shared, i: nat, th: Thread, c: Choice)
    requires InSecondaryPath(th.pc) && SecondaryPath(sh, i, th, c).Some? && LocksOk(sh, i, th.pc)
    ensures var (sh', th') := SecondaryPath(sh, i, th, c).value; LocksMove(sh, sh', i)
  {
  }

  lemma SecondaryHolds(sh: Shared, i: nat, th: Thread, c: Choice)
    requires InSecondaryPath(th.pc) && SecondaryPath(sh, i, th, c).Some? && LocksOk(sh, i, th.pc)
    ensures var (sh', th') := SecondaryPath(sh, i, th, c).value; LocksOk(sh', i, th'.pc)
  {
  }

  lemma SecondaryGuards(sh: Shared, i: nat, th: Thread, c: Choice)
    requires InSecondaryPath(th.pc) && SecondaryPath(sh, i, th, c).Some? && LocksOk(sh, i, th.pc)
    ensures var (sh', th') := SecondaryPath(sh, i, th, c).value; Guarded(sh, sh', th.pc)
  {
  }

  lemma SecondarySelf(sh: Shared, i: nat, th: Thread, c: Choice)
    requires InSecondaryPath(th.pc) && SecondaryPath(sh, i, th, c).Some? && MemoryOk(sh, th) && CountsOk(th)
    requires (th.pc.SecondaryReadHeld? || th.pc.SecondaryWriteHeld?) && sh.secondarySeed.Some?
             ==> sh.secondaryCache == Ready(sh.secondarySeed.value)
    ensures var (sh', th') := SecondaryPath(sh, i, th, c).value; MemoryOk(sh', th') && CountsOk(th')
  {
  }

  // seed path

  lemma SeedMoves(items: nat, sh: Shared, i: nat, th: Thread, c: Choice)
    requires InSeedPath(th.pc) && SeedPath(items, sh, i, th, c).Some? && LocksOk(sh, i, th.pc)
    ensures var (sh', th') := SeedPath(items, sh, i, th, c).value; LocksMove(sh, sh', i)
  {
  }

  lemma SeedHoldsDataset(items: nat, sh: Shared, i: nat, th: Thread, c: Choice)
    requires InSeedPath(th.pc) && SeedPath(items, sh, i, th, c).Some? && LocksOk(sh, i, th.pc)
    ensures var (sh', th') := SeedPath(items, sh, i, th, c).value;
            LockWord(sh'.datasetLock, i, ReadsDataset(th'.pc), WritesDataset(th'.pc))
  {
  }

  lemma SeedHoldsCache(items: nat, sh: Shared, i: nat, th: Thread, c: Choice)
    requires InSeedPath(th.pc) && SeedPath(items, sh, i, th, c).Some? && LocksOk(sh, i, th.pc)
    ensures var (sh', th') := SeedPath(items, sh, i, th, c).value;
            LockWord(sh'.cacheLock, i, ReadsCache(th'.pc), WritesCache(th'.pc))
  {
    hide FillSlice, AllSlices, Blank, Key, SliceCount;
  }

  lemma SeedHoldsSecondary(items: nat, sh: Shared, i: nat, th: Thread, c: Choice)
    requires InSeedPath(th.pc) && SeedPath(items, sh, i, th, c).Some? && LocksOk(sh, i, th.pc)
    ensures var (sh', th') := SeedPath(items, sh, i, th, c).value;
            LockWord(sh'.secondaryLock, i, ReadsSecondary(th'.pc), WritesSecondary(th'.pc))
  {
    hide FillSlice, AllSlices, Blank, Key, SliceCount;
  }

  lemma SeedGuards(items: nat, sh: Shared, i: nat, th: Thread, c: Choice)
    requires InSeedPath(th.pc) && SeedPath(items, sh, i, th, c).Some? && LocksOk(sh, i, th.pc)
    ensures var (sh', th') := SeedPath(items, sh, i, th, c).value; Guarded(sh, sh', th.pc)
  {
  }

  lemma FillSelf(items: nat, sh: Shared, i: nat, th: Thread, c: Choice)
    requires th.pc.Fill? && SeedPath(items, sh, i, th, c).Some? && MemoryOk(sh, th) && CountsOk(th)
    requires sh.mainCache == Ready(sh.mainSeed.value)
    ensures var (sh', th') := SeedPath(items, sh, i, th, c).value; MemoryOk(sh', th') && CountsOk(th')
  {
    hide FilledExcept, FillSlice;
    if th.pc.todo != {} {
      FillSliceProgress(sh.dataset.value, th.pc.slices, th.pc.todo, c.slice, sh.mainSeed.value);
    }
  }

  lemma OtherSeedSelf(items: nat, sh: Shared, i: nat, th: Thread, c: Choice)
    requires InSeedPath(th.pc) && !th.pc.Fill?
    requires SeedPath(items, sh, i, th, c).Some? && MemoryOk(sh, th) && CountsOk(th)
    ensures var (sh', th') := SeedPath(items, sh, i, th, c).value; MemoryOk(sh', th') && CountsOk(th')
  {
    hide FillSlice, AllSlices, Blank;
  }

  lemma SeedSelf(items: nat, sh: Shared, i: nat, th: Thread, c: Choice)
    requires InSeedPath(th.pc) && SeedPath(items, sh, i, th, c).Some? && MemoryOk(sh, th) && CountsOk(th)
    requires th.pc.Fill? ==> sh.mainCache == Ready(sh.mainSeed.value)
    ensures var (sh', th') := SeedPath(items, sh, i, th, c).value; MemoryOk(sh', th') && CountsOk(th')
  {
    hide SeedPath, MemoryOk, CountsOk;
    if th.pc.Fill? {
      FillSelf(items, sh, i, th, c);
    } else {
      OtherSeedSelf(items, sh, i, th, c);
    }
  }

  // shared memory

  /** The position of the writer after thread i moved to pc. */
  function NewWriter(l: RwLock, i: nat, pc: Pc, was: Pc): (w: Pc) {
    if l.writer.None? then Idle else if l.writer == Some(i) then pc else was
  }

  lemma WriterAfterMove(l: RwLock, l': RwLock, threads: seq<Thread>, i: nat, th': Thread)
    requires i < |threads| && LockMoves(l, l', i)
    ensures WriterPc(l', threads[i := th']) == NewWriter(l', i, th'.pc, WriterPc(l, threads))
  {
  }

  lemma MainShared(items: nat, sh: Shared, i: nat, th: Thread, c: Choice, dw: Pc, cw: Pc, sw: Pc)
    requires InMainPath(th.pc) && MainPath(sh, i, th, c).Some? && SharedOk(items, sh, dw, cw, sw)
    ensures SharedOk(items, MainPath(sh, i, th, c).value.0, dw, cw, sw)
  {
  }

  lemma SecondaryShared(items: nat, sh: Shared, i: nat, th: Thread, c: Choice, dw: Pc, cw: Pc, sw: Pc)
    requires InSecondaryPath(th.pc) && SecondaryPath(sh, i, th, c).Some? && SharedOk(items, sh, dw, cw, sw)
    requires MemoryOk(sh, th) && sw == NewWriter(sh.secondaryLock, i, th.pc, sw)
    requires LockWord(sh.secondaryLock, i, ReadsSecondary(th.pc), WritesSecondary(th.pc))
    ensures var (sh', th') := SecondaryPath(sh, i, th, c).value;
            SharedOk(items, sh', dw, cw, NewWriter(sh'.secondaryLock, i, th'.pc, sw))
  {
    hide DatasetFor;
  }

  lemma SeedShared(items: nat, sh: Shared, i: nat, th: Thread, c: Choice, dw: Pc, cw: Pc, sw: Pc)
    requires InSeedPath(th.pc) && SeedPath(items, sh, i, th, c).Some? && SharedOk(items, sh, dw, cw, sw)
    requires MemoryOk(sh, th) && LocksOk(sh, i, th.pc)
    requires dw == NewWriter(sh.datasetLock, i, th.pc, dw) && cw == NewWriter(sh.cacheLock, i, th.pc, cw)
    ensures var (sh', th') := SeedPath(items, sh, i, th, c).value;
            SharedOk(items, sh', NewWriter(sh'.datasetLock, i, th'.pc, dw), NewWriter(sh'.cacheLock, i, th'.pc, cw), sw)
  {
  }

  // --- every step keeps the invariant ----------------------------------------------------------

  /** What the step lemmas of the three paths give together. */
  ghost predicate GoodStep(items: nat, sh: Shared, i: nat, th: Thread, sh': Shared, th': Thread, dw: Pc, cw: Pc, sw: Pc) {
    && LocksMove(sh, sh', i) && Guarded(sh, sh', th.pc)
    && ThreadOk(sh', i, th')
    && SharedOk(items, sh', NewWriter(sh'.datasetLock, i, th'.pc, dw), NewWriter(sh'.cacheLock, i, th'.pc, cw),
                NewWriter(sh'.secondaryLock, i, th'.pc, sw))
  }

  lemma AdvanceIsGood(items: nat, s: System, i: nat, c: Choice)
    requires Inv(items, s) && i < |s.threads| && Advance(items, s.shared, i, s.threads[i], c).Some?
    ensures var (sh', th') := Advance(items, s.shared, i, s.threads[i], c).value;
            GoodStep(items, s.shared, i, s.threads[i], sh', th', WriterPc(s.shared.datasetLock, s.threads),
                     WriterPc(s.shared.cacheLock, s.threads), WriterPc(s.shared.secondaryLock, s.threads))
  {
    hide MainPath, SecondaryPath, SeedPath, MemoryOk, CountsOk, Guarded;
    var sh, th := s.shared, s.threads[i];
    assert ThreadOk(sh, i, th);
    var dw, cw, sw := WriterPc(sh.datasetLock, s.threads), WriterPc(sh.cacheLock, s.threads), WriterPc(sh.secondaryLock, s.threads);
    if InMainPath(th.pc) {
      MainMoves(sh, i, th, c);
      MainHolds(sh, i, th, c);
      MainGuards(sh, i, th, c);
      MainSelf(sh, i, th, c);
      MainShared(items, sh, i, th, c, dw, cw, sw);
    } else if InSecondaryPath(th.pc) {
      SecondaryMoves(sh, i, th, c);
      SecondaryHolds(sh, i, th, c);
      SecondaryGuards(sh, i, th, c);
      SecondarySelf(sh, i, th, c);
      SecondaryShared(items, sh, i, th, c, dw, cw, sw);
    } else {
      SeedMoves(items, sh, i, th, c);
      SeedHoldsDataset(items, sh, i, th, c);
      SeedHoldsCache(items, sh, i, th, c);
      SeedHoldsSecondary(items, sh, i, th, c);
      SeedGuards(items, sh, i, th, c);
      FillerSeesSeed(items, s, i);
      SeedSelf(items, sh, i, th, c);
      SeedShared(items, sh, i, th, c, dw, cw, sw);
    }
  }

  /** The dataset is filled from a cache that is ready for the main seed. */
  lemma FillerSeesSeed(items: nat, s: System, i: nat)
    requires Inv(items, s) && i < |s.threads|
    ensures s.threads[i].pc.Fill? ==> s.shared.mainSeed.Some? && s.shared.mainCache == Ready(s.shared.mainSeed.value)
  {
    assert ThreadOk(s.shared, i, s.threads[i]);
  }

  lemma GoodStepKeepsInv(items: nat, s: System, i: nat, sh': Shared, th': Thread)
    requires Inv(items, s) && i < |s.threads|
    requires GoodStep(items, s.shared, i, s.threads[i], sh', th', WriterPc(s.shared.datasetLock, s.threads),
                      WriterPc(s.shared.cacheLock, s.threads), WriterPc(s.shared.secondaryLock, s.threads))
    ensures Inv(items, System(sh', s.threads[i := th']))
  {
    hide SharedOk, MemoryOk, CountsOk, Guarded;
    var sh, n := s.shared, |s.threads|;
    LockStaysSane(sh.datasetLock, sh'.datasetLock, i, n);
    LockStaysSane(sh.cacheLock, sh'.cacheLock, i, n);
    LockStaysSane(sh.secondaryLock, sh'.secondaryLock, i, n);
    WriterAfterMove(sh.datasetLock, sh'.datasetLock, s.threads, i, th');
    WriterAfterMove(sh.cacheLock, sh'.cacheLock, s.threads, i, th');
    WriterAfterMove(sh.secondaryLock, sh'.secondaryLock, s.threads, i, th');
    assert ThreadOk(sh, i, s.threads[i]);
    var after := s.threads[i := th'];
    forall j | 0 <= j < n ensures ThreadOk(sh', j, after[j]) {
      if j != i {
        OtherThreadKeepsOk(sh, sh', i, s.threads[i].pc, j, s.threads[j], n);
      }
    }
  }

  lemma BeginSelf(sh: Shared, i: nat, th: Thread, job: Job, c: Choice)
    requires ThreadOk(sh, i, th) && Begin(sh, th, job, c).Some?
    ensures ThreadOk(sh, i, Begin(sh, th, job, c).value)
  {
  }

  lemma BeginIsGood(items: nat, s: System, i: nat, job: Job, c: Choice)
    requires Inv(items, s) && i < |s.threads| && Begin(s.shared, s.threads[i], job, c).Some?
    ensures var th' := Begin(s.shared, s.threads[i], job, c).value;
            GoodStep(items, s.shared, i, s.threads[i], s.shared, th', WriterPc(s.shared.datasetLock, s.threads),
                     WriterPc(s.shared.cacheLock, s.threads), WriterPc(s.shared.secondaryLock, s.threads))
  {
    assert ThreadOk(s.shared, i, s.threads[i]);
    assert s.threads[i].pc.Idle?;
    BeginSelf(s.shared, i, s.threads[i], job, c);
    hide Begin, SharedOk, MemoryOk, CountsOk;
  }

  lemma StepKeepsInv(items: nat, s: System, a: Action)
    requires Inv(items, s) && Step(items, s, a).Some?
    ensures Inv(items, Step(items, s, a).value)
  {
    hide Advance, Begin, Inv, GoodStep;
    match a
    case Start(i, job, c) =>
      BeginIsGood(items, s, i, job, c);
      GoodStepKeepsInv(items, s, i, s.shared, Begin(s.shared, s.threads[i], job, c).value);
    case Move(i, c) =>
      AdvanceIsGood(items, s, i, c);
      var next := Advance(items, s.shared, i, s.threads[i], c).value;
      GoodStepKeepsInv(items, s, i, next.0, next.1);
  }

  lemma {:induction false} RunKeepsInv(items: nat, s: System, actions: seq<Action>)
    requires Initial(s)
    ensures Inv(items, Run(items, s, actions)) && |Run(items, s, actions).threads| == |s.threads|
    decreases |actions|
  {
    if actions == [] {
    } else {
      RunKeepsInv(items, s, actions[..|actions| - 1]);
      hide Inv;
      var before := Run(items, s, actions[..|actions| - 1]);
      var a := actions[|actions| - 1];
      if Step(items, before, a).Some? {
        StepKeepsInv(items, before, a);
      }
    }
  }
}
