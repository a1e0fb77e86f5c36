/** The cache and dataset locking protocol of src/crypto/rx-slow-hash.c as interleaved steps. A lock's state is
    explicit; what is read without a lock is an arbitrary choice; every result holds for all schedules. */
module RandomX {
  import opened Basics
  import opened RandomXDataset

  type Seed = string

  /** Cache memory: not allocated, being initialised, or initialised for a seed. */
  datatype Cache = Missing | Unfinished | Ready(seed: Seed)

  datatype RwLock = RwLock(writer: Option<nat>, readers: set<nat>)
  {
    predicate CanRead() {
      writer.None?
    }

    predicate CanWrite() {
      writer.None? && readers == {}
    }
  }

  datatype Shared = Shared(
    mainSeed: Option<Seed>, mainCache: Cache, dataset: Option<seq<Option<Seed>>>,
    secondarySeed: Option<Seed>, secondaryCache: Cache,
    datasetLock: RwLock, cacheLock: RwLock, secondaryLock: RwLock)

  datatype Job = Hash(seed: Seed) | SetMain(main: Seed, maxThreads: nat) | SetMiner(minerThreads: nat)

  /** Where a call stands; each waiting point is just before the lock call it names. */
  datatype Pc =
    | Idle
    // me_rx_slow_hash, main seed
    | TryDataset(seed: Seed) | DatasetHeld(seed: Seed) | FullCalc(seed: Seed) | DatasetDone(seed: Seed, success: bool)
    | WaitMainCache(seed: Seed) | MainCacheHeld(seed: Seed) | LightCalc(seed: Seed) | MainCacheDone(seed: Seed, success: bool)
    // me_rx_slow_hash, secondary seed
    | CheckSecondary(seed: Seed) | WaitFirstInit(seed: Seed) | FirstInitHeld(seed: Seed) | FirstInit(seed: Seed)
    | WaitSecondaryRead(seed: Seed) | SecondaryReadHeld(seed: Seed) | SecondaryCalc(seed: Seed)
    | SecondaryReadDone(seed: Seed, success: bool)
    | WaitSecondaryWrite(seed: Seed) | SecondaryWriteHeld(seed: Seed) | Reinit(seed: Seed) | ExclusiveCalc(seed: Seed)
    | ExclusiveDone(seed: Seed)
    // me_rx_set_main_seedhash_thread and me_rx_set_miner_thread
    | WaitDataset(target: Option<Seed>, maxThreads: nat) | WaitCacheWrite(seed: Seed, maxThreads: nat) | BothHeld(seed: Seed, maxThreads: nat)
    | CacheInit(seed: Seed, maxThreads: nat) | MinerHeld(maxThreads: nat)
    | WaitFill(target: Option<Seed>, maxThreads: nat) | Fill(target: Option<Seed>, slices: nat, todo: set<nat>)
    | DatasetRelease(target: Option<Seed>)

  /** A thread with its virtual machines: whether it has one on the dataset, and the cache key the light
      ones were last bound to. calls counts hash calls that returned, results hashes calculated. */
  datatype Thread = Thread(pc: Pc, calls: nat, results: nat, vmFull: bool, mainKey: Option<Seed>, secondaryKey: Option<Seed>)

  datatype System = System(shared: Shared, threads: seq<Thread>)

  /** Everything a step may not decide: unlocked reads, try-lock and allocation luck, the next slice done. */
  datatype Choice = Choice(isMain: bool, yes: bool, slice: nat)

  predicate IsMain(sh: Shared, seed: Seed) {
    sh.mainSeed == Some(seed)
  }

  predicate IsSecondary(sh: Shared, seed: Seed) {
    sh.secondarySeed == Some(seed)
  }

  function Key(c: Cache): (k: Option<Seed>) {
    if c.Ready? then Some(c.seed) else None
  }

  function AddReader(l: RwLock, i: nat): (l': RwLock) {
    l.(readers := l.readers + {i})
  }

  function DropReader(l: RwLock, i: nat): (l': RwLock) {
    l.(readers := l.readers - {i})
  }

  // --- which lock a position holds -------------------------------------------------------------

  predicate ReadsDataset(pc: Pc) {
    pc.DatasetHeld? || pc.FullCalc? || pc.DatasetDone?
  }

  predicate WritesDataset(pc: Pc) {
    pc.WaitCacheWrite? || pc.BothHeld? || pc.CacheInit? || pc.MinerHeld? || pc.WaitFill? || pc.Fill? || pc.DatasetRelease?
  }

  predicate ReadsCache(pc: Pc) {
    pc.MainCacheHeld? || pc.LightCalc? || pc.MainCacheDone? || pc.Fill?
  }

  predicate WritesCache(pc: Pc) {
    pc.BothHeld? || pc.CacheInit?
  }

  predicate ReadsSecondary(pc: Pc) {
    pc.SecondaryReadHeld? || pc.SecondaryCalc? || pc.SecondaryReadDone?
  }

  predicate WritesSecondary(pc: Pc) {
    pc.FirstInitHeld? || pc.FirstInit? || pc.SecondaryWriteHeld? || pc.Reinit? || pc.ExclusiveCalc? || pc.ExclusiveDone?
  }

  // --- steps -----------------------------------------------------------------------------------

  function Begin(sh: Shared, th: Thread, job: Job, c: Choice): (next: Option<Thread>) {
    if !th.pc.Idle? then None
    else
      match job
      case Hash(seed) =>
        Some(th.(pc := if !c.isMain then CheckSecondary(seed) else if c.yes then TryDataset(seed) else WaitMainCache(seed)))
      case SetMain(seed, n) =>
        Some(if c.isMain then th else th.(pc := WaitDataset(Some(seed), n)))
      case SetMiner(n) =>
        // callers enable mining only after a main seed was set
        if sh.mainSeed.None? then None else Some(th.(pc := WaitDataset(None, n)))
  }

  function Return(th: Thread): (th': Thread) {
    th.(pc := Idle, calls := th.calls + 1)
  }

  predicate InMainPath(pc: Pc) {
    pc.TryDataset? || pc.DatasetHeld? || pc.FullCalc? || pc.DatasetDone?
    || pc.WaitMainCache? || pc.MainCacheHeld? || pc.LightCalc? || pc.MainCacheDone?
  }

  /** Fast path of me_rx_slow_hash. */
  function MainPath(sh: Shared, i: nat, th: Thread, c: Choice): (next: Option<(Shared, Thread)>)
    requires InMainPath(th.pc)
  {
    match th.pc
    case TryDataset(seed) =>
      if c.yes && sh.datasetLock.CanRead() then
        Some((sh.(datasetLock := AddReader(sh.datasetLock, i)), th.(pc := DatasetHeld(seed))))
      else Some((sh, th.(pc := WaitMainCache(seed))))
    case DatasetHeld(seed) =>
      if IsMain(sh, seed) && (th.vmFull || (sh.dataset.Some? && c.yes)) then
        Some((sh, th.(pc := FullCalc(seed), vmFull := true)))
      else Some((sh, th.(pc := DatasetDone(seed, false))))
    case FullCalc(seed) =>
      Some((sh, th.(pc := DatasetDone(seed, true), results := th.results + 1)))
    case DatasetDone(seed, success) =>
      Some((sh.(datasetLock := DropReader(sh.datasetLock, i)),
            if success then Return(th) else th.(pc := CheckSecondary(seed))))
    case WaitMainCache(seed) =>
      if !sh.cacheLock.CanRead() then None
      else Some((sh.(cacheLock := AddReader(sh.cacheLock, i)), th.(pc := MainCacheHeld(seed))))
    case MainCacheHeld(seed) =>
      if IsMain(sh, seed) then Some((sh, th.(pc := LightCalc(seed), mainKey := Key(sh.mainCache))))
      else Some((sh, th.(pc := MainCacheDone(seed, false))))
    case LightCalc(seed) =>
      Some((sh, th.(pc := MainCacheDone(seed, true), results := th.results + 1)))
    case MainCacheDone(seed, success) =>
      Some((sh.(cacheLock := DropReader(sh.cacheLock, i)),
            if success then Return(th) else th.(pc := CheckSecondary(seed))))
  }

  predicate InSecondaryPath(pc: Pc) {
    pc.CheckSecondary? || pc.WaitFirstInit? || pc.FirstInitHeld? || pc.FirstInit? || pc.WaitSecondaryRead?
    || pc.SecondaryReadHeld? || pc.SecondaryCalc? || pc.SecondaryReadDone? || pc.WaitSecondaryWrite?
    || pc.SecondaryWriteHeld? || pc.Reinit? || pc.ExclusiveCalc? || pc.ExclusiveDone?
  }

  /** Slow and slowest paths of me_rx_slow_hash. */
  function SecondaryPath(sh: Shared, i: nat, th: Thread, c: Choice): (next: Option<(Shared, Thread)>)
    requires InSecondaryPath(th.pc)
  {
    var freed := sh.secondaryLock.(writer := None);
    var taken := sh.secondaryLock.(writer := Some(i));
    match th.pc
    case CheckSecondary(seed) =>
      // the pointer, once set, stays set: it may be seen late but not early
      Some((sh, th.(pc := if c.yes || sh.secondaryCache.Missing? then WaitFirstInit(seed) else WaitSecondaryRead(seed))))
    case WaitFirstInit(seed) =>
      if !sh.secondaryLock.CanWrite() then None
      else Some((sh.(secondaryLock := taken), th.(pc := FirstInitHeld(seed))))
    case FirstInitHeld(seed) =>
      if sh.secondaryCache.Missing? then Some((sh.(secondaryCache := Unfinished), th.(pc := FirstInit(seed))))
      else Some((sh.(secondaryLock := freed), th.(pc := WaitSecondaryRead(seed))))
    case FirstInit(seed) =>
      Some((sh.(secondaryCache := Ready(seed), secondarySeed := Some(seed), secondaryLock := freed),
            th.(pc := WaitSecondaryRead(seed))))
    case WaitSecondaryRead(seed) =>
      if !sh.secondaryLock.CanRead() then None
      else Some((sh.(secondaryLock := AddReader(sh.secondaryLock, i)), th.(pc := SecondaryReadHeld(seed))))
    case SecondaryReadHeld(seed) =>
      if IsSecondary(sh, seed) then Some((sh, th.(pc := SecondaryCalc(seed), secondaryKey := Key(sh.secondaryCache))))
      else Some((sh, th.(pc := SecondaryReadDone(seed, false))))
    case SecondaryCalc(seed) =>
      Some((sh, th.(pc := SecondaryReadDone(seed, true), results := th.results + 1)))
    case SecondaryReadDone(seed, success) =>
      Some((sh.(secondaryLock := DropReader(sh.secondaryLock, i)),
            if success then Return(th) else th.(pc := WaitSecondaryWrite(seed))))
    case WaitSecondaryWrite(seed) =>
      if !sh.secondaryLock.CanWrite() then None
      else Some((sh.(secondaryLock := taken), th.(pc := SecondaryWriteHeld(seed))))
    case SecondaryWriteHeld(seed) =>
      if !IsSecondary(sh, seed) then Some((sh.(secondaryCache := Unfinished), th.(pc := Reinit(seed))))
      else Some((sh, th.(pc := ExclusiveCalc(seed), secondaryKey := Key(sh.secondaryCache))))
    case Reinit(seed) =>
      Some((sh.(secondaryCache := Ready(seed), secondarySeed := Some(seed)),
            th.(pc := ExclusiveCalc(seed), secondaryKey := Some(seed))))
    case ExclusiveCalc(seed) =>
      Some((sh, th.(pc := ExclusiveDone(seed), results := th.results + 1)))
    case ExclusiveDone(_) =>
      Some((sh.(secondaryLock := freed), Return(th)))
  }

  predicate InSeedPath(pc: Pc) {
    pc.WaitDataset? || pc.WaitCacheWrite? || pc.BothHeld? || pc.CacheInit? || pc.MinerHeld?
    || pc.WaitFill? || pc.Fill? || pc.DatasetRelease?
  }

  function Blank(items: nat): (d: seq<Option<Seed>>)
    ensures |d| == items
  {
    seq(items, _ => None)
  }

  function FillSlice(d: seq<Option<Seed>>, k: nat, j: nat, v: Option<Seed>): (d': seq<Option<Seed>>)
    requires j < k
    ensures |d'| == |d|
    ensures forall x :: 0 <= x < |d| ==>
              d'[x] == if SliceStart(|d|, k, j) <= x < SliceEnd(|d|, k, j) then v else d[x]
  {
    seq(|d|, x requires 0 <= x < |d| => if SliceStart(|d|, k, j) <= x < SliceEnd(|d|, k, j) then v else d[x])
  }

  function AllSlices(k: nat): (s: set<nat>)
    ensures |s| == k && forall j: nat :: j in s <==> j < k
  {
    if k == 0 then {} else AllSlices(k - 1) + {k - 1}
  }

  /** Seed change and miner start. */
  function SeedPath(items: nat, sh: Shared, i: nat, th: Thread, c: Choice): (next: Option<(Shared, Thread)>)
    requires InSeedPath(th.pc)
  {
    match th.pc
    case WaitDataset(target, n) =>
      if !sh.datasetLock.CanWrite() then None
      else
        Some((sh.(datasetLock := sh.datasetLock.(writer := Some(i))),
              th.(pc := if target.Some? then WaitCacheWrite(target.value, n) else MinerHeld(n))))
    case WaitCacheWrite(seed, n) =>
      if !sh.cacheLock.CanWrite() then None
      else Some((sh.(cacheLock := sh.cacheLock.(writer := Some(i))), th.(pc := BothHeld(seed, n))))
    case BothHeld(seed, n) =>
      if IsMain(sh, seed) then
        Some((sh.(cacheLock := sh.cacheLock.(writer := None), datasetLock := sh.datasetLock.(writer := None)), th.(pc := Idle)))
      else
        Some((sh.(mainSeed := Some(seed), mainCache := Unfinished,
                  dataset := if sh.dataset.None? && c.yes then Some(Blank(items)) else sh.dataset),
              th.(pc := CacheInit(seed, n))))
    case CacheInit(seed, n) =>
      Some((sh.(mainCache := Ready(seed), cacheLock := sh.cacheLock.(writer := None)), th.(pc := WaitFill(Some(seed), n))))
    case MinerHeld(n) =>
      if sh.dataset.Some? then Some((sh, th.(pc := DatasetRelease(None))))
      else Some((sh.(dataset := if c.yes then Some(Blank(items)) else None), th.(pc := WaitFill(None, n))))
    case WaitFill(target, n) =>
      if sh.dataset.None? then Some((sh, th.(pc := DatasetRelease(target))))
      else if !sh.cacheLock.CanRead() then None
      else
        Some((sh.(cacheLock := AddReader(sh.cacheLock, i)),
              th.(pc := Fill(target, SliceCount(n), AllSlices(SliceCount(n))))))
    case Fill(target, k, todo) =>
      if todo == {} then Some((sh.(cacheLock := DropReader(sh.cacheLock, i)), th.(pc := DatasetRelease(target))))
      else if c.slice !in todo || c.slice >= k || sh.dataset.None? then None
      else Some((sh.(dataset := Some(FillSlice(sh.dataset.value, k, c.slice, Key(sh.mainCache)))),
                 th.(pc := Fill(target, k, todo - {c.slice}))))
    case DatasetRelease(_) =>
      Some((sh.(datasetLock := sh.datasetLock.(writer := None)), th.(pc := Idle)))
  }

  function Advance(items: nat, sh: Shared, i: nat, th: Thread, c: Choice): (next: Option<(Shared, Thread)>) {
    if InMainPath(th.pc) then MainPath(sh, i, th, c)
    else if InSecondaryPath(th.pc) then SecondaryPath(sh, i, th, c)
    else if InSeedPath(th.pc) then SeedPath(items, sh, i, th, c)
    else None
  }

  datatype Action = Start(i: nat, job: Job, choice: Choice) | Move(i: nat, choice: Choice)

  function Step(items: nat, s: System, a: Action): (s': Option<System>) {
    if a.i >= |s.threads| then None
    else
      match a
      case Start(i, job, c) =>
        var next := Begin(s.shared, s.threads[i], job, c);
        if next.None? then None else Some(s.(threads := s.threads[i := next.value]))
      case Move(i, c) =>
        var next := Advance(items, s.shared, i, s.threads[i], c);
        if next.None? then None else Some(System(next.value.0, s.threads[i := next.value.1]))
  }

  const FREE := RwLock(None, {})

  predicate Initial(s: System) {
    && s.shared == Shared(None, Missing, None, None, Missing, FREE, FREE, FREE)
    && forall i :: 0 <= i < |s.threads| ==> s.threads[i] == Thread(Idle, 0, 0, false, None, None)
  }

  /** A run: steps that are blocked do not happen. */
  function Run(items: nat, s: System, actions: seq<Action>): (s': System) {
    if actions == [] then s
    else
      var before := Run(items, s, actions[..|actions| - 1]);
      var next := Step(items, before, actions[|actions| - 1]);
      if next.None? then before else next.value
  }
}
