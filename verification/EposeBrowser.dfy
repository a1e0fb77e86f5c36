/** How the browser judges the sections of EPoSE snapshots (src/templates/assets/epose-status.js), for the
    sections the backend builds and for any others. */
module EposeBrowser {
  import opened Basics
  import opened Epose
  import RewardView

  const MAX_SAFE := 9007199254740991

  /** A JSON value as the script sees it. Int is a number with an integer value; a string, and an array or
      object, carries the integer Number() would make of it, if any. */
  datatype Js =
    | Undefined
    | Null
    | Bool(b: bool)
    | Int(n: int)
    | OtherNumber
    | Str(s: string, number: Option<int>)
    | Compound(number: Option<int>)

  /** The JSON members the script reads; each is named after its member. */
  datatype Key =
    | SnapshotConsistencyKey
    | SnapshotBlockCountKey
    | SnapshotTipHeightKey
    | SnapshotTipHashKey
    | CurrentEpochKey
    | SourceEpochKey
    | ObserverTipHeightKey
    | EpochKey
    | HeightKey
    | QualificationAvailabilityKey
    | ProtocolVersionKey
    | EpochEndHeightKey
    | QualificationEpochKey
    | QualifiedForCurrentEpochKey
    | ProtocolActiveKey
    | SourceQualificationAvailabilityKey
    | SourceQualificationEpochKey
    | QualifiedForSourceEpochKey
    | EffectiveEpochKey
    | ExpiryEpochKey

  type Payload = map<Key, Js>

  function Get(p: Payload, key: Key): (v: Js) {
    if key in p then p[key] else Undefined
  }

  predicate IsText(v: Js, s: string) {
    v.Str? && v.s == s
  }

  /** What Number() makes of a value the script passes to it, when that is an integer. */
  function NumberOf(v: Js): (n: Option<int>) {
    match v
    case Int(k) => Some(k)
    case Str(s, number) => if s == "" then None else number
    case Compound(number) => number
    case _ => None
  }

  /** Non-negative safe integers only. */
  function Integer(v: Js): (n: Option<nat>)
    ensures forall k: nat :: n == Some(k) <==> NumberOf(v) == Some(k) && k <= 9007199254740991
  {
    match v
    case Int(n) => if 0 <= n <= MAX_SAFE then Some(n) else None
    case Str(s, number) =>
      if s == "" || number.None? || number.value < 0 || number.value > MAX_SAFE then None else Some(number.value)
    case Compound(number) =>
      if number.None? || number.value < 0 || number.value > MAX_SAFE then None else Some(number.value)
    case _ => None
  }

  datatype PageAnchor = PageAnchor(blockCount: nat, tipHeight: nat, tipHash: string)

  function SnapshotAnchor(p: Option<Payload>): (a: Option<PageAnchor>) {
    if p.None? || !IsText(Get(p.value, SnapshotConsistencyKey), "anchored") then None
    else
      var count := Integer(Get(p.value, SnapshotBlockCountKey));
      var height := Integer(Get(p.value, SnapshotTipHeightKey));
      var hash := Get(p.value, SnapshotTipHashKey);
      if count.None? || count.value == 0 || height.None? || count.value - 1 != height.value
         || !hash.Str? || !RewardView.LowerHex64(hash.s) then None
      else Some(PageAnchor(count.value, height.value, hash.s))
  }

  predicate SameAnchor(a: Option<PageAnchor>, b: Option<PageAnchor>) {
    a.Some? && b.Some? && a == b
  }

  datatype Context = Context(current: bool, rewards: bool, currentEpoch: Option<nat>, sourceEpoch: Option<nat>)

  const UNAVAILABLE_CONTEXT := Context(false, false, None, None)

  /** currentFinal of the source equals current in both of its results. */
  function SnapshotContext(info: Option<Payload>, nodes: Option<Payload>, rewards: Option<Payload>): (c: Context) {
    if info.None? || nodes.None? then UNAVAILABLE_CONTEXT
    else
      var anchor := SnapshotAnchor(info);
      var epoch := Integer(Get(info.value, CurrentEpochKey));
      var nodesEpoch := Integer(Get(nodes.value, CurrentEpochKey));
      var source := Integer(Get(nodes.value, SourceEpochKey));
      var tipHeight := Integer(Get(info.value, ObserverTipHeightKey));
      if epoch.None? || nodesEpoch.None? || tipHeight.None? || !SameAnchor(anchor, SnapshotAnchor(nodes))
         || anchor.value.tipHeight != tipHeight.value || nodesEpoch != epoch then UNAVAILABLE_CONTEXT
      else
        var rewardsEpoch := if rewards.None? then None else Integer(Get(rewards.value, EpochKey));
        var rewardHeight := if rewards.None? then None else Integer(Get(rewards.value, HeightKey));
        var matching := source.Some? && rewardsEpoch.Some? && rewardHeight.Some?
                        && SameAnchor(anchor, SnapshotAnchor(rewards))
                        && rewardHeight.value == anchor.value.blockCount
                        && rewardsEpoch.value < MAX_SAFE && source == rewardsEpoch
                        && rewardsEpoch.value + 1 == epoch.value;
        Context(true, matching, epoch, if matching then source else None)
  }

  datatype Phase = NoPhase | PendingPhase | ClosedPhase

  /** Only protocol version 2, with its anchor depth of 60, is known. */
  function QualificationPhase(info: Payload): (p: Phase) {
    if !IsText(Get(info, QualificationAvailabilityKey), "current") then NoPhase
    else
      var version := Integer(Get(info, ProtocolVersionKey));
      var end := Integer(Get(info, EpochEndHeightKey));
      var tip := Integer(Get(info, ObserverTipHeightKey));
      if version != Some(2) || end.None? || tip.None? || end.value < 60 then NoPhase
      else if tip.value >= end.value - 60 then ClosedPhase else PendingPhase
  }

  datatype Verdict = Pending | Qualified | NotQualified | NotParticipating | Unavailable

  function CurrentQualification(node: Option<Payload>, info: Option<Payload>, c: Context): (v: Verdict) {
    if node.None? || !c.current || info.None? then Unavailable
    else
      var epoch := Integer(Get(info.value, CurrentEpochKey));
      var nodeEpoch := Integer(Get(node.value, QualificationEpochKey));
      if epoch.None? || nodeEpoch.None? || c.currentEpoch != epoch || epoch != nodeEpoch
         || !IsText(Get(node.value, QualificationAvailabilityKey), "current") then Unavailable
      else if Get(node.value, QualifiedForCurrentEpochKey) == Bool(true) then Qualified
      else if Get(node.value, ProtocolActiveKey) == Bool(false) then NotParticipating
      else if Get(node.value, ProtocolActiveKey) != Bool(true)
              || Get(node.value, QualifiedForCurrentEpochKey) != Bool(false) then Unavailable
      else
        match QualificationPhase(info.value)
        case PendingPhase => Pending
        case ClosedPhase => NotQualified
        case NoPhase => Unavailable
  }

  function RewardQualification(node: Option<Payload>, c: Context): (v: Verdict) {
    if !c.rewards || node.None? || !IsText(Get(node.value, SourceQualificationAvailabilityKey), "finalized") then Unavailable
    else
      var source := Integer(Get(node.value, SourceQualificationEpochKey));
      if source.None? || c.sourceEpoch != source then Unavailable
      else if Get(node.value, QualifiedForSourceEpochKey) == Bool(true) then Qualified
      else if Get(node.value, QualifiedForSourceEpochKey) != Bool(false) then Unavailable
      else
        var effective := Integer(Get(node.value, EffectiveEpochKey));
        var expiry := Integer(Get(node.value, ExpiryEpochKey));
        if effective.None? || expiry.None? || expiry.value < effective.value then Unavailable
        else if source.value < effective.value || source.value >= expiry.value then Unavailable
        else NotQualified
  }

  // --- what the backend sends ------------------------------------------------------------------

  /** A 64-bit number in the script: exact while safe; beyond, some other unsafe integer. */
  function JsonNumber(n: nat): (v: Js)
    ensures Integer(v) == if n <= MAX_SAFE then Some(n) else None
  {
    Int(n)
  }

  function AnchorFields(r: Reply): (p: Payload)
    requires r.Success? && r.anchor.count > 0
  {
    map[SnapshotBlockCountKey := JsonNumber(r.anchor.count),
        SnapshotTipHeightKey := JsonNumber(r.anchor.count - 1),
        SnapshotTipHashKey := Str(r.anchor.tip, None),
        SnapshotConsistencyKey := Str("anchored", None)]
  }

  function InfoSection(r: Reply): (p: Payload)
    requires r.Success? && r.anchor.count > 0
  {
    map[CurrentEpochKey := JsonNumber(r.info.currentEpoch),
        ProtocolVersionKey := JsonNumber(r.info.protocolVersion),
        EpochEndHeightKey := JsonNumber(r.info.epochEnd),
        ObserverTipHeightKey := JsonNumber(r.anchor.count - 1),
        QualificationAvailabilityKey := Str("current", None)] + AnchorFields(r)
  }

  function NodesSection(r: Reply): (p: Payload)
    requires r.Success? && r.anchor.count > 0
  {
    map[CurrentEpochKey := JsonNumber(r.info.currentEpoch),
        SourceEpochKey := JsonNumber(r.rewards.epoch)] + AnchorFields(r)
  }

  function RewardsSection(r: Reply): (p: Payload)
    requires r.Success? && r.anchor.count > 0
  {
    map[HeightKey := JsonNumber(r.rewards.height), EpochKey := JsonNumber(r.rewards.epoch)] + AnchorFields(r)
  }

  function NodeSection(r: Reply, e: NodeEntry): (p: Payload)
    requires r.Success?
  {
    map[QualificationEpochKey := JsonNumber(r.info.currentEpoch),
        QualificationAvailabilityKey := Str("current", None),
        QualifiedForCurrentEpochKey := Bool(e.node.qualified),
        ProtocolActiveKey := Bool(e.node.active),
        SourceQualificationEpochKey := JsonNumber(r.rewards.epoch),
        SourceQualificationAvailabilityKey := Str("finalized", None),
        QualifiedForSourceEpochKey := Bool(e.qualifiedForSource),
        EffectiveEpochKey := JsonNumber(e.node.effective),
        ExpiryEpochKey := JsonNumber(e.node.expiry)]
  }

  // --- results ---------------------------------------------------------------------------------

  lemma SectionAnchor(r: Reply, p: Payload)
    requires r.Success? && r.anchor.count > 0
    requires forall k :: k in AnchorFields(r) ==> k in p && p[k] == AnchorFields(r)[k]
    ensures SnapshotAnchor(Some(p)) == PageAnchorOf(r)
  {
    var f := AnchorFields(r);
    assert SnapshotBlockCountKey in f && SnapshotTipHeightKey in f && SnapshotTipHashKey in f && SnapshotConsistencyKey in f;
  }

  function PageAnchorOf(r: Reply): (a: Option<PageAnchor>)
    requires r.Success? && r.anchor.count > 0
  {
    if r.anchor.count <= MAX_SAFE && RewardView.LowerHex64(r.anchor.tip)
    then Some(PageAnchor(r.anchor.count, r.anchor.count - 1, r.anchor.tip)) else None
  }

  /** What the script reads back from the sections of one reply. */
  lemma SectionsReadBack(r: Reply)
    requires r.Success? && r.anchor.count > 0
    ensures SnapshotAnchor(Some(InfoSection(r))) == SnapshotAnchor(Some(NodesSection(r)))
            == SnapshotAnchor(Some(RewardsSection(r))) == PageAnchorOf(r)
    ensures Get(InfoSection(r), CurrentEpochKey) == Get(NodesSection(r), CurrentEpochKey) == JsonNumber(r.info.currentEpoch)
    ensures Get(InfoSection(r), ObserverTipHeightKey) == JsonNumber(r.anchor.count - 1)
    ensures Get(NodesSection(r), SourceEpochKey) == Get(RewardsSection(r), EpochKey) == JsonNumber(r.rewards.epoch)
    ensures Get(RewardsSection(r), HeightKey) == JsonNumber(r.rewards.height)
  {
    InfoReadsBack(r);
    NodesReadBack(r);
    RewardsReadBack(r);
    hide InfoSection, NodesSection, RewardsSection, SnapshotAnchor, JsonNumber, Get, PageAnchorOf;
  }

  lemma InfoReadsBack(r: Reply)
    requires r.Success? && r.anchor.count > 0
    ensures SnapshotAnchor(Some(InfoSection(r))) == PageAnchorOf(r)
    ensures Get(InfoSection(r), CurrentEpochKey) == JsonNumber(r.info.currentEpoch)
    ensures Get(InfoSection(r), ObserverTipHeightKey) == JsonNumber(r.anchor.count - 1)
  {
    hide SnapshotAnchor, JsonNumber, PageAnchorOf;
    SectionAnchor(r, InfoSection(r));
  }

  lemma NodesReadBack(r: Reply)
    requires r.Success? && r.anchor.count > 0
    ensures SnapshotAnchor(Some(NodesSection(r))) == PageAnchorOf(r)
    ensures Get(NodesSection(r), CurrentEpochKey) == JsonNumber(r.info.currentEpoch)
    ensures Get(NodesSection(r), SourceEpochKey) == JsonNumber(r.rewards.epoch)
  {
    hide SnapshotAnchor, JsonNumber, PageAnchorOf;
    SectionAnchor(r, NodesSection(r));
  }

  lemma RewardsReadBack(r: Reply)
    requires r.Success? && r.anchor.count > 0
    ensures SnapshotAnchor(Some(RewardsSection(r))) == PageAnchorOf(r)
    ensures Get(RewardsSection(r), EpochKey) == JsonNumber(r.rewards.epoch)
    ensures Get(RewardsSection(r), HeightKey) == JsonNumber(r.rewards.height)
  {
    hide SnapshotAnchor, JsonNumber, PageAnchorOf;
    SectionAnchor(r, RewardsSection(r));
  }

  /** Whether the browser combines an info and a node section: exactly when the two snapshots carry the same
      anchor and epoch, in numbers the script can represent. In particular the sections of one snapshot are
      always current and sections with different anchors never are. */
  lemma CurrentIffSameAnchor(r: Reply, q: Reply, rewards: Option<Payload>)
    requires r.Success? && q.Success? && r.anchor.count > 0 && q.anchor.count > 0
    ensures SnapshotContext(Some(InfoSection(r)), Some(NodesSection(q)), rewards).current
            <==> && r.anchor == q.anchor && r.info.currentEpoch == q.info.currentEpoch
                 && r.anchor.count <= MAX_SAFE && r.info.currentEpoch <= MAX_SAFE
                 && RewardView.LowerHex64(r.anchor.tip)
  {
    hide RewardView.LowerHex64, SnapshotAnchor, InfoSection, NodesSection, RewardsSection, Get, JsonNumber, Integer;
    SectionsReadBack(r);
    SectionsReadBack(q);
  }

  /** The reward section joins exactly when it also shares the anchor, its height is the anchored block count
      and its epoch is the one before. */
  lemma RewardsIffSourceEpoch(r: Reply, q: Reply)
    requires r.Success? && q.Success? && r.anchor.count > 0 && q.anchor.count > 0
    requires r.anchor.count <= MAX_SAFE && r.info.currentEpoch <= MAX_SAFE && RewardView.LowerHex64(r.anchor.tip)
    ensures SnapshotContext(Some(InfoSection(r)), Some(NodesSection(r)), Some(RewardsSection(q))).rewards
            <==> && r.anchor == q.anchor && q.rewards.height == r.anchor.count
                 && r.rewards.epoch == q.rewards.epoch && q.rewards.epoch + 1 == r.info.currentEpoch
  {
    hide RewardView.LowerHex64, SnapshotAnchor, InfoSection, NodesSection, RewardsSection, Get, JsonNumber, Integer;
    SectionsReadBack(r);
    SectionsReadBack(q);
  }

  /** What the core said of a node in the current epoch: qualified; else registered without being active; else,
      under the one protocol version known, not qualified once the tip is within 60 blocks of the epoch's end. */
  function CoreVerdict(r: Reply, e: NodeEntry): (v: Verdict)
    requires r.Success? && r.anchor.count > 0
  {
    if e.node.qualified then Qualified
    else if !e.node.active then NotParticipating
    else if r.info.protocolVersion != 2 || r.info.epochEnd < 60 || r.info.epochEnd > MAX_SAFE then Unavailable
    else if r.anchor.count - 1 + 60 >= r.info.epochEnd then NotQualified
    else Pending
  }

  /** What it said of the reward source epoch: qualified when the key is in the finalized set, not qualified
      when it is not although the registration covered that epoch. */
  function SourceVerdict(r: Reply, e: NodeEntry): (v: Verdict)
    requires r.Success?
  {
    if e.qualifiedForSource then Qualified
    else if e.node.expiry <= MAX_SAFE && e.node.effective <= r.rewards.epoch < e.node.expiry then NotQualified
    else Unavailable
  }

  /** The browser shows for every node of a snapshot exactly what the core said of it, when the snapshot's
      numbers are safe; of the source epoch, when that is the epoch before the current one. */
  lemma BrowserShowsCoreVerdict(r: Reply, e: NodeEntry)
    requires r.Success? && 0 < r.anchor.count <= MAX_SAFE && RewardView.LowerHex64(r.anchor.tip)
    requires r.info.currentEpoch <= MAX_SAFE && r.rewards.height == r.anchor.count
    ensures var info, node := Some(InfoSection(r)), Some(NodeSection(r, e));
            var c := SnapshotContext(info, Some(NodesSection(r)), Some(RewardsSection(r)));
            && CurrentQualification(node, info, c) == CoreVerdict(r, e)
            && RewardQualification(node, c)
               == if r.rewards.epoch + 1 == r.info.currentEpoch then SourceVerdict(r, e) else Unavailable
  {
    hide InfoSection, NodesSection, RewardsSection, NodeSection, SnapshotContext, SnapshotAnchor, JsonNumber,
      RewardView.LowerHex64, CurrentQualification, RewardQualification, CoreVerdict, SourceVerdict;
    CurrentIffSameAnchor(r, r, Some(RewardsSection(r)));
    RewardsIffSourceEpoch(r, r);
    ContextEpochs(r);
    var c := SnapshotContext(Some(InfoSection(r)), Some(NodesSection(r)), Some(RewardsSection(r)));
    CurrentVerdictShown(r, e, c);
    SourceVerdictShown(r, e, c);
  }

  lemma CurrentVerdictShown(r: Reply, e: NodeEntry, c: Context)
    requires r.Success? && 0 < r.anchor.count <= MAX_SAFE && r.info.currentEpoch <= MAX_SAFE
    requires c.current && c.currentEpoch == Some(r.info.currentEpoch)
    ensures CurrentQualification(Some(NodeSection(r, e)), Some(InfoSection(r)), c) == CoreVerdict(r, e)
  {
    hide InfoSection, NodeSection, QualificationPhase, SnapshotAnchor, Get, JsonNumber, Integer;
    NodeReadsBack(r, e);
    PhaseReadsBack(r);
    SectionsReadBack(r);
  }

  lemma SourceVerdictShown(r: Reply, e: NodeEntry, c: Context)
    requires r.Success? && (c.rewards ==> r.rewards.epoch < MAX_SAFE && c.sourceEpoch == Some(r.rewards.epoch))
    ensures RewardQualification(Some(NodeSection(r, e)), c) == if c.rewards then SourceVerdict(r, e) else Unavailable
  {
    hide NodeSection, Get, JsonNumber, Integer;
    NodeReadsBack(r, e);
  }

  lemma ContextEpochs(r: Reply)
    requires r.Success? && r.anchor.count > 0
    ensures var c := SnapshotContext(Some(InfoSection(r)), Some(NodesSection(r)), Some(RewardsSection(r)));
            && (c.current ==> c.currentEpoch == Integer(JsonNumber(r.info.currentEpoch)))
            && (c.rewards ==> c.sourceEpoch == Integer(JsonNumber(r.rewards.epoch)))
  {
    hide RewardView.LowerHex64, SnapshotAnchor, InfoSection, NodesSection, RewardsSection, Get, JsonNumber, Integer;
    SectionsReadBack(r);
  }

  lemma NodeReadsBack(r: Reply, e: NodeEntry)
    requires r.Success?
    ensures var p := NodeSection(r, e);
            && Get(p, QualificationEpochKey) == JsonNumber(r.info.currentEpoch)
            && Get(p, SourceQualificationEpochKey) == JsonNumber(r.rewards.epoch)
            && Get(p, QualifiedForCurrentEpochKey) == Bool(e.node.qualified)
            && Get(p, ProtocolActiveKey) == Bool(e.node.active)
            && Get(p, QualifiedForSourceEpochKey) == Bool(e.qualifiedForSource)
            && Get(p, EffectiveEpochKey) == JsonNumber(e.node.effective)
            && Get(p, ExpiryEpochKey) == JsonNumber(e.node.expiry)
            && IsText(Get(p, QualificationAvailabilityKey), "current")
            && IsText(Get(p, SourceQualificationAvailabilityKey), "finalized")
  {
    hide JsonNumber;
  }

  lemma PhaseReadsBack(r: Reply)
    requires r.Success? && 0 < r.anchor.count <= MAX_SAFE
    ensures QualificationPhase(InfoSection(r)) ==
            if r.info.protocolVersion != 2 || r.info.epochEnd < 60 || r.info.epochEnd > MAX_SAFE then NoPhase
            else if r.anchor.count - 1 + 60 >= r.info.epochEnd then ClosedPhase
            else PendingPhase
  {
  }

  /** For any payloads whatever, with arrays and objects in place of numbers included: a verdict about a node
      is given only when the anchors and epochs of all the sections it rests on agree, and a final negative one
      only once the qualification has closed. */
  lemma VerdictNeedsMatchingSections(
      node: Option<Payload>, info: Option<Payload>, nodes: Option<Payload>, rewards: Option<Payload>)
    ensures var c := SnapshotContext(info, nodes, rewards);
            CurrentQualification(node, info, c) != Unavailable ==>
              && info.Some? && nodes.Some? && node.Some?
              && SnapshotAnchor(info).Some? && SnapshotAnchor(info) == SnapshotAnchor(nodes)
              && Integer(Get(info.value, ObserverTipHeightKey)) == Some(SnapshotAnchor(info).value.tipHeight)
              && Integer(Get(info.value, CurrentEpochKey)).Some?
              && Integer(Get(info.value, CurrentEpochKey)) == Integer(Get(nodes.value, CurrentEpochKey))
                 == Integer(Get(node.value, QualificationEpochKey))
              && (CurrentQualification(node, info, c) == NotQualified ==> QualificationPhase(info.value) == ClosedPhase)
    ensures var c := SnapshotContext(info, nodes, rewards);
            RewardQualification(node, c) != Unavailable ==>
              && info.Some? && nodes.Some? && rewards.Some? && node.Some?
              && SnapshotAnchor(info).Some? && SnapshotAnchor(info) == SnapshotAnchor(nodes) == SnapshotAnchor(rewards)
              && Integer(Get(rewards.value, HeightKey)) == Some(SnapshotAnchor(info).value.blockCount)
              && Integer(Get(rewards.value, EpochKey)).Some?
              && Integer(Get(rewards.value, EpochKey)) == Integer(Get(nodes.value, SourceEpochKey))
                 == Integer(Get(node.value, SourceQualificationEpochKey))
              && Integer(Get(info.value, CurrentEpochKey)) == Some(Integer(Get(rewards.value, EpochKey)).value + 1)
  {
    hide SnapshotAnchor, Integer, QualificationPhase;
  }
}
