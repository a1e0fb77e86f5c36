/** The anchored EPoSE snapshot: capture of a chain anchor, the qualified set and the cached snapshot
    (src/page.h, src/epose_snapshot.h). */
module Epose {
  import opened Basics
  import opened Chain
  import RewardView

  // --- the anchor ------------------------------------------------------------------------------

  /** Captured hashes always have the 64 characters the source asks for, so a valid anchor is one with blocks. */
  datatype Anchor = Anchor(count: nat, tip: Id)

  /** capture_epose_chain_anchor: count, tip, count again, tip again; a failed read gives up. */
  function Capture(w: World, t: nat): (r: (Option<Anchor>, nat))
    ensures t < r.1 <= t + 4 && (r.0.Some? ==> r.1 == t + 4)
  {
    var count := |w.ChainAt(t)|;
    if w.schedule(t).fault || count == 0 then (None, t + 1)
    else if w.schedule(t + 1).fault then (None, t + 2)
    else
      var tip := w.IdAt(t + 1, count - 1);
      if w.schedule(t + 2).fault || |w.ChainAt(t + 2)| != count then (None, t + 3)
      else if w.schedule(t + 3).fault || w.IdAt(t + 3, count - 1) != tip then (None, t + 4)
      else (Some(Anchor(count, tip)), t + 4)
  }

  /** The anchor is the block count and tip of the chain at instant u. */
  ghost predicate TrueAt(w: World, u: nat, a: Anchor) {
    a.count == |w.ChainAt(u)| > 0 && a.tip == w.ChainAt(u)[a.count - 1]
  }

  /** Some instant of the capture had the anchor for its count and tip. */
  ghost predicate TrueWithin(w: World, t: nat, a: Anchor) {
    exists u :: t <= u <= t + 3 && TrueAt(w, u, a)
  }

  /** A captured anchor is the true count and tip of an instant within the capture exactly when one of its
      reads would have passed the other test too: a tip read saw the count, or a count read saw the tip. */
  lemma CaptureIsTrueIff(w: World, t: nat)
    requires Capture(w, t).0.Some?
    ensures var a := Capture(w, t).0.value;
            TrueWithin(w, t, a)
            <==> || |w.ChainAt(t + 1)| == a.count || |w.ChainAt(t + 3)| == a.count
                 || w.IdAt(t, a.count - 1) == a.tip || w.IdAt(t + 2, a.count - 1) == a.tip
  {
    var a := Capture(w, t).0.value;
    if |w.ChainAt(t + 1)| == a.count {
      assert TrueAt(w, t + 1, a);
    } else if |w.ChainAt(t + 3)| == a.count {
      assert TrueAt(w, t + 3, a);
    } else if w.IdAt(t, a.count - 1) == a.tip {
      assert TrueAt(w, t, a);
    } else if w.IdAt(t + 2, a.count - 1) == a.tip {
      assert TrueAt(w, t + 2, a);
    } else {
      forall u | t <= u <= t + 3 ensures !TrueAt(w, u, a) {
        assert u == t || u == t + 1 || u == t + 2 || u == t + 3;
      }
    }
  }

  /** In particular whenever two adjacent reads of the four saw the same chain. */
  lemma CaptureIsTrue(w: World, t: nat)
    requires Capture(w, t).0.Some?
    requires w.ChainAt(t) == w.ChainAt(t + 1) || w.ChainAt(t + 1) == w.ChainAt(t + 2) || w.ChainAt(t + 2) == w.ChainAt(t + 3)
    ensures TrueWithin(w, t, Capture(w, t).0.value)
  {
    CaptureIsTrueIff(w, t);
  }

  /** On a chain that holds for the four reads, none of which fails, a capture gives its count and tip. */
  lemma CaptureOnStillChain(w: World, t: nat, c: IdChain)
    requires c != [] && forall u: nat :: t <= u <= t + 3 ==> w.schedule(u) == Instant(c, false)
    ensures Capture(w, t) == (Some(Anchor(|c|, c[|c| - 1])), t + 4)
  {
    assert w.schedule(t) == w.schedule(t + 1) == w.schedule(t + 2) == w.schedule(t + 3) == Instant(c, false);
  }

  function FlipBlock(id: Id): (b: Block) {
    if id == "g" then Block("", 0, []) else if id == "c" then Block("b", 0, []) else Block("g", 0, [])
  }

  function FlipInstant(t: nat): (i: Instant) {
    Instant(if t % 2 == 0 then ["g", "a"] else ["g", "b", "c"], false)
  }

  const FLIP := World(FlipBlock, FlipInstant)

  /** When every read sees another chain, the two pairs can agree on an anchor no instant ever had. */
  lemma CaptureCanBeUntrue()
    ensures FLIP.Valid()
    ensures Capture(FLIP, 0) == (Some(Anchor(2, "b")), 4)
    ensures forall u: nat :: !TrueAt(FLIP, u, Anchor(2, "b"))
  {
    assert "a"[0] != "b"[0] && "c"[0] != "g"[0];
    assert "g"[0] != NULL_ID[0] && "a"[0] != NULL_ID[0] && "b"[0] != NULL_ID[0] && "c"[0] != NULL_ID[0];
    forall t: nat ensures FLIP.LinkedAt(t) {
      var c := FLIP.ChainAt(t);
      assert LinkedBlock(FLIP.content, c, 0) && LinkedBlock(FLIP.content, c, 1);
      assert |c| > 2 ==> LinkedBlock(FLIP.content, c, 2);
    }
  }

  // --- the snapshot service --------------------------------------------------------------------

  datatype Info = Info(currentEpoch: nat, protocolVersion: nat, epochEnd: nat)
  datatype Rewards = Rewards(height: nat, epoch: nat, qualifiedCount: nat, qualifiedKeys: seq<string>)
  datatype ServiceNode = ServiceNode(key: string, active: bool, qualified: bool, effective: nat, expiry: nat)

  /** A node of the reply, and whether its key is in the finalized set of the reward source epoch. */
  datatype NodeEntry = NodeEntry(node: ServiceNode, qualifiedForSource: bool)

  datatype Reply = Failure
                 | Success(anchor: Anchor, info: Info, nodes: seq<NodeEntry>, rewards: Rewards, observedAt: nat)

  /** What the daemon answers in one attempt (None: the call fails), and the clock when the attempt ends. */
  datatype Attempt = Attempt(
    info: Option<Info>, nodes: Option<seq<ServiceNode>>, rewards: Option<Rewards>, finished: nat)

  /** The finalized set has the announced size and holds distinct public keys in canonical hex. */
  ghost predicate QualifiedSetOk(r: Rewards) {
    && |r.qualifiedKeys| == r.qualifiedCount
    && (forall i :: 0 <= i < |r.qualifiedKeys| ==> RewardView.LowerHex64(r.qualifiedKeys[i]))
    && (forall i, j :: 0 <= i < j < |r.qualifiedKeys| ==> r.qualifiedKeys[i] != r.qualifiedKeys[j])
  }

  method CheckQualifiedSet(r: Rewards) returns (valid: bool, keys: set<string>)
    ensures valid <==> QualifiedSetOk(r)
    ensures valid ==> forall key :: key in keys <==> key in r.qualifiedKeys
  {
    hide RewardView.LowerHex64;
    var all := r.qualifiedKeys;
    valid, keys := |all| == r.qualifiedCount, {};
    for i := 0 to |all|
      invariant valid <==>
          && |all| == r.qualifiedCount
          && (forall k :: 0 <= k < i ==> RewardView.LowerHex64(all[k]))
          && (forall j, k :: 0 <= j < k < i ==> all[j] != all[k])
      invariant valid ==> forall key :: key in keys <==> exists k :: 0 <= k < i && all[k] == key
    {
      if valid && RewardView.LowerHex64(all[i]) && all[i] !in keys {
        keys := keys + {all[i]};
      } else {
        valid := false;
      }
    }
  }

  /** Every node of the core's list, in order, marked by membership in the finalized set. */
  ghost predicate Marked(nodes: seq<ServiceNode>, r: Rewards, entries: seq<NodeEntry>) {
    && |entries| == |nodes|
    && forall i :: 0 <= i < |nodes| ==>
         entries[i].node == nodes[i] && (entries[i].qualifiedForSource <==> nodes[i].key in r.qualifiedKeys)
  }

  method MarkNodes(nodes: seq<ServiceNode>, keys: set<string>) returns (entries: seq<NodeEntry>)
    ensures |entries| == |nodes|
    ensures forall i :: 0 <= i < |nodes| ==>
              entries[i].node == nodes[i] && (entries[i].qualifiedForSource <==> nodes[i].key in keys)
  {
    entries := [];
    for i := 0 to |nodes|
      invariant |entries| == i
      invariant forall k :: 0 <= k < i ==>
                  entries[k].node == nodes[k] && (entries[k].qualifiedForSource <==> nodes[k].key in keys)
    {
      entries := entries + [NodeEntry(nodes[i], nodes[i].key in keys)];
    }
  }

  /** The reply is made of what the core answered in one attempt, for the anchored block count. */
  ghost predicate AnswersAttempt(r: Reply, a: Attempt) {
    && r.Success? && r.observedAt == a.finished
    && a.info == Some(r.info) && a.rewards == Some(r.rewards)
    && r.rewards.height == r.anchor.count && QualifiedSetOk(r.rewards)
    && a.nodes.Some? && Marked(a.nodes.value, r.rewards, r.nodes)
  }

  /** The first, second and third capture of an attempt that starts at instant t give one anchor, the core
      answers everything, for that block count and with a consistent qualified set. */
  ghost predicate Coherent(w: World, t: nat, a: Attempt, anchor: Anchor) {
    && Capture(w, t).0 == Capture(w, t + 4).0 == Capture(w, t + 8).0 == Some(anchor)
    && a.info.Some? && a.nodes.Some? && a.rewards.Some?
    && a.rewards.value.height == anchor.count && QualifiedSetOk(a.rewards.value)
  }

  /** What becomes of an attempt: an answer, a second attempt, or a refusal. */
  datatype Fate = Answered(anchor: Anchor) | Retried(now: nat) | Refused

  ghost function FateOf(w: World, t: nat, a: Attempt): (f: Fate) {
    var (before, t1) := Capture(w, t);
    if before.None? then Retried(t1)
    else if a.info.None? || a.nodes.None? || a.rewards.None? then Refused
    else
      var (after, t2) := Capture(w, t1);
      if after != before || a.rewards.value.height != before.value.count then Retried(t2)
      else if !QualifiedSetOk(a.rewards.value) then Refused
      else
        var (last, t3) := Capture(w, t2);
        if last != before then Retried(t3) else Answered(before.value)
  }

  /** An attempt answers exactly when it is coherent. It is refused exactly when the anchor was captured and an
      answer is missing, or the anchor held over the answers and the qualified set is inconsistent. In all
      other cases, an anchor that is missing or changed or that the rewards do not match, it is retried. */
  lemma FateIff(w: World, t: nat, a: Attempt)
    ensures forall anchor :: FateOf(w, t, a) == Answered(anchor) <==> Coherent(w, t, a, anchor)
    ensures FateOf(w, t, a).Refused? <==>
              && Capture(w, t).0.Some?
              && (|| a.info.None? || a.nodes.None? || a.rewards.None?
                  || (&& Capture(w, t + 4).0 == Capture(w, t).0 && a.rewards.value.height == Capture(w, t).0.value.count
                      && !QualifiedSetOk(a.rewards.value)))
  {
    hide Capture, QualifiedSetOk;
  }

  /** On a chain that holds for the twelve reads, an attempt whose answers are present, for the chain's block
      count and with a consistent qualified set, is answered with the chain's own count and tip. */
  lemma StillChainIsAnswered(w: World, t: nat, c: IdChain, a: Attempt)
    requires c != [] && forall u: nat :: t <= u <= t + 11 ==> w.schedule(u) == Instant(c, false)
    requires a.info.Some? && a.nodes.Some? && a.rewards.Some?
    requires a.rewards.value.height == |c| && QualifiedSetOk(a.rewards.value)
    ensures FateOf(w, t, a) == Answered(Anchor(|c|, c[|c| - 1]))
  {
    hide Capture, QualifiedSetOk;
    CaptureOnStillChain(w, t, c);
    CaptureOnStillChain(w, t + 4, c);
    CaptureOnStillChain(w, t + 8, c);
  }

  /** The reply to two attempts from instant t on. */
  ghost predicate Decided(w: World, t: nat, attempts: seq<Attempt>, reply: Reply)
    requires |attempts| == 2
  {
    match FateOf(w, t, attempts[0])
    case Answered(anchor) => AnswersAttempt(reply, attempts[0]) && reply.anchor == anchor
    case Refused => reply == Failure
    case Retried(t1) =>
      match FateOf(w, t1, attempts[1])
      case Answered(anchor) => AnswersAttempt(reply, attempts[1]) && reply.anchor == anchor
      case _ => reply == Failure
  }

  class SnapshotService {
    const daemon: Daemon
    var cache: Option<Reply>
    var cacheAnchor: Option<Anchor>
    var cacheTime: nat

    /** A cached success is stored with its own anchor. */
    ghost predicate Valid()
      reads this
    {
      cache.Some? && cache.value.Success? ==> cacheAnchor == Some(cache.value.anchor) && cacheTime == cache.value.observedAt
    }

    constructor (daemon: Daemon)
      ensures this.daemon == daemon && Valid() && cache == None
    {
      this.daemon := daemon;
      cache, cacheAnchor, cacheTime := None, None, 0;
    }

    method CaptureAnchor() returns (a: Option<Anchor>)
      modifies daemon
      ensures (a, daemon.now) == Capture(daemon.world, old(daemon.now))
    {
      var w := daemon.world;
      var fault := w.schedule(daemon.now).fault;
      var count := daemon.BlockCount();
      if fault || count == 0 {
        return None;
      }
      fault := w.schedule(daemon.now).fault;
      var tip := daemon.BlockId(count - 1);
      if fault {
        return None;
      }
      fault := w.schedule(daemon.now).fault;
      var count2 := daemon.BlockCount();
      if fault || count2 != count {
        return None;
      }
      fault := w.schedule(daemon.now).fault;
      var tip2 := daemon.BlockId(count2 - 1);
      if fault || tip2 != tip {
        return None;
      }
      a := Some(Anchor(count, tip));
    }

    /** A cached reply that is young enough: a failure under 1 second, a success under 15. */
    ghost predicate Young(requestTime: nat)
      reads this
    {
      cache.Some? && cacheTime <= requestTime < cacheTime + (if cache.value.Success? then 15 else 1)
    }

    /** json_epose_snapshot. A young cached reply is returned, a success only if its anchor is captured again;
        otherwise the fates of up to two attempts decide. Every success, cached or fresh, carries an anchor that this very call captured
        unchanged as its last reads; a cached one is under 15 seconds old, a fresh one was stamped in this
        call and its reward height is the anchored block count. Failures are cached for under a second. */
    method Snapshot(requestTime: nat, attempts: seq<Attempt>) returns (reply: Reply, fromCache: bool)
      requires Valid() && |attempts| == 2
      modifies this, daemon
      ensures Valid()
      ensures reply.Success? ==>
                && daemon.now >= old(daemon.now) + 4
                && Capture(daemon.world, daemon.now - 4) == (Some(reply.anchor), daemon.now)
      ensures fromCache <==>
                && old(Young(requestTime))
                && (old(cache).value.Failure? || Capture(daemon.world, old(daemon.now)).0 == Some(old(cache).value.anchor))
      ensures !fromCache ==>
                var recaptured := old(Young(requestTime) && cache.value.Success?);
                Decided(daemon.world, if recaptured then Capture(daemon.world, old(daemon.now)).1 else old(daemon.now),
                        attempts, reply)
      ensures fromCache ==> old(cache) == Some(reply) && old(cacheTime) <= requestTime
                            && requestTime < old(cacheTime) + (if reply.Success? then 15 else 1)
      ensures reply.Success? && fromCache ==> requestTime < reply.observedAt + 15
      ensures reply.Success? && !fromCache ==>
                exists i :: 0 <= i < 2 && AnswersAttempt(reply, attempts[i])
      ensures !fromCache ==> cache == Some(reply) && (reply.Failure? ==> cacheTime == requestTime)
      ensures fromCache ==> cache == old(cache) && cacheTime == old(cacheTime)
    {
      hide Capture, QualifiedSetOk, FateOf, Marked;
      fromCache := false;
      if cache.Some? && requestTime >= cacheTime {
        var success := cache.value.Success?;
        var lifetime := if success then 15 else 1;
        if requestTime - cacheTime < lifetime {
          if !success {
            return cache.value, true;
          }
          var current := CaptureAnchor();
          if current.Some? && cacheAnchor == current {
            return cache.value, true;
          }
        }
      }
      ghost var w, start := daemon.world, daemon.now;
      var i := 0;
      while i < 2
        invariant 0 <= i <= 2 && Valid() && daemon.now >= start >= old(daemon.now)
        invariant i == 0 ==> daemon.now == start
        invariant i == 1 ==> FateOf(w, start, attempts[0]) == Retried(daemon.now)
        invariant i == 2 ==> FateOf(w, start, attempts[0]).Retried? && FateOf(w, FateOf(w, start, attempts[0]).now, attempts[1]).Retried?
      {
        var outcome, retry := Try(attempts[i]);
        if outcome.Some? {
          reply := outcome.value;
          cache, cacheAnchor, cacheTime := outcome, Some(reply.anchor), reply.observedAt;
          return;
        }
        if !retry {
          reply := Fail(requestTime);
          return;
        }
        i := i + 1;
      }
      reply := Fail(requestTime);
    }

    /** One turn of the loop of json_epose_snapshot: a success, or whether to try again. */
    method Try(a: Attempt) returns (reply: Option<Reply>, retry: bool)
      modifies daemon
      ensures daemon.now >= old(daemon.now)
      ensures match FateOf(daemon.world, old(daemon.now), a)
              case Answered(anchor) =>
                && reply.Some? && AnswersAttempt(reply.value, a) && reply.value.anchor == anchor
                && daemon.now >= old(daemon.now) + 4 && Capture(daemon.world, daemon.now - 4) == (Some(anchor), daemon.now)
              case Retried(now) => reply.None? && retry && daemon.now == now
              case Refused => reply.None? && !retry
    {
      hide Capture, QualifiedSetOk;
      var before := CaptureAnchor();
      if before.None? {
        return None, true;
      }
      if a.info.None? || a.nodes.None? || a.rewards.None? {
        return None, false;
      }
      var after := CaptureAnchor();
      if after != before || a.rewards.value.height != before.value.count {
        return None, true;
      }
      var valid, keys := CheckQualifiedSet(a.rewards.value);
      if !valid {
        return None, false;
      }
      var entries := MarkNodes(a.nodes.value, keys);
      var last := CaptureAnchor();
      if last != before {
        return None, true;
      }
      reply, retry := Some(Success(before.value, a.info.value, entries, a.rewards.value, a.finished)), false;
    }

    method Fail(requestTime: nat) returns (reply: Reply)
      modifies this
      ensures reply == Failure && cache == Some(Failure) && cacheTime == requestTime && Valid()
    {
      cache, cacheAnchor, cacheTime := Some(Failure), None, requestTime;
      reply := Failure;
    }
  }
}
