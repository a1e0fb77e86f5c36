/** Admission and retry of the wallet gateway (main.cpp wallet_rpc_handler, src/wallet_rpc_policy.h,
    src/rpccalls.h invoke_with_reconnect). */
module WalletGateway {

  // --- policy ----------------------------------------------------------------------------------

  const SUBMISSION_PATHS := {"/send_raw_transaction", "/submit_raw_tx", "/sendrawtransaction"}

  const ALLOWED_PATHS := {
    "/json_rpc", "/getblocks.bin", "/getblocks_by_height.bin", "/gethashes.bin", "/get_o_indexes.bin",
    "/get_output_distribution.bin", "/get_outs", "/get_outs.bin", "/get_transactions", "/gettransactions",
    "/get_transaction_pool_hashes.bin", "/is_key_image_spent",
    "/send_raw_transaction", "/submit_raw_tx", "/sendrawtransaction"}

  predicate RetrySafe(path: string) {
    path == "/json_rpc" || (path in ALLOWED_PATHS && path !in SUBMISSION_PATHS)
  }

  /** Two attempts for every allowed path but the ones that submit a transaction, one for those. */
  function Attempts(path: string): (n: nat)
    ensures path in SUBMISSION_PATHS ==> n == 1
    ensures path in ALLOWED_PATHS && path !in SUBMISSION_PATHS ==> n == 2
    ensures path !in ALLOWED_PATHS ==> n == 1
  {
    if RetrySafe(path) then 2 else 1
  }

  // --- reconnecting ----------------------------------------------------------------------------

  /** Transport behaviour: whether the k-th connect and the k-th request succeed. */
  class HttpClient {
    const connects: nat -> bool
    const succeeds: nat -> bool
    var connected: bool
    var connectCount: nat
    var sent: nat

    constructor (connects: nat -> bool, succeeds: nat -> bool, connected: bool)
      ensures this.connects == connects && this.succeeds == succeeds && this.connected == connected && sent == 0
    {
      this.connects, this.succeeds, this.connected := connects, succeeds, connected;
      connectCount, sent := 0, 0;
    }

    method Connect() returns (ok: bool)
      modifies this`connected, this`connectCount
      ensures ok == connected && ok == (old(connected) || connects(old(connectCount)))
      ensures connectCount == old(connectCount) + (if old(connected) then 0 else 1)
    {
      if !connected {
        connected := connects(connectCount);
        connectCount := connectCount + 1;
      }
      ok := connected;
    }

    method Invoke() returns (ok: bool)
      modifies this`sent
      ensures sent == old(sent) + 1 && ok == succeeds(old(sent))
    {
      ok := succeeds(sent);
      sent := sent + 1;
    }

    /** For every transport behaviour: a request that must not be repeated is sent at most once, any other at
        most twice; it is repeated only after a failure, a success is the last one sent, and failure leaves
        the client disconnected. A client that is connected, or whose first connect succeeds, does send, and
        gives up only when each of its attempts, two for a request that may be repeated, could not connect or
        was sent and failed. */
    method InvokeWithReconnect(path: string) returns (ok: bool)
      modifies this
      ensures sent - old(sent) <= (if RetrySafe(path) then 2 else 1)
      ensures path in SUBMISSION_PATHS ==> sent - old(sent) <= 1
      ensures ok <==> sent > old(sent) && succeeds(sent - 1)
      ensures forall k :: old(sent) <= k < sent - 1 ==> !succeeds(k)
      ensures !ok ==> !connected
      ensures old(connected) || connects(old(connectCount)) ==> sent > old(sent)
      ensures !ok ==> connectCount - old(connectCount) == Attempts(path) - (if old(connected) then 1 else 0)
      ensures !ok && (forall k :: old(connectCount) <= k < connectCount ==> connects(k)) ==> sent == old(sent) + Attempts(path)
    {
      var attempts := Attempts(path);
      var attempt := 0;
      while attempt < attempts
        invariant 0 <= attempt <= attempts && old(sent) <= sent <= old(sent) + attempt
        invariant connectCount == old(connectCount) + (if old(connected) && attempt > 0 then attempt - 1 else attempt)
        invariant attempt == 0 ==> connected == old(connected)
        invariant attempt > 0 && (old(connected) || connects(old(connectCount))) ==> sent > old(sent)
        invariant (forall k :: old(connectCount) <= k < connectCount ==> connects(k)) ==> sent == old(sent) + attempt
        invariant attempt > 0 ==> !connected
        invariant forall k :: old(sent) <= k < sent ==> !succeeds(k)
      {
        var up := Connect();
        if up {
          ok := Invoke();
          if ok {
            return;
          }
        }
        connected := false;
        attempt := attempt + 1;
      }
      ok := false;
    }
  }

  // --- admission -------------------------------------------------------------------------------

  const LIMIT: nat := 16

  /** A request before the counter, admitted, turned away but not yet subtracted, or finished. */
  datatype Stage = Arriving | Admitted | Rejecting | Finished

  datatype Gateway = Gateway(inflight: int, requests: seq<Stage>)

  function Count(requests: seq<Stage>, stage: Stage): (n: nat) {
    if requests == [] then 0
    else (if requests[0] == stage then 1 else 0) + Count(requests[1..], stage)
  }

  /** One atomic step of request i: fetch_add with its test, or fetch_sub. */
  function Step(g: Gateway, i: nat): (g': Gateway)
    requires i < |g.requests|
  {
    match g.requests[i]
    case Arriving =>
      Gateway(g.inflight + 1, g.requests[i := if g.inflight >= LIMIT then Rejecting else Admitted])
    case Admitted => Gateway(g.inflight - 1, g.requests[i := Finished])
    case Rejecting => Gateway(g.inflight - 1, g.requests[i := Finished])
    case Finished => g
  }

  function Run(g: Gateway, steps: seq<nat>): (g': Gateway)
    ensures |g'.requests| == |g.requests|
  {
    if steps == [] then g
    else
      var before := Run(g, steps[..|steps| - 1]);
      var i := steps[|steps| - 1];
      if i < |before.requests| then Step(before, i) else before
  }

  ghost predicate Inv(g: Gateway) {
    && g.inflight == Count(g.requests, Admitted) + Count(g.requests, Rejecting)
    && Count(g.requests, Admitted) <= LIMIT
  }

  lemma {:induction false} CountUpdate(requests: seq<Stage>, i: nat, s: Stage, stage: Stage)
    requires i < |requests|
    ensures Count(requests[i := s], stage)
         == Count(requests, stage) - (if requests[i] == stage then 1 else 0) + (if s == stage then 1 else 0)
    ensures requests[i] == stage ==> Count(requests, stage) > 0
    decreases |requests|
  {
    if i == 0 {
      assert requests[i := s][1..] == requests[1..];
    } else {
      CountUpdate(requests[1..], i - 1, s, stage);
      assert requests[i := s][1..] == requests[1..][i - 1 := s];
    }
  }

  /** In every interleaving at most 16 requests are admitted at once, and the counter is exactly the admitted
      plus the rejecting ones: nothing is leaked or released twice. */
  lemma {:induction false} AdmissionIsBounded(g: Gateway, steps: seq<nat>)
    requires g.inflight == 0 && forall i :: 0 <= i < |g.requests| ==> g.requests[i] == Arriving
    ensures Inv(Run(g, steps))
    decreases |steps|
  {
    if steps == [] {
      NoneYet(g.requests);
    } else {
      AdmissionIsBounded(g, steps[..|steps| - 1]);
      var before := Run(g, steps[..|steps| - 1]);
      var i := steps[|steps| - 1];
      if i < |before.requests| {
        var s := Step(before, i).requests[i];
        CountUpdate(before.requests, i, s, Admitted);
        CountUpdate(before.requests, i, s, Rejecting);
      }
    }
  }

  /** In every interleaving an arriving request is admitted exactly when fewer than 16 others are admitted or
      being turned away, and an admitted one gives its place back. */
  lemma AdmittedIffRoom(g: Gateway, steps: seq<nat>, i: nat)
    requires g.inflight == 0 && forall k :: 0 <= k < |g.requests| ==> g.requests[k] == Arriving
    requires i < |g.requests|
    ensures var before := Run(g, steps);
            var after := Step(before, i);
            && (before.requests[i] == Arriving ==>
                  (after.requests[i] == Admitted <==> Count(before.requests, Admitted) + Count(before.requests, Rejecting) < 16))
            && (before.requests[i] == Admitted ==>
                  Count(after.requests, Admitted) == Count(before.requests, Admitted) - 1 && after.requests[i] == Finished)
  {
    AdmissionIsBounded(g, steps);
    var before := Run(g, steps);
    CountUpdate(before.requests, i, Finished, Admitted);
  }

  lemma {:induction false} NoneYet(requests: seq<Stage>)
    requires forall i :: 0 <= i < |requests| ==> requests[i] == Arriving
    ensures Count(requests, Admitted) == 0 && Count(requests, Rejecting) == 0
    decreases |requests|
  {
    if requests != [] {
      NoneYet(requests[1..]);
    }
  }
}
