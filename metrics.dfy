/**
  `get_metrics` (app/api/metrics.py:67-91): the exporter's gauges and the
  update policy that writes a poll's response into them.
 */
module Metrics {
  import opened Wrappers
  import opened Poll

  /**
    The values held by the registry: the labels of the `avalanche_fullnode_version`
    info metric and the five gauges.
   */
  datatype Gauges = Gauges(
    fullnodeVersion: map<string, string>,
    fullnodeStatus: int,
    fullnodeLastBlock: int,
    fullnodeLastBlockTimestamp: int,
    walletLastBlock: int,
    walletLastBlockTimestamp: int)

  /** A freshly registered gauge reads 0; an info metric never set has no labels. */
  const Initial: Gauges := Gauges(map[], 0, 0, 0, 0, 0)

  /** `get_metrics` reads the other keys only when the status is 1. */
  predicate Readable(r: Response) {
    r.status == 1 ==> r.Full?
  }

  /** The registry after `get_metrics` has written `r` (lines 81-89). */
  function Apply(g: Gauges, r: Response): Gauges
    requires Readable(r)
  {
    if r.status == 1 then
      Gauges(map["version" := r.version], r.status, r.fullnodeLastBlock,
             r.fullnodeLastBlockTimestamp, r.walletLastBlock, r.walletLastBlockTimestamp)
    else
      g.(fullnodeStatus := r.status)
  }

  /** The registry after a run of scrapes whose polls returned `rs`, in order. */
  function ApplyAll(g: Gauges, rs: seq<Response>): Gauges
    requires forall r <- rs :: Readable(r)
    decreases |rs|
  {
    if rs == [] then g else ApplyAll(Apply(g, rs[0]), rs[1..])
  }

  /** A poll that raised leaves every gauge as it was; the scrape fails. */
  function AfterPoll(g: Gauges, p: Result<Response, PollError>): Gauges
    requires p.Success? ==> Readable(p.value)
  {
    if p.Success? then Apply(g, p.value) else g
  }

  function Repeat(r: Response, n: nat): (rs: seq<Response>)
    ensures |rs| == n && forall i :: 0 <= i < n ==> rs[i] == r
  {
    if n == 0 then [] else [r] + Repeat(r, n - 1)
  }

  /** Scrapes compose: applying `a` then `b` is applying `a + b`. */
  lemma {:induction false} ApplyAllAppend(g: Gauges, a: seq<Response>, b: seq<Response>)
    requires forall r <- a :: Readable(r)
    requires forall r <- b :: Readable(r)
    ensures forall r <- a + b :: Readable(r)
    ensures ApplyAll(g, a + b) == ApplyAll(ApplyAll(g, a), b)
    decreases |a|
  {
    if a != [] {
      assert (a + b)[0] == a[0];
      assert (a + b)[1..] == a[1..] + b;
      ApplyAllAppend(Apply(g, a[0]), a[1..], b);
    } else {
      assert a + b == b;
    }
  }

  /**
    Failed polls only ever write the status gauge: after any run of them every
    other gauge and the version info still hold their earlier values.
   */
  lemma {:induction false} FailuresKeepStale(g: Gauges, fs: seq<Response>)
    requires forall r <- fs :: r.status != 1
    ensures ApplyAll(g, fs)
         == if fs == [] then g else g.(fullnodeStatus := fs[|fs| - 1].status)
    decreases |fs|
  {
    if fs != [] {
      FailuresKeepStale(Apply(g, fs[0]), fs[1..]);
      if |fs| > 1 {
        assert fs[1..][|fs| - 2] == fs[|fs| - 1];
      }
    }
  }

  /** Repeating a failed response changes nothing after its first application. */
  lemma RepeatedFailureIdempotent(g: Gauges, r: Response, n: nat)
    requires r.status != 1 && n >= 1
    ensures ApplyAll(g, Repeat(r, n)) == Apply(g, r)
  {
    FailuresKeepStale(g, Repeat(r, n));
  }

  /**
    A successful poll overwrites every slot: whatever came before, the registry
    then holds exactly the response's values.
   */
  lemma SuccessOverwritesAll(g: Gauges, rs: seq<Response>, ok: Response)
    requires forall r <- rs :: Readable(r)
    requires ok.Full? && ok.status == 1
    ensures forall r <- rs + [ok] :: Readable(r)
    ensures var h := ApplyAll(g, rs + [ok]);
      && h.fullnodeVersion == map["version" := ok.version]
      && h.fullnodeStatus == 1
      && h.fullnodeLastBlock == ok.fullnodeLastBlock
      && h.fullnodeLastBlockTimestamp == ok.fullnodeLastBlockTimestamp
      && h.walletLastBlock == ok.walletLastBlock
      && h.walletLastBlockTimestamp == ok.walletLastBlockTimestamp
  {
    ApplyAllAppend(g, rs, [ok]);
    assert [ok][1..] == [];
  }

  /** As written, a node that does not answer never brings the status gauge down: the scrape raises and nothing changes. */
  lemma AsWrittenUnreachableKeepsStatus(g: Gauges, up: Upstreams)
    requires !up.node.reachable
    ensures GetAllMetrics(up).Failure?
    ensures AfterPoll(g, GetAllMetrics(up)) == g
  {
  }

  /** With `isConnected()` called, a node that does not answer sets status 0 and leaves the rest stale. */
  lemma IntendedUnreachableReportsZero(g: Gauges, up: Upstreams)
    requires !up.node.reachable
    ensures AfterPoll(g, GetAllMetricsIntended(up)) == g.(fullnodeStatus := 0)
  {
  }

  /** The exporter's metric objects, updated in place by each scrape. */
  class Registry {
    var fullnodeVersion: map<string, string>
    var fullnodeStatus: int
    var fullnodeLastBlock: int
    var fullnodeLastBlockTimestamp: int
    var walletLastBlock: int
    var walletLastBlockTimestamp: int

    /** The values the registry currently exposes. */
    function Snapshot(): Gauges
      reads this
    {
      Gauges(fullnodeVersion, fullnodeStatus, fullnodeLastBlock,
             fullnodeLastBlockTimestamp, walletLastBlock, walletLastBlockTimestamp)
    }

    /** The metric objects as registered at import time (lines 67-75). */
    constructor ()
      ensures Snapshot() == Initial
    {
      fullnodeVersion := map[];
      fullnodeStatus := 0;
      fullnodeLastBlock := 0;
      fullnodeLastBlockTimestamp := 0;
      walletLastBlock := 0;
      walletLastBlockTimestamp := 0;
    }

    /** Lines 81-89: write a response into the gauges. */
    method Update(r: Response)
      requires Readable(r)
      modifies this
      ensures r.status == 1 ==>
        && fullnodeVersion == map["version" := r.version]
        && fullnodeLastBlock == r.fullnodeLastBlock
        && fullnodeLastBlockTimestamp == r.fullnodeLastBlockTimestamp
        && walletLastBlock == r.walletLastBlock
        && walletLastBlockTimestamp == r.walletLastBlockTimestamp
        && fullnodeStatus == 1
      ensures r.status != 1 ==>
        && fullnodeStatus == r.status
        && fullnodeVersion == old(fullnodeVersion)
        && fullnodeLastBlock == old(fullnodeLastBlock)
        && fullnodeLastBlockTimestamp == old(fullnodeLastBlockTimestamp)
        && walletLastBlock == old(walletLastBlock)
        && walletLastBlockTimestamp == old(walletLastBlockTimestamp)
      ensures Snapshot() == Apply(old(Snapshot()), r)
    {
      if r.status == 1 {
        fullnodeVersion := map["version" := r.version];
        fullnodeLastBlock := r.fullnodeLastBlock;
        fullnodeLastBlockTimestamp := r.fullnodeLastBlockTimestamp;
        walletLastBlock := r.walletLastBlock;
        walletLastBlockTimestamp := r.walletLastBlockTimestamp;
        fullnodeStatus := r.status;
      } else {
        fullnodeStatus := r.status;
      }
    }

    /**
      `get_metrics()`: poll, update, and expose the gauges. A poll that raises
      fails the scrape and leaves the registry as it was.
     */
    method GetMetrics(up: Upstreams) returns (page: Result<Gauges, PollError>)
      modifies this
      ensures Snapshot() == AfterPoll(old(Snapshot()), GetAllMetricsIntended(up))
      ensures page == if GetAllMetricsIntended(up).Success? then Success(Snapshot())
                      else Failure(GetAllMetricsIntended(up).error)
    {
      var p := GetAllMetricsIntended(up);
      if p.Success? {
        Update(p.value);
        page := Success(Snapshot());
      } else {
        page := Failure(p.error);
      }
    }
  }

  /**
    Checkpoint 12345 behind tip 99999, then a node that stops answering.
    Scrapes go through the corrected poll `GetAllMetricsIntended`; as written
    the second scrape would raise and leave the status gauge at 1.
   */
  method ScrapeScenario() {
    var registry := new Registry();
    var node := Node(true, 99999, map[99999 := 1700000000, 12345 := 1690000000]);
    var up := Upstreams(node, InfoRequestFailed, Some("12345"));
    HealthyScenario();
    var page := registry.GetMetrics(up);
    assert page.Success?;
    assert registry.fullnodeStatus == 1 && registry.fullnodeLastBlock == 99999;
    assert registry.walletLastBlock == 12345 && registry.walletLastBlockTimestamp == 1690000000;
    assert registry.fullnodeVersion == map["version" := Sentinel];
    page := registry.GetMetrics(up.(node := node.(reachable := false)));
    assert registry.fullnodeStatus == 0 && registry.fullnodeLastBlock == 99999;
    assert registry.walletLastBlock == 12345;
  }
}
