/**
  `get_all_metrics` (app/api/metrics.py:30-57): one poll of the upstreams,
  assembled into the response record that `get_metrics` publishes.
  The upstreams are given as values: what the node RPC answers, what the
  node-info request returned, and the stored `last_block` setting.
 */
module Poll {
  import opened Wrappers
  import Decimal

  /** The version reported when the node-info request raises. */
  const Sentinel: string := "v999.999.999"

  /**
    The node RPC endpoint: whether it answers at all, its latest block number,
    and the timestamp of each block it can return (`get_block(n)['timestamp']`).
    Block numbers are never negative, so a negative number is never a key.
   */
  datatype Node = Node(reachable: bool, tip: nat, timestamps: map<nat, nat>)

  /**
    The node-info request: it raised (connection failure, timeout, a body that
    is not JSON), or it returned JSON in which `result.vmVersions.platform` is
    present or missing.
   */
  datatype InfoReply = InfoRequestFailed | InfoJson(platform: Option<string>)

  /** Everything a poll reads; `lastBlock` is the `value` of the `last_block` row, if any. */
  datatype Upstreams = Upstreams(node: Node, info: InfoReply, lastBlock: Option<string>)

  /** The `response` dict: every key on the connected path, only the status otherwise. */
  datatype Response =
    | Full(fullnodeLastBlock: int, fullnodeLastBlockTimestamp: int, version: string,
           walletLastBlock: int, walletLastBlockTimestamp: int, status: int)
    | StatusOnly(status: int)

  /** The exceptions that escape a poll. */
  datatype PollError =
    | NodeUnreachable                    // `w3.eth.block_number` cannot reach the node
    | BlockNotFound(number: int)         // `w3.eth.get_block(n)` for a block the node does not return,
                                         // a negative `n` included (`toHex` gives '-0x..')
    | NodeVersionMissing                 // KeyError on `r_info["result"]["vmVersions"]["platform"]`
    | LastBlockSettingMissing            // `.first()` gave None, so `pd.value` raises
    | LastBlockNotInteger(value: string) // ValueError from `int(pd.value)`
    | ResponseUnbound                    // UnboundLocalError (a NameError): local `response` read before assignment

  /** Every upstream answers in a way the connected branch can use. */
  ghost predicate Healthy(up: Upstreams) {
    && up.node.reachable
    && up.node.tip in up.node.timestamps
    && !(up.info.InfoJson? && up.info.platform.None?)
    && up.lastBlock.Some?
    && Decimal.ParseInt(up.lastBlock.value).Some?
    && 0 <= Decimal.ParseInt(up.lastBlock.value).value
    && Decimal.ParseInt(up.lastBlock.value).value in up.node.timestamps
  }

  /**
    Lines 34-57 with `guard` standing for the value the `if` at line 34 tests.
    Each call raises in source order: block number, tip block, node info,
    setting row, `int`, checkpoint block.
   */
  function PollGuarded(up: Upstreams, guard: bool): Result<Response, PollError> {
    if !guard then Failure(ResponseUnbound)
    else if !up.node.reachable then Failure(NodeUnreachable)
    else if up.node.tip !in up.node.timestamps then Failure(BlockNotFound(up.node.tip))
    else if up.info.InfoJson? && up.info.platform.None? then Failure(NodeVersionMissing)
    else
      var version := if up.info.InfoRequestFailed? then Sentinel else up.info.platform.value;
      if up.lastBlock.None? then Failure(LastBlockSettingMissing)
      else match Decimal.ParseInt(up.lastBlock.value)
        case None => Failure(LastBlockNotInteger(up.lastBlock.value))
        case Some(checkpoint) =>
          if checkpoint < 0 || checkpoint as nat !in up.node.timestamps then Failure(BlockNotFound(checkpoint))
          else Success(Full(up.node.tip, up.node.timestamps[up.node.tip], version,
                            checkpoint, up.node.timestamps[checkpoint], 1))
  }

  /**
    `get_all_metrics()` as written. The guard at line 34 is the method object
    `w3.isConnected`, never called, so it is always truthy.
   */
  function GetAllMetrics(up: Upstreams): (p: Result<Response, PollError>)
    ensures p.Success? <==> Healthy(up)
    ensures p.Success? ==> p.value.Full? && p.value.status == 1
    ensures p.Success? ==>
      && p.value.fullnodeLastBlock == up.node.tip
      && p.value.fullnodeLastBlockTimestamp == up.node.timestamps[up.node.tip]
      && p.value.walletLastBlock == Decimal.ParseInt(up.lastBlock.value).value
      && p.value.walletLastBlock >= 0
      && p.value.walletLastBlockTimestamp == up.node.timestamps[p.value.walletLastBlock]
    ensures p.Success? ==>
      p.value.version == if up.info.InfoRequestFailed? then Sentinel else up.info.platform.value
  {
    PollGuarded(up, true)
  }

  /** The poll with `isConnected()` called and the else branch building its own dict. */
  function GetAllMetricsIntended(up: Upstreams): (p: Result<Response, PollError>)
    ensures !up.node.reachable ==> p == Success(StatusOnly(0))
    ensures up.node.reachable ==> p == GetAllMetrics(up)
    ensures p.Failure? ==> p.error != NodeUnreachable && p.error != ResponseUnbound
  {
    if !up.node.reachable then Success(StatusOnly(0)) else PollGuarded(up, true)
  }

  /** As written, a node that does not answer makes the poll raise instead of reporting status 0. */
  lemma UnreachableNodeRaises(up: Upstreams)
    requires !up.node.reachable
    ensures GetAllMetrics(up) == Failure(NodeUnreachable)
  {
  }

  /** As written, a false guard would read the local `response` before it is assigned (UnboundLocalError). */
  lemma FalseGuardReadsUnbound(up: Upstreams)
    ensures PollGuarded(up, false) == Failure(ResponseUnbound)
  {
  }

  /** The Web3 calls at lines 36, 38 and 51 are unguarded: their failures escape the poll. */
  lemma UnguardedCallsPropagate(up: Upstreams)
    requires up.node.reachable
    ensures up.node.tip !in up.node.timestamps ==>
      GetAllMetrics(up) == Failure(BlockNotFound(up.node.tip))
    ensures (&& up.node.tip in up.node.timestamps
             && !(up.info.InfoJson? && up.info.platform.None?)
             && up.lastBlock.Some? && Decimal.ParseInt(up.lastBlock.value).Some?
             && (Decimal.ParseInt(up.lastBlock.value).value < 0
                 || Decimal.ParseInt(up.lastBlock.value).value !in up.node.timestamps)) ==>
      GetAllMetrics(up) == Failure(BlockNotFound(Decimal.ParseInt(up.lastBlock.value).value))
  {
  }

  /** A stored negative checkpoint is a block the node cannot return: `get_block('-0x5')` raises. */
  lemma NegativeCheckpointRaises(node: Node, info: InfoReply)
    requires node.reachable && node.tip in node.timestamps
    requires !(info.InfoJson? && info.platform.None?)
    ensures GetAllMetrics(Upstreams(node, info, Some("-5"))) == Failure(BlockNotFound(-5))
  {
    Decimal.ParseShow(-5);
    assert Decimal.ShowInt(-5) == "-5";
  }

  /** A failing node-info request never decides whether the poll succeeds; it only puts the sentinel in. */
  lemma InfoFailureAbsorbed(up: Upstreams, reported: string)
    ensures GetAllMetrics(up.(info := InfoRequestFailed)).Success?
        <==> GetAllMetrics(up.(info := InfoJson(Some(reported)))).Success?
    ensures GetAllMetrics(up.(info := InfoRequestFailed)).Success? ==>
      GetAllMetrics(up.(info := InfoRequestFailed)).value
        == GetAllMetrics(up.(info := InfoJson(Some(reported)))).value.(version := Sentinel)
  {
  }

  /** Storing `str(n)` as `last_block` makes the poll report wallet block `n` and that block's own timestamp. */
  lemma CheckpointRoundTrip(node: Node, info: InfoReply, n: nat)
    requires node.reachable && node.tip in node.timestamps && n in node.timestamps
    requires Decimal.DigitCount(Decimal.ShowInt(n)) <= Decimal.MaxStrDigits
    requires !(info.InfoJson? && info.platform.None?)
    ensures var p := GetAllMetrics(Upstreams(node, info, Some(Decimal.ShowInt(n))));
      && p.Success?
      && p.value.walletLastBlock == n
      && p.value.walletLastBlockTimestamp == node.timestamps[n]
  {
    Decimal.ParseShow(n);
  }

  /** The checkpoint's timestamp is looked up by the checkpoint, not by the tip. */
  lemma CheckpointTimestampNotTips(up: Upstreams)
    requires Healthy(up)
    requires up.node.timestamps[up.node.tip]
          != up.node.timestamps[Decimal.ParseInt(up.lastBlock.value).value]
    ensures GetAllMetrics(up).value.walletLastBlockTimestamp
         != GetAllMetrics(up).value.fullnodeLastBlockTimestamp
  {
  }

  /** Checkpoint 12345, tip 99999 at 1700000000, block 12345 at 1690000000. */
  lemma HealthyScenario()
    ensures var p := GetAllMetrics(Upstreams(Node(true, 99999, map[99999 := 1700000000, 12345 := 1690000000]),
                                             InfoJson(Some("v1.10.3")), Some("12345")));
      p == Success(Full(99999, 1700000000, "v1.10.3", 12345, 1690000000, 1))
  {
    Decimal.ParseShow(12345);
    assert Decimal.ShowInt(12345) == "12345";
  }
}
