/** The part of `append_ledger` (app/services/ledger_service.py) and
    `append_event_ledger` (app/services/events_ledger_service.py) that comes
    after the record is sealed: write it as one line, hand its hash to
    `maybe_anchor`, and log any anchor next to the ledger. Anchoring never
    makes the append fail. */
module LedgerAppend {
  import opened Wrappers
  import opened PyRuntime
  import opened LocalChain
  import opened BlockchainService

  /** The line written to anchors.jsonl: the ledger index, the record hash,
      the anchor info, and (events ledger only) the source tag. */
  function AnchorEntry(source: Option<string>, index: int, recordHash: string, info: map<string, Json>)
    : map<string, Json>
  {
    var entry := map["ledger_index" := JNum(index), "record_hash" := JStr(recordHash), "anchor" := JObj(info)];
    if source.Some? then entry["source" := JStr(source.value)] else entry
  }

  /** The anchors file after `maybe_anchor` returned `info`: one more entry
      when the info is a non-empty dict, unchanged otherwise. */
  function AnchorsAfter(anchorLines: seq<Line>, source: Option<string>, index: int, recordHash: string,
                        info: Option<map<string, Json>>): seq<Line>
  {
    if info.Some? && Truthy(JObj(info.value))
    then anchorLines + [Parsed(JObj(AnchorEntry(source, index, recordHash, info.value)))]
    else anchorLines
  }

  /** Every anchor info `maybe_anchor` returns is a non-empty dict, so each
      anchor it reports is logged. */
  lemma AnchorsAlwaysLogged(B: Builtins, settings: Settings, eth: EthClient, lines: seq<Line>, recordHash: string,
                            clock: Clock, anchorLines: seq<Line>, source: Option<string>, index: int)
    requires AnchorSpec(B, settings, eth, lines, recordHash, clock).0.Some?
    ensures AnchorsAfter(anchorLines, source, index, recordHash, AnchorSpec(B, settings, eth, lines, recordHash, clock).0)
            == anchorLines + [Parsed(JObj(AnchorEntry(source, index, recordHash,
                                                      AnchorSpec(B, settings, eth, lines, recordHash, clock).0.value)))]
  {
    var info := AnchorSpec(B, settings, eth, lines, recordHash, clock).0;
    AnchorInfoHasMode(B, settings, eth, lines, recordHash, clock);
    assert "mode" in info.value;
    assert Truthy(JObj(info.value));
  }

  /** Write the sealed record to the ledger, then try to anchor its hash and
      log the anchor. */
  method WriteAndAnchor(B: Builtins, settings: Settings, eth: EthClient, ledger: File, anchors: File, chain: File,
                        rec: map<string, Json>, index: int, recordHash: string, source: Option<string>, clock: Clock)
    requires ledger != anchors && ledger != chain && anchors != chain
    modifies ledger, anchors, chain
    ensures ledger.lines == old(ledger.lines) + [Parsed(JObj(rec))]
    ensures chain.lines == AnchorSpec(B, settings, eth, old(chain.lines), recordHash, clock).1
    ensures anchors.lines == AnchorsAfter(old(anchors.lines), source, index, recordHash,
                                          AnchorSpec(B, settings, eth, old(chain.lines), recordHash, clock).0)
  {
    ledger.AppendLine(Parsed(JObj(rec)));
    var info := MaybeAnchor(B, settings, eth, chain, recordHash, clock);
    if info.Some? && Truthy(JObj(info.value)) {
      anchors.AppendLine(Parsed(JObj(AnchorEntry(source, index, recordHash, info.value))));
    }
  }
}
