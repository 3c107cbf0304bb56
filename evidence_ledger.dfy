/** The evidence ledger (app/services/ledger_service.py): one sealed record
    per uploaded evidence file, hash-linked to the previous record. Reading
    the last record and verifying are shared with the events ledger
    (`HashChainLog.ReadLastRecord`, `HashChainLog.VerifyLedger`). */
module EvidenceLedger {
  import opened Wrappers
  import opened PyRuntime
  import opened HashChainLog
  import LocalChain
  import opened BlockchainService
  import opened LedgerAppend

  /** The record before sealing: `index`, `timestamp` (the UTC clock's ISO
      text plus `Z`), `evidence_id`, `sha256` and `prev_hash`. */
  function EvidenceBase(link: Link, utcNow: string, evidenceId: string, fileSha256: string): map<string, Json> {
    map["index" := JNum(link.index), "timestamp" := JStr(utcNow + "Z"), "evidence_id" := JStr(evidenceId),
        "sha256" := JStr(fileSha256), "prev_hash" := link.prev]
  }

  /** The record `append_ledger` writes after these lines, or the exception
      linking to the last record raises. */
  function NextEvidenceRecord(B: Builtins, lines: seq<Line>, utcNow: string, evidenceId: string, fileSha256: string)
    : Result<map<string, Json>, Exc>
  {
    match NextLink(B, LastParsed(lines))
    case Failure(e) => Failure(e)
    case Success(link) => Success(Seal(B, EvidenceBase(link, utcNow, evidenceId, fileSha256)))
  }

  /** `append_ledger`: link to the last record, seal, append, anchor. */
  method AppendLedger(B: Builtins, settings: Settings, eth: EthClient, ledger: File, anchors: File, chain: File,
                      evidenceId: string, fileSha256: string, utcNow: string, clock: LocalChain.Clock)
    returns (r: Result<map<string, Json>, Exc>)
    requires ledger != anchors && ledger != chain && anchors != chain
    modifies ledger, anchors, chain
    ensures r == NextEvidenceRecord(B, old(ledger.lines), utcNow, evidenceId, fileSha256)
    ensures r.Failure? ==>
      ledger.lines == old(ledger.lines) && anchors.lines == old(anchors.lines) && chain.lines == old(chain.lines)
    ensures r.Success? ==>
      ledger.lines == old(ledger.lines) + [Parsed(JObj(r.value))] &&
      chain.lines == AnchorSpec(B, settings, eth, old(chain.lines), r.value[RECORD_HASH].s, clock).1 &&
      anchors.lines == AnchorsAfter(old(anchors.lines), None, r.value[INDEX].n, r.value[RECORD_HASH].s,
                                    AnchorSpec(B, settings, eth, old(chain.lines), r.value[RECORD_HASH].s, clock).0)
  {
    var last := ReadLastRecord(ledger);
    var link := NextLink(B, last);
    if link.Failure? {
      return Failure(link.error);
    }
    var base := EvidenceBase(link.value, utcNow, evidenceId, fileSha256);
    var rh := RecordHash(B, base);
    var rec := base[RECORD_HASH := JStr(rh)];
    assert rec == Seal(B, base);
    assert rec[INDEX] == JNum(link.value.index) && rec[RECORD_HASH] == JStr(rh);
    assert NextEvidenceRecord(B, ledger.lines, utcNow, evidenceId, fileSha256) == Success(rec);
    WriteAndAnchor(B, settings, eth, ledger, anchors, chain, rec, link.value.index, rh, None, clock);
    return Success(rec);
  }

  /** The record carries exactly the six fields, the caller's evidence id
      and file digest, and a `record_hash` that seals the rest; it links to
      the last record's hash, or to the sentinel on a ledger without records. */
  lemma EvidenceRecordShape(B: Builtins, lines: seq<Line>, utcNow: string, evidenceId: string, fileSha256: string)
    requires NextEvidenceRecord(B, lines, utcNow, evidenceId, fileSha256).Success?
    ensures var rec := NextEvidenceRecord(B, lines, utcNow, evidenceId, fileSha256).value;
      rec.Keys == {"index", "timestamp", "evidence_id", "sha256", "prev_hash", "record_hash"} &&
      rec["evidence_id"] == JStr(evidenceId) && rec["sha256"] == JStr(fileSha256) &&
      rec["timestamp"] == JStr(utcNow + "Z") &&
      Sealed(B, rec) &&
      (LastParsed(lines).None? ==> rec["prev_hash"] == JStr(GENESIS) && rec["index"] == JNum(0)) &&
      (LastParsed(lines).Some? && Truthy(LastParsed(lines).value) ==>
         Subscript(LastParsed(lines).value, RECORD_HASH) == Success(rec["prev_hash"]))
  {
    var link := NextLink(B, LastParsed(lines)).value;
    var base := EvidenceBase(link, utcNow, evidenceId, fileSha256);
    assert NextEvidenceRecord(B, lines, utcNow, evidenceId, fileSha256) == Success(Seal(B, base));
    DictKeys5("index", JNum(link.index), "timestamp", JStr(utcNow + "Z"), "evidence_id", JStr(evidenceId),
              "sha256", JStr(fileSha256), "prev_hash", link.prev);
  }

  /** Appending to a ledger that verifies as `(True, n)` gives one that
      verifies as `(True, n + 1)`. */
  lemma AppendLedgerKeepsVerified(B: Builtins, lines: seq<Line>, n: nat, utcNow: string, evidenceId: string, fileSha256: string)
    requires VerifyOutcome(B, lines) == Success((true, n))
    requires NextEvidenceRecord(B, lines, utcNow, evidenceId, fileSha256).Success?
    ensures VerifyOutcome(B, lines + [Parsed(JObj(NextEvidenceRecord(B, lines, utcNow, evidenceId, fileSha256).value))])
            == Success((true, n + 1))
  {
    var link := NextLink(B, LastParsed(lines)).value;
    AppendKeepsVerified(B, lines, n, EvidenceBase(link, utcNow, evidenceId, fileSha256));
  }

  /** On a ledger whose record indexes follow their positions, the new
      record gets the next position as its index and the ledger stays so
      numbered; the append cannot fail there. */
  lemma AppendLedgerKeepsNumbered(B: Builtins, lines: seq<Line>, utcNow: string, evidenceId: string, fileSha256: string)
    requires Numbered(lines)
    ensures NextEvidenceRecord(B, lines, utcNow, evidenceId, fileSha256).Success?
    ensures NextEvidenceRecord(B, lines, utcNow, evidenceId, fileSha256).value[INDEX] == JNum(ParsedCount(lines))
    ensures Numbered(lines + [Parsed(JObj(NextEvidenceRecord(B, lines, utcNow, evidenceId, fileSha256).value))])
  {
    NumberedNextIndex(B, lines);
    var link := NextLink(B, LastParsed(lines)).value;
    AppendKeepsNumbered(B, lines, EvidenceBase(link, utcNow, evidenceId, fileSha256));
  }

  /** The first record of an empty ledger has index 0, links to the
      sentinel, and the ledger then verifies as `(True, 1)`. */
  lemma FirstEvidenceRecord(B: Builtins, utcNow: string, evidenceId: string, fileSha256: string)
    ensures NextEvidenceRecord(B, [], utcNow, evidenceId, fileSha256).Success?
    ensures var rec := NextEvidenceRecord(B, [], utcNow, evidenceId, fileSha256).value;
      rec[INDEX] == JNum(0) && rec[PREV_HASH] == JStr(GENESIS) &&
      VerifyOutcome(B, [Parsed(JObj(rec))]) == Success((true, 1))
  {
    AppendLedgerKeepsVerified(B, [], 0, utcNow, evidenceId, fileSha256);
    assert [] + [Parsed(JObj(NextEvidenceRecord(B, [], utcNow, evidenceId, fileSha256).value))]
        == [Parsed(JObj(NextEvidenceRecord(B, [], utcNow, evidenceId, fileSha256).value))];
  }
}
