/** The events ledger (app/services/events_ledger_service.py): one sealed
    record per food-distribution event, carrying the event's fingerprint and
    hash-linked to the previous record. Reading the last record and
    verifying are shared with the evidence ledger
    (`HashChainLog.ReadLastRecord`, `HashChainLog.VerifyLedger`). */
module EventsLedger {
  import opened Wrappers
  import opened PyRuntime
  import opened HashChainLog
  import LocalChain
  import opened BlockchainService
  import opened LedgerAppend
  import opened Fingerprint

  /** The tag events-ledger anchor entries carry. */
  const SOURCE: string := "event"

  /** The record before sealing: `index`, `timestamp` (the UTC clock's ISO
      text plus `Z`), `event_id`, `fingerprint` and `prev_hash`. */
  function EventBase(link: Link, utcNow: string, eventId: string, fingerprint: string): map<string, Json> {
    map["index" := JNum(link.index), "timestamp" := JStr(utcNow + "Z"), "event_id" := JStr(eventId),
        "fingerprint" := JStr(fingerprint), "prev_hash" := link.prev]
  }

  /** The record `append_event_ledger` writes after these lines, or the
      exception linking or fingerprinting raises (linking comes first). */
  function NextEventRecord(B: Builtins, lines: seq<Line>, doc: Doc, utcNow: string): Result<map<string, Json>, Exc> {
    match NextLink(B, LastParsed(lines))
    case Failure(e) => Failure(e)
    case Success(link) =>
      match EventFingerprint(B, doc)
      case Failure(e) => Failure(e)
      case Success(fp) => Success(Seal(B, EventBase(link, utcNow, EventId(B, doc), fp)))
  }

  /** `append_event_ledger`: link to the last record, fingerprint the event,
      seal, append, anchor (anchor entries tagged `source: "event"`). */
  method AppendEventLedger(B: Builtins, settings: Settings, eth: EthClient, ledger: File, anchors: File, chain: File,
                           doc: Doc, utcNow: string, clock: LocalChain.Clock)
    returns (r: Result<map<string, Json>, Exc>)
    requires ledger != anchors && ledger != chain && anchors != chain
    modifies ledger, anchors, chain
    ensures r == NextEventRecord(B, old(ledger.lines), doc, utcNow)
    ensures r.Failure? ==>
      ledger.lines == old(ledger.lines) && anchors.lines == old(anchors.lines) && chain.lines == old(chain.lines)
    ensures r.Success? ==>
      ledger.lines == old(ledger.lines) + [Parsed(JObj(r.value))] &&
      chain.lines == AnchorSpec(B, settings, eth, old(chain.lines), r.value[RECORD_HASH].s, clock).1 &&
      anchors.lines == AnchorsAfter(old(anchors.lines), Some(SOURCE), r.value[INDEX].n, r.value[RECORD_HASH].s,
                                    AnchorSpec(B, settings, eth, old(chain.lines), r.value[RECORD_HASH].s, clock).0)
  {
    var last := ReadLastRecord(ledger);
    r := BuildEventRecord(B, ledger.lines, last, doc, utcNow);
    if r.Success? {
      WriteAndAnchor(B, settings, eth, ledger, anchors, chain, r.value, r.value[INDEX].n, r.value[RECORD_HASH].s,
                     Some(SOURCE), clock);
    }
  }

  /** The part of `append_event_ledger` before the write: link to `last`,
      fingerprint the event and seal the record. This is the executable form
      of `NextEventRecord`, which the lemmas reason about; as a method of its
      own, its proof stays apart from the reasoning about the three files. */
  method BuildEventRecord(B: Builtins, lines: seq<Line>, last: Option<Json>, doc: Doc, utcNow: string)
    returns (r: Result<map<string, Json>, Exc>)
    requires last == LastParsed(lines)
    ensures r == NextEventRecord(B, lines, doc, utcNow)
    ensures r.Success? ==> INDEX in r.value && r.value[INDEX].JNum? && RECORD_HASH in r.value && r.value[RECORD_HASH].JStr?
  {
    var link := NextLink(B, last);
    if link.Failure? {
      return Failure(link.error);
    }
    var fp := EventFingerprint(B, doc);
    if fp.Failure? {
      return Failure(fp.error);
    }
    var base := EventBase(link.value, utcNow, EventId(B, doc), fp.value);
    var rh := RecordHash(B, base);
    var rec := base[RECORD_HASH := JStr(rh)];
    assert rec == Seal(B, base);
    return Success(rec);
  }

  /** The record carries exactly the six fields, the event's id and
      fingerprint, and a `record_hash` that seals the rest. */
  lemma EventRecordShape(B: Builtins, lines: seq<Line>, doc: Doc, utcNow: string)
    requires NextEventRecord(B, lines, doc, utcNow).Success?
    ensures EventFingerprint(B, doc).Success?
    ensures var rec := NextEventRecord(B, lines, doc, utcNow).value;
      rec.Keys == {"index", "timestamp", "event_id", "fingerprint", "prev_hash", "record_hash"} &&
      rec["event_id"] == JStr(EventId(B, doc)) &&
      rec["fingerprint"] == JStr(EventFingerprint(B, doc).value) &&
      rec["timestamp"] == JStr(utcNow + "Z") &&
      Sealed(B, rec)
  {
    var link := NextLink(B, LastParsed(lines)).value;
    var fp := EventFingerprint(B, doc).value;
    var base := EventBase(link, utcNow, EventId(B, doc), fp);
    assert NextEventRecord(B, lines, doc, utcNow) == Success(Seal(B, base));
    DictKeys5("index", JNum(link.index), "timestamp", JStr(utcNow + "Z"), "event_id", JStr(EventId(B, doc)),
              "fingerprint", JStr(fp), "prev_hash", link.prev);
  }

  /** Appending an event to a ledger that verifies as `(True, n)` gives one
      that verifies as `(True, n + 1)`. */
  lemma AppendEventKeepsVerified(B: Builtins, lines: seq<Line>, n: nat, doc: Doc, utcNow: string)
    requires VerifyOutcome(B, lines) == Success((true, n))
    requires NextEventRecord(B, lines, doc, utcNow).Success?
    ensures VerifyOutcome(B, lines + [Parsed(JObj(NextEventRecord(B, lines, doc, utcNow).value))]) == Success((true, n + 1))
  {
    var link := NextLink(B, LastParsed(lines)).value;
    AppendKeepsVerified(B, lines, n, EventBase(link, utcNow, EventId(B, doc), EventFingerprint(B, doc).value));
  }

  /** On a numbered ledger the append fails only if fingerprinting does; the
      new record takes the next position as its index. */
  lemma AppendEventKeepsNumbered(B: Builtins, lines: seq<Line>, doc: Doc, utcNow: string)
    requires Numbered(lines)
    ensures NextEventRecord(B, lines, doc, utcNow).Success? <==> EventFingerprint(B, doc).Success?
    ensures NextEventRecord(B, lines, doc, utcNow).Success? ==>
      NextEventRecord(B, lines, doc, utcNow).value[INDEX] == JNum(ParsedCount(lines)) &&
      Numbered(lines + [Parsed(JObj(NextEventRecord(B, lines, doc, utcNow).value))])
  {
    NumberedNextIndex(B, lines);
    var link := NextLink(B, LastParsed(lines)).value;
    var fp := EventFingerprint(B, doc);
    if fp.Success? {
      var base := EventBase(link, utcNow, EventId(B, doc), fp.value);
      assert NextEventRecord(B, lines, doc, utcNow) == Success(Seal(B, base));
      assert Seal(B, base)[INDEX] == JNum(ParsedCount(lines));
      AppendKeepsNumbered(B, lines, base);
    } else {
      assert NextEventRecord(B, lines, doc, utcNow) == Failure(fp.error);
    }
  }

  /** Two appends of events with the same core give records with the same
      fingerprint, whatever else differs: re-submitted events are
      recognisable in the ledger. */
  lemma SameCoreSameFingerprint(B: Builtins, l1: seq<Line>, l2: seq<Line>, d1: Doc, d2: Doc, t1: string, t2: string)
    requires forall k :: k in CORE_FIELDS ==> Get(d1, k) == Get(d2, k)
    requires NextEventRecord(B, l1, d1, t1).Success? && NextEventRecord(B, l2, d2, t2).Success?
    ensures NextEventRecord(B, l1, d1, t1).value["fingerprint"] == NextEventRecord(B, l2, d2, t2).value["fingerprint"]
    ensures NextEventRecord(B, l1, d1, t1).value["event_id"] == NextEventRecord(B, l2, d2, t2).value["event_id"]
  {
    FingerprintReadsOnlyCoreFields(B, d1, d2);
    EventRecordShape(B, l1, d1, t1);
    EventRecordShape(B, l2, d2, t2);
    assert Get(d1, "_id") == Get(d2, "_id") && Get(d1, "event_id") == Get(d2, "event_id");
  }

  // ---------------------------------------------------------------------------
  // tail

  /** The values of the lines that parse, in order. */
  function ParsedValues(window: seq<Line>): (r: seq<Json>)
    ensures |r| == ParsedCount(window)
    decreases |window|
  {
    if window == [] then []
    else
      var init := window[..|window| - 1];
      var last := window[|window| - 1];
      if last.Parsed? then ParsedValues(init) + [last.value] else ParsedValues(init)
  }

  /** The kept values are exactly the values of the lines that parse. */
  lemma {:induction false} ParsedValuesAreParsedLines(window: seq<Line>)
    ensures forall v :: v in ParsedValues(window) <==> exists i :: 0 <= i < |window| && window[i] == Parsed(v)
    decreases |window|
  {
    if window != [] {
      var init := window[..|window| - 1];
      ParsedValuesAreParsedLines(init);
      assert forall i :: 0 <= i < |init| ==> init[i] == window[i];
    }
  }

  /** `tail(limit)`: the last `limit` lines, blank and malformed ones
      skipped (but still counted against the limit). */
  method Tail(ledger: File, limit: int) returns (out: seq<Json>)
    ensures out == ParsedValues(PyTail(ledger.lines, limit))
    ensures |out| <= |ledger.lines| && (limit > 0 ==> |out| <= limit)
  {
    var window := PyTail(ledger.lines, limit);
    out := [];
    var i := 0;
    while i < |window|
      invariant 0 <= i <= |window|
      invariant out == ParsedValues(window[..i])
    {
      assert window[..i + 1][..i] == window[..i];
      if window[i].Parsed? {
        out := out + [window[i].value];
      }
      i := i + 1;
    }
    assert window[..i] == window;
    ParsedCountBound(window);
  }

  lemma {:induction false} ParsedCountBound(lines: seq<Line>)
    ensures ParsedCount(lines) <= |lines|
    decreases |lines|
  {
    if lines != [] {
      ParsedCountBound(lines[..|lines| - 1]);
    }
  }

  /** Over a whole ledger that verifies as `(True, n)`, `tail` returns `n`
      records. */
  lemma TailOfVerifiedLedger(B: Builtins, lines: seq<Line>, n: nat, limit: int)
    requires VerifyOutcome(B, lines) == Success((true, n))
    requires limit == 0 || limit >= |lines|
    ensures |ParsedValues(PyTail(lines, limit))| == n
  {
    RunningCountsParsed(B, lines);
    assert PyTail(lines, limit) == lines;
  }
}
