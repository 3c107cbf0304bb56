/** The unified anchoring interface (app/services/blockchain_service.py):
    the configured mode decides whether a record hash is anchored nowhere,
    on the local proof-of-work chain, or through an Ethereum transaction. */
module BlockchainService {
  import opened Wrappers
  import opened PyRuntime
  import opened LocalChain

  /** The two settings this interface reads (app/config.py). */
  datatype Settings = Settings(blockchainMode: string, powDifficulty: int)

  /** The configured defaults: anchoring off, difficulty 3. */
  const DEFAULT_SETTINGS: Settings := Settings("off", DEFAULT_POW_DIFFICULTY)

  /** The Ethereum anchor as this interface sees it: whether it is
      configured, and the transaction dictionary `anchor_text` returns for a
      text, or None where it raises. */
  datatype EthClient = EthClient(configured: bool, anchorText: string -> Option<map<string, Json>>)

  // ---------------------------------------------------------------------------
  // Mode normalisation: `settings.BLOCKCHAIN_MODE.lower().strip()`

  /** The characters `str.strip()` removes. */
  predicate IsSpace(c: char) {
    c == ' ' || ('\t' <= c <= '\r') || ('\U{1c}' <= c <= '\U{1f}') || c == '\U{85}' || c == '\U{a0}' ||
    c == '\U{1680}' || ('\U{2000}' <= c <= '\U{200a}') || c == '\U{2028}' || c == '\U{2029}' ||
    c == '\U{202f}' || c == '\U{205f}' || c == '\U{3000}'
  }

  function LowerChar(c: char): char {
    if 'A' <= c <= 'Z' then (c as int + 32) as char else c
  }

  function Lower(s: string): (r: string)
    ensures |r| == |s| && forall i :: 0 <= i < |s| ==> r[i] == LowerChar(s[i])
  {
    seq(|s|, i requires 0 <= i < |s| => LowerChar(s[i]))
  }

  /** How many whitespace characters `strip` removes from the front. */
  function LeadingSpaces(s: string): (k: nat)
    ensures k <= |s|
    ensures forall i :: 0 <= i < k ==> IsSpace(s[i])
    ensures k < |s| ==> !IsSpace(s[k])
    decreases |s|
  {
    if s != [] && IsSpace(s[0]) then 1 + LeadingSpaces(s[1..]) else 0
  }

  /** How many characters are left once `strip` removes whitespace from
      the back. */
  function KeptLength(s: string): (k: nat)
    ensures k <= |s|
    ensures forall i :: k <= i < |s| ==> IsSpace(s[i])
    ensures k > 0 ==> !IsSpace(s[k - 1])
    decreases |s|
  {
    if s != [] && IsSpace(s[|s| - 1]) then KeptLength(s[..|s| - 1]) else |s|
  }

  /** `str.strip()`. */
  function Strip(s: string): string {
    var t := s[LeadingSpaces(s)..];
    t[..KeptLength(t)]
  }

  function Normalize(s: string): string {
    Strip(Lower(s))
  }

  /** The normalised mode has no surrounding whitespace and no upper-case
      ASCII letter, and normalising it again changes nothing. */
  lemma NormalizeIsCanonical(s: string)
    ensures var m := Normalize(s);
      (m == [] || (!IsSpace(m[0]) && !IsSpace(m[|m| - 1]))) &&
      (forall i :: 0 <= i < |m| ==> !('A' <= m[i] <= 'Z')) &&
      Normalize(m) == m
  {
    var m := Normalize(s);
    StripTrims(Lower(s));
    LowerHasNoUpper(s);
    assert forall i :: 0 <= i < |m| ==> m[i] in Lower(s);
    LowerFixes(m);
    StripFixes(m);
  }

  /** `strip()` leaves no whitespace at either end and keeps only characters
      of its argument. */
  lemma StripTrims(l: string)
    ensures var m := Strip(l);
      (m == [] || (!IsSpace(m[0]) && !IsSpace(m[|m| - 1]))) &&
      forall i :: 0 <= i < |m| ==> m[i] in l
  {
    var k := LeadingSpaces(l);
    var t := l[k..];
    var m := t[..KeptLength(t)];
    assert forall i :: 0 <= i < |m| ==> m[i] == l[k + i];
  }

  lemma LowerHasNoUpper(s: string)
    ensures forall c :: c in Lower(s) ==> !('A' <= c <= 'Z')
  {
  }

  lemma LowerFixes(m: string)
    requires forall i :: 0 <= i < |m| ==> !('A' <= m[i] <= 'Z')
    ensures Lower(m) == m
  {
  }

  lemma StripFixes(m: string)
    requires m == [] || (!IsSpace(m[0]) && !IsSpace(m[|m| - 1]))
    ensures Strip(m) == m
  {
    assert LeadingSpaces(m) == 0;
    assert m[0..] == m;
    assert KeptLength(m) == |m|;
  }

  /** Upper case and surrounding whitespace do not matter. */
  lemma NormalizeExample()
    ensures Normalize(" Local\n") == "local"
  {
    var l := Lower(" Local\n");
    assert l == " local\n";
    assert LeadingSpaces(l) == 1 by {
      assert IsSpace(l[0]) && l[1..] == "local\n" && !IsSpace(l[1]);
    }
    var t := l[1..];
    assert KeptLength(t) == 5 by {
      assert IsSpace(t[5]) && t[..5] == "local" && !IsSpace(t[4]);
    }
    assert Strip(l) == t[..5];
  }

  function Mode(settings: Settings): string {
    Normalize(settings.blockchainMode)
  }

  // ---------------------------------------------------------------------------
  // maybe_anchor

  /** The anchor info for a block mined on the local chain. */
  function LocalInfo(b: Block): map<string, Json> {
    map["mode" := JStr("local"), "height" := JNum(b.index), "hash" := JStr(b.hash)]
  }

  /** `{"mode": "eth", **tx}`: the transaction's own keys come after, so
      they would win. */
  function EthInfo(tx: map<string, Json>): map<string, Json> {
    map["mode" := JStr("eth")] + tx
  }

  /** What `maybe_anchor(record_hash)` returns and the local chain file after
      it. Every failure of the local or Ethereum path is swallowed into None;
      in local mode the chain may still have been repaired by
      `ensure_genesis`. */
  function AnchorSpec(B: Builtins, settings: Settings, eth: EthClient, lines: seq<Line>, recordHash: string, clock: Clock)
    : (Option<map<string, Json>>, seq<Line>)
  {
    var mode := Mode(settings);
    if mode == "off" then (None, lines)
    else if mode == "local" then
      var (blk, out) := AddBlockSpec(B, settings.powDifficulty, lines, recordHash, clock);
      (if blk.Success? then Some(LocalInfo(blk.value)) else None, out)
    else if mode == "eth" then
      if !eth.configured then (None, lines)
      else
        match eth.anchorText(recordHash)
        case None => (None, lines)
        case Some(tx) => (Some(EthInfo(tx)), lines)
    else (None, lines)
  }

  /** `maybe_anchor`. */
  method MaybeAnchor(B: Builtins, settings: Settings, eth: EthClient, chain: File, recordHash: string, clock: Clock)
    returns (r: Option<map<string, Json>>)
    modifies chain
    ensures (r, chain.lines) == AnchorSpec(B, settings, eth, old(chain.lines), recordHash, clock)
  {
    var mode := Normalize(settings.blockchainMode);
    if mode == "off" {
      return None;
    }
    if mode == "local" {
      var blk := AddBlock(B, chain, settings.powDifficulty, recordHash, clock);
      if blk.Failure? {
        return None;
      }
      return Some(LocalInfo(blk.value));
    }
    if mode == "eth" {
      if !eth.configured {
        return None;
      }
      var tx := eth.anchorText(recordHash);
      if tx.None? {
        return None;
      }
      return Some(EthInfo(tx.value));
    }
    return None;
  }

  /** Only the local mode touches the chain file, and only the local and
      Ethereum modes ever produce an anchor. */
  lemma AnchorOnlyWhenEnabled(B: Builtins, settings: Settings, eth: EthClient, lines: seq<Line>, recordHash: string, clock: Clock)
    ensures Mode(settings) != "local" ==> AnchorSpec(B, settings, eth, lines, recordHash, clock).1 == lines
    ensures Mode(settings) != "local" && Mode(settings) != "eth" ==> AnchorSpec(B, settings, eth, lines, recordHash, clock).0 == None
    ensures Mode(settings) == "eth" && !eth.configured ==> AnchorSpec(B, settings, eth, lines, recordHash, clock).0 == None
  {
  }

  /** Every anchor info names its mode: `local` with the mined block's
      height and hash, or `eth` (unless the transaction overrides it). */
  lemma AnchorInfoHasMode(B: Builtins, settings: Settings, eth: EthClient, lines: seq<Line>, recordHash: string, clock: Clock)
    requires AnchorSpec(B, settings, eth, lines, recordHash, clock).0.Some?
    ensures "mode" in AnchorSpec(B, settings, eth, lines, recordHash, clock).0.value
    ensures Mode(settings) == "local" ==>
      AnchorSpec(B, settings, eth, lines, recordHash, clock).0.value.Keys == {"mode", "height", "hash"} &&
      AnchorSpec(B, settings, eth, lines, recordHash, clock).0.value["mode"] == JStr("local")
  {
    if Mode(settings) == "local" {
      var blk := AddBlockSpec(B, settings.powDifficulty, lines, recordHash, clock).0;
      assert AnchorSpec(B, settings, eth, lines, recordHash, clock).0.value == LocalInfo(blk.value);
    } else {
      assert Mode(settings) == "eth";
      var tx := eth.anchorText(recordHash).value;
      assert AnchorSpec(B, settings, eth, lines, recordHash, clock).0.value == EthInfo(tx);
    }
  }

  /** With the configured defaults nothing is anchored and nothing changes. */
  lemma DefaultsDisableAnchoring(B: Builtins, eth: EthClient, lines: seq<Line>, recordHash: string, clock: Clock)
    ensures AnchorSpec(B, DEFAULT_SETTINGS, eth, lines, recordHash, clock) == (None, lines)
  {
    assert Lower("off") == "off";
    assert LeadingSpaces("off") == 0;
    assert "off"[0..] == "off";
    assert KeptLength("off") == 3;
    assert "off"[..3] == "off";
  }

  /** In local mode an anchor is reported exactly when a block was mined; it
      carries that block's index and hash, the block holds the record hash
      as its data and is the new last line of the chain. */
  lemma LocalAnchorDescribesMinedBlock(B: Builtins, settings: Settings, eth: EthClient, lines: seq<Line>,
                                       recordHash: string, clock: Clock)
    requires Mode(settings) == "local"
    requires AnchorSpec(B, settings, eth, lines, recordHash, clock).0.Some?
    ensures var (info, out) := AnchorSpec(B, settings, eth, lines, recordHash, clock);
      exists b: Block ::
        out == Repaired(B, lines, clock.now) + [BlockLine(b)] &&
        b.data == recordHash && StartsWith(b.hash, TargetPrefix(settings.powDifficulty)) &&
        info.value == LocalInfo(b) && info.value["height"] == JNum(b.index) && info.value["hash"] == JStr(b.hash)
  {
    var g := Repaired(B, lines, clock.now);
    var link := ChainLink(TipOf(g)).value;
    var b := AddBlockSpec(B, settings.powDifficulty, lines, recordHash, clock).0.value;
    assert MineFrom(B, TargetPrefix(settings.powDifficulty), link.0, link.1, recordHash, clock, 0) == Success(b);
    assert AnchorSpec(B, settings, eth, lines, recordHash, clock) == (Some(LocalInfo(b)), g + [BlockLine(b)]);
    MinedIsFirstHit(B, TargetPrefix(settings.powDifficulty), link.0, link.1, recordHash, clock, 0, b);
  }

  /** Anchoring a record hash that no block carries yet makes `find_anchor`
      return the block just mined, whether or not the chain verifies. */
  lemma AnchoredHashIsFound(B: Builtins, settings: Settings, eth: EthClient, lines: seq<Line>,
                            recordHash: string, clock: Clock)
    requires Mode(settings) == "local"
    requires AnchorSpec(B, settings, eth, lines, recordHash, clock).0.Some?
    requires FirstWithData(Repaired(B, lines, clock.now), recordHash) == Success(None)
    ensures var (info, out) := AnchorSpec(B, settings, eth, lines, recordHash, clock);
      FindAnchorSpec(B, settings, out, recordHash, clock.now).0.Success? &&
      FindAnchorSpec(B, settings, out, recordHash, clock.now).0.value.Some? &&
      FindAnchorSpec(B, settings, out, recordHash, clock.now).0.value.value.JObj? &&
      Lookup(FindAnchorSpec(B, settings, out, recordHash, clock.now).0.value.value.fields, "hash") == Some(info.value["hash"])
  {
    var g := Repaired(B, lines, clock.now);
    var b := AddBlockSpec(B, settings.powDifficulty, lines, recordHash, clock).0.value;
    var link := ChainLink(TipOf(g)).value;
    MinedIsFirstHit(B, TargetPrefix(settings.powDifficulty), link.0, link.1, recordHash, clock, 0, b);
    AppendedBlockIsFound(g, b);
    EnsureGenesisIdempotent(B, g + [BlockLine(b)], clock.now, clock.now);
  }

  /** Anchoring on a verified local chain leaves it verified, one block
      longer, unless the tip carries index -1. */
  lemma AnchoringKeepsChainVerified(B: Builtins, settings: Settings, eth: EthClient, lines: seq<Line>,
                                    recordHash: string, clock: Clock, n: nat)
    requires Mode(settings) == "local"
    requires AnchorSpec(B, settings, eth, lines, recordHash, clock).0.Some?
    requires AnchorSpec(B, settings, eth, lines, recordHash, clock).0.value["height"] != JNum(0)
    requires ChainOutcome(B, TargetPrefix(settings.powDifficulty), Repaired(B, lines, clock.now)) == Success((true, n))
    ensures ChainOutcome(B, TargetPrefix(settings.powDifficulty), AnchorSpec(B, settings, eth, lines, recordHash, clock).1)
            == Success((true, n + 1))
  {
    AddBlockKeepsChainVerified(B, settings.powDifficulty, lines, recordHash, clock, n);
  }

  // ---------------------------------------------------------------------------
  // status

  /** The tip hash `status` reports: `tip["hash"] if tip else None`. */
  function TipHash(tip: Option<Json>): Result<Json, Exc> {
    if tip.None? || !Truthy(tip.value) then Success(JNull) else Subscript(tip.value, "hash")
  }

  /** What `status()` returns (or raises) and the chain file after it. */
  function StatusSpec(B: Builtins, settings: Settings, eth: EthClient, lines: seq<Line>, now: string)
    : (Result<map<string, Json>, Exc>, seq<Line>)
  {
    var mode := Mode(settings);
    if mode == "local" then
      var g := Repaired(B, lines, now);
      match ChainOutcome(B, TargetPrefix(settings.powDifficulty), g)
      case Failure(e) => (Failure(e), g)
      case Success(res) =>
        match TipHash(TipOf(g))
        case Failure(e) => (Failure(e), g)
        case Success(h) =>
          (Success(map["mode" := JStr(mode), "ok" := JBool(res.0), "height" := JNum(res.1), "tip_hash" := h]), g)
    else if mode == "eth" then
      (Success(map["mode" := JStr(mode), "configured" := JBool(eth.configured)]), lines)
    else
      (Success(map["mode" := JStr(mode), "note" := JStr("anchoring disabled")]), lines)
  }

  /** `status`. */
  method Status(B: Builtins, settings: Settings, eth: EthClient, chain: File, now: string)
    returns (r: Result<map<string, Json>, Exc>)
    modifies chain
    ensures (r, chain.lines) == StatusSpec(B, settings, eth, old(chain.lines), now)
  {
    var mode := Normalize(settings.blockchainMode);
    if mode == "local" {
      var res := VerifyChain(B, chain, settings.powDifficulty, now);
      if res.Failure? {
        return Failure(res.error);
      }
      var tip := GetTip(B, chain, now);
      EnsureGenesisIdempotent(B, old(chain.lines), now, now);
      var h := TipHash(tip);
      if h.Failure? {
        return Failure(h.error);
      }
      return Success(map["mode" := JStr(mode), "ok" := JBool(res.value.0), "height" := JNum(res.value.1),
                         "tip_hash" := h.value]);
    } else if mode == "eth" {
      return Success(map["mode" := JStr(mode), "configured" := JBool(eth.configured)]);
    }
    return Success(map["mode" := JStr(mode), "note" := JStr("anchoring disabled")]);
  }

  /** On a local chain that verifies with at least one block, `status`
      reports it as sound with that height, and the tip hash it shows is the
      hash the walk ended on. */
  lemma StatusOfVerifiedChain(B: Builtins, settings: Settings, eth: EthClient, lines: seq<Line>, now: string, n: nat)
    requires Mode(settings) == "local"
    requires ChainOutcome(B, TargetPrefix(settings.powDifficulty), Repaired(B, lines, now)) == Success((true, n))
    ensures n > 0
    ensures StatusSpec(B, settings, eth, lines, now).0 ==
      Success(map["mode" := JStr("local"), "ok" := JBool(true), "height" := JNum(n),
                  "tip_hash" := JStr(ChainWalk(B, TargetPrefix(settings.powDifficulty), Repaired(B, lines, now), ChainStart).prevHash)])
  {
    var prefix := TargetPrefix(settings.powDifficulty);
    var g := Repaired(B, lines, now);
    var st := ChainWalk(B, prefix, g, ChainStart);
    assert st == Scanning(st.prevHash, n);
    ScanningTracksTip(B, prefix, g);
    LastNonBlankNone(g);
    assert !g[0].Blank?;
    var tip := TipOf(g).value;
    assert "hash" in tip.fields && Truthy(tip);
    assert TipHash(TipOf(g)) == Success(JStr(st.prevHash));
  }

  /** In local mode `status` reports the verifier's verdict and count as
      `ok` and `height` (the count of verified blocks, not the tip's index),
      after repairing the chain. */
  lemma LocalStatusReportsVerifyCount(B: Builtins, settings: Settings, eth: EthClient, lines: seq<Line>, now: string)
    requires Mode(settings) == "local"
    requires StatusSpec(B, settings, eth, lines, now).0.Success?
    ensures StatusSpec(B, settings, eth, lines, now).1 == Repaired(B, lines, now)
    ensures var v := ChainOutcome(B, TargetPrefix(settings.powDifficulty), Repaired(B, lines, now));
      var out := StatusSpec(B, settings, eth, lines, now).0.value;
      v.Success? && out.Keys == {"mode", "ok", "height", "tip_hash"} &&
      out["ok"] == JBool(v.value.0) && out["height"] == JNum(v.value.1)
  {
  }

  /** Outside local mode `status` neither raises nor touches the chain: it
      reports whether Ethereum is configured in eth mode, and that anchoring
      is disabled in every other mode. */
  lemma StatusOutsideLocalMode(B: Builtins, settings: Settings, eth: EthClient, lines: seq<Line>, now: string)
    requires Mode(settings) != "local"
    ensures StatusSpec(B, settings, eth, lines, now).1 == lines
    ensures StatusSpec(B, settings, eth, lines, now).0.Success?
    ensures var out := StatusSpec(B, settings, eth, lines, now).0.value;
      out["mode"] == JStr(Mode(settings)) &&
      (Mode(settings) == "eth" ==> out.Keys == {"mode", "configured"} && out["configured"] == JBool(eth.configured)) &&
      (Mode(settings) != "eth" ==> out.Keys == {"mode", "note"} && out["note"] == JStr("anchoring disabled"))
  {
  }

  // ---------------------------------------------------------------------------
  // find_anchor, chain_tail, verify

  /** What `find_anchor(record_hash)` returns and the chain file after it:
      only the local mode looks anything up. */
  function FindAnchorSpec(B: Builtins, settings: Settings, lines: seq<Line>, recordHash: string, now: string)
    : (Result<Option<Json>, Exc>, seq<Line>)
  {
    if Mode(settings) == "local" then
      var g := Repaired(B, lines, now);
      (FirstWithData(g, recordHash), g)
    else (Success(None), lines)
  }

  /** Outside local mode `find_anchor` finds nothing and touches nothing. */
  lemma FindAnchorOnlyInLocalMode(B: Builtins, settings: Settings, lines: seq<Line>, recordHash: string, now: string)
    requires Mode(settings) != "local"
    ensures FindAnchorSpec(B, settings, lines, recordHash, now) == (Success(None), lines)
  {
  }

  /** `find_anchor`. */
  method FindAnchor(B: Builtins, settings: Settings, chain: File, recordHash: string, now: string)
    returns (r: Result<Option<Json>, Exc>)
    modifies chain
    ensures (r, chain.lines) == FindAnchorSpec(B, settings, old(chain.lines), recordHash, now)
  {
    if Normalize(settings.blockchainMode) == "local" {
      r := FindByData(B, chain, recordHash, now);
    } else {
      r := Success(None);
    }
  }

  /** `[json.loads(x) for x in lines]`: the first line that is not JSON
      raises, blank ones included. */
  function LoadAll(window: seq<Line>): (r: Result<seq<Json>, Exc>)
    ensures r.Success? <==> forall i :: 0 <= i < |window| ==> window[i].Parsed?
    ensures r.Success? ==> |r.value| == |window| && forall i :: 0 <= i < |window| ==> r.value[i] == window[i].value
    ensures r.Failure? ==> r.error == ValueError
    decreases |window|
  {
    if window == [] then Success([])
    else if !window[0].Parsed? then Failure(ValueError)
    else
      var rest := LoadAll(window[1..]);
      if rest.Failure? then rest
      else Success([window[0].value] + rest.value)
  }

  /** `chain_tail(limit)`: the last `limit` lines of the chain file (a
      missing file reads as no lines), every one parsed. */
  method ChainTail(chain: File, limit: int) returns (r: Result<seq<Json>, Exc>)
    ensures r == LoadAll(PyTail(chain.lines, limit))
    ensures r.Success? ==> |r.value| <= |chain.lines| && (limit > 0 ==> |r.value| <= limit)
  {
    r := LoadAll(PyTail(chain.lines, limit));
  }

  /** `verify()`: `verify_chain()` as a dictionary. */
  method Verify(B: Builtins, settings: Settings, chain: File, now: string) returns (r: Result<map<string, Json>, Exc>)
    modifies chain
    ensures chain.lines == Repaired(B, old(chain.lines), now)
    ensures match ChainOutcome(B, TargetPrefix(settings.powDifficulty), chain.lines)
      case Failure(e) => r == Failure(e)
      case Success(res) => r == Success(map["ok" := JBool(res.0), "height" := JNum(res.1)])
  {
    var res := VerifyChain(B, chain, settings.powDifficulty, now);
    if res.Failure? {
      return Failure(res.error);
    }
    return Success(map["ok" := JBool(res.value.0), "height" := JNum(res.value.1)]);
  }
}
