/** The file-based proof-of-work chain (app/blockchain/localchain.py). The
    chain file holds one JSON block per line; unlike the plain ledgers it
    starts with a materialised genesis block, and every later block's hash
    must start with `max(1, POW_DIFFICULTY)` zeros. */
module LocalChain {
  import opened Wrappers
  import opened PyRuntime

  const GENESIS: string := "GENESIS"

  /** The configured default of `POW_DIFFICULTY` (app/config.py). */
  const DEFAULT_POW_DIFFICULTY: int := 3

  /** A block as `_mine` and `ensure_genesis` build it. `prevHash` is whatever
      value the tip's `hash` field held. */
  datatype Block = Block(index: int, timestamp: string, prevHash: Json, data: string, nonce: nat, hash: string)

  function BlockJson(b: Block): map<string, Json> {
    map["index" := JNum(b.index), "timestamp" := JStr(b.timestamp), "prev_hash" := b.prevHash,
        "data" := JStr(b.data), "nonce" := JNum(b.nonce), "hash" := JStr(b.hash)]
  }

  /** The line `json.dumps(block)` writes, as it reads back. */
  function BlockLine(b: Block): Line {
    Parsed(JObj(BlockJson(b)))
  }

  /** Where timestamps come from: `now` for a genesis block and
      `attemptStamp(n)` for mining attempt `n`. Each stands for the whole
      text `datetime.utcnow().isoformat() + "Z"` (app/blockchain/localchain.py:181
      and :275), the `Z` included. `attemptLimit` bounds the search, which the
      source leaves unbounded. */
  datatype Clock = Clock(now: string, attemptStamp: nat -> string, attemptLimit: nat)

  /** `f"{index}|{timestamp}|{prev_hash}|{data}|{nonce}"`. */
  function Preimage(B: Builtins, index: Json, ts: Json, prev: Json, data: Json, nonce: Json): string {
    PyStr(B, index) + "|" + PyStr(B, ts) + "|" + PyStr(B, prev) + "|" + PyStr(B, data) + "|" + PyStr(B, nonce)
  }

  function BlockHash(B: Builtins, index: Json, ts: Json, prev: Json, data: Json, nonce: Json): string {
    B.sha256Hex(Preimage(B, index, ts, prev, data, nonce))
  }

  /** The `|`-joined preimage does not separate its fields unambiguously: a
      `|` inside `prev_hash` or `data` moves the boundary, so two different
      blocks can share a preimage and therefore a hash. */
  lemma PreimageIsAmbiguous(B: Builtins)
    ensures Preimage(B, JNum(1), JStr("t"), JStr("p|q"), JStr("d"), JNum(0)) ==
            Preimage(B, JNum(1), JStr("t"), JStr("p"), JStr("q|d"), JNum(0))
  {
    assert PyStr(B, JNum(1)) == "1";
    assert PyStr(B, JNum(0)) == "0";
  }

  // ---------------------------------------------------------------------------
  // Difficulty

  predicate StartsWith(h: string, prefix: string) {
    |prefix| <= |h| && h[..|prefix|] == prefix
  }

  /** `"0" * max(1, int(settings.POW_DIFFICULTY))`. */
  function TargetPrefix(difficulty: int): (p: string)
    ensures |p| == if difficulty < 1 then 1 else difficulty
    ensures forall i :: 0 <= i < |p| ==> p[i] == '0'
  {
    seq(if difficulty < 1 then 1 else difficulty, _ => '0')
  }

  /** The number of leading `'0'` characters of a hash. */
  function LeadingZeros(h: string): nat
    decreases |h|
  {
    if h != [] && h[0] == '0' then 1 + LeadingZeros(h[1..]) else 0
  }

  lemma {:induction false} LeadingZerosAtLeast(h: string, k: nat)
    ensures LeadingZeros(h) >= k <==> k <= |h| && forall i :: 0 <= i < k ==> h[i] == '0'
    decreases k
  {
    if k > 0 && h != [] && h[0] == '0' {
      LeadingZerosAtLeast(h[1..], k - 1);
      assert forall i :: 1 <= i < k && k <= |h| ==> h[i] == h[1..][i - 1];
    }
  }

  /** A hash meets the target exactly when it has at least
      `max(1, difficulty)` leading zeros: a difficulty of 0 or less acts as 1. */
  lemma MeetsTargetIffLeadingZeros(h: string, difficulty: int)
    ensures StartsWith(h, TargetPrefix(difficulty)) <==>
            LeadingZeros(h) >= if difficulty < 1 then 1 else difficulty
  {
    var p := TargetPrefix(difficulty);
    LeadingZerosAtLeast(h, |p|);
    if |p| <= |h| && (forall i :: 0 <= i < |p| ==> h[i] == '0') {
      assert h[..|p|] == p;
    }
  }

  // ---------------------------------------------------------------------------
  // ensure_genesis

  /** The genesis block `ensure_genesis` writes at time `now`. */
  function GenesisBlock(B: Builtins, now: string): Block {
    Block(0, now, JStr(GENESIS), GENESIS, 0,
          BlockHash(B, JNum(0), JStr(now), JStr(GENESIS), JStr(GENESIS), JNum(0)))
  }

  /** The chain file after `ensure_genesis`: a missing or empty file, or one
      whose first line does not parse (blank included), is rewritten to the
      single genesis line; otherwise it is left as it is. */
  function Repaired(B: Builtins, lines: seq<Line>, now: string): (r: seq<Line>)
    ensures |r| > 0 && r[0].Parsed?
  {
    if lines != [] && lines[0].Parsed? then lines else [BlockLine(GenesisBlock(B, now))]
  }

  /** A chain file that is missing, empty, or whose first line does not
      parse becomes the single genesis block: index 0, the sentinel as both
      `prev_hash` and `data`, nonce 0, the given time, and the hash of those
      fields; every later line is discarded. */
  lemma RepairWritesGenesis(B: Builtins, lines: seq<Line>, now: string)
    requires lines == [] || !lines[0].Parsed?
    ensures Repaired(B, lines, now) == [BlockLine(GenesisBlock(B, now))]
    ensures var g := GenesisBlock(B, now);
      g.index == 0 && g.prevHash == JStr(GENESIS) && g.data == GENESIS && g.nonce == 0 && g.timestamp == now &&
      g.hash == BlockHash(B, JNum(0), JStr(now), JStr(GENESIS), JStr(GENESIS), JNum(0))
  {
  }

  /** `ensure_genesis` is idempotent: a second call, at any time, changes nothing. */
  lemma EnsureGenesisIdempotent(B: Builtins, lines: seq<Line>, now: string, later: string)
    ensures Repaired(B, Repaired(B, lines, now), later) == Repaired(B, lines, now)
    ensures lines != [] && lines[0].Parsed? ==> Repaired(B, lines, now) == lines
  {
  }

  /** `ensure_genesis`: returns the genesis block it wrote, or the parsed
      first line. */
  method EnsureGenesis(B: Builtins, chain: File, now: string) returns (first: Json)
    modifies chain
    ensures chain.lines == Repaired(B, old(chain.lines), now)
    ensures chain.lines[0] == Parsed(first)
  {
    if |chain.lines| == 0 || !chain.lines[0].Parsed? {
      var genesis := GenesisBlock(B, now);
      chain.Overwrite(BlockLine(genesis));
      return JObj(BlockJson(genesis));
    }
    return chain.lines[0].value;
  }

  // ---------------------------------------------------------------------------
  // _last_line and get_tip

  /** The last line that is not blank. */
  function LastNonBlank(lines: seq<Line>): Option<Line>
    decreases |lines|
  {
    if lines == [] then None
    else if !lines[|lines| - 1].Blank? then Some(lines[|lines| - 1])
    else LastNonBlank(lines[..|lines| - 1])
  }

  lemma {:induction false} LastNonBlankAt(lines: seq<Line>, i: nat)
    requires i < |lines| && !lines[i].Blank?
    requires forall j :: i < j < |lines| ==> lines[j].Blank?
    ensures LastNonBlank(lines) == Some(lines[i])
    decreases |lines|
  {
    if i < |lines| - 1 {
      LastNonBlankAt(lines[..|lines| - 1], i);
    }
  }

  lemma {:induction false} LastNonBlankNone(lines: seq<Line>)
    ensures LastNonBlank(lines).None? <==> forall i :: 0 <= i < |lines| ==> lines[i].Blank?
    decreases |lines|
  {
    if lines != [] {
      var init := lines[..|lines| - 1];
      LastNonBlankNone(init);
      assert forall i :: 0 <= i < |init| ==> init[i] == lines[i];
    }
  }

  /** `_last_line`: scan from the end for the last non-blank line. */
  method LastLine(chain: File) returns (r: Option<Line>)
    ensures r == LastNonBlank(chain.lines)
  {
    var lines := chain.lines;
    var i := |lines|;
    assert lines[..i] == lines;
    while i > 0
      invariant 0 <= i <= |lines|
      invariant LastNonBlank(lines) == LastNonBlank(lines[..i])
    {
      assert lines[..i][..i - 1] == lines[..i - 1];
      if !lines[i - 1].Blank? {
        return Some(lines[i - 1]);
      }
      i := i - 1;
    }
    return None;
  }

  /** The tip: the last non-blank line parsed, or None when that one line is
      malformed (no further search backwards). */
  function TipOf(lines: seq<Line>): Option<Json> {
    match LastNonBlank(lines)
    case Some(Parsed(v)) => Some(v)
    case _ => None
  }

  /** The tip is decided by the last non-blank line alone: its value when it
      parses, None when it does not, whatever blocks come before it. */
  lemma TipIsLastNonBlankLine(lines: seq<Line>, i: nat)
    requires i < |lines| && !lines[i].Blank?
    requires forall j :: i < j < |lines| ==> lines[j].Blank?
    ensures lines[i].Parsed? ==> TipOf(lines) == Some(lines[i].value)
    ensures lines[i].Malformed? ==> TipOf(lines) == None
  {
    LastNonBlankAt(lines, i);
  }

  /** `get_tip`: `ensure_genesis()` then parse the last non-blank line. */
  method GetTip(B: Builtins, chain: File, now: string) returns (tip: Option<Json>)
    modifies chain
    ensures chain.lines == Repaired(B, old(chain.lines), now)
    ensures tip == TipOf(chain.lines)
  {
    var _ := EnsureGenesis(B, chain, now);
    var ll := LastLine(chain);
    if ll.None? {
      return None;
    }
    if ll.value.Parsed? {
      return Some(ll.value.value);
    }
    return None;
  }

  // ---------------------------------------------------------------------------
  // verify_chain

  /** The state of the loop of `verify_chain`. */
  datatype ChainScan = Scanning(prevHash: string, count: nat) | Rejected(count: nat) | Crashed(error: Exc)

  const ChainStart: ChainScan := Scanning(GENESIS, 0)

  /** `b["index"], b["timestamp"], b["prev_hash"], b["data"], b["nonce"]`,
      in the order the f-string reads them. */
  function BlockFields(b: Json): (r: Result<(Json, Json, Json, Json, Json), Exc>)
    ensures r.Success? <==> (b.JObj? && "index" in b.fields && "timestamp" in b.fields &&
                             "prev_hash" in b.fields && "data" in b.fields && "nonce" in b.fields)
    ensures r.Success? ==> r.value == (b.fields["index"], b.fields["timestamp"], b.fields["prev_hash"],
                                      b.fields["data"], b.fields["nonce"])
  {
    match Subscript(b, "index")
    case Failure(e) => Failure(e)
    case Success(index) =>
      match Subscript(b, "timestamp")
      case Failure(e) => Failure(e)
      case Success(ts) =>
        match Subscript(b, "prev_hash")
        case Failure(e) => Failure(e)
        case Success(prev) =>
          match Subscript(b, "data")
          case Failure(e) => Failure(e)
          case Success(data) =>
            match Subscript(b, "nonce")
            case Failure(e) => Failure(e)
            case Success(nonce) => Success((index, ts, prev, data, nonce))
  }

  /** One iteration of the loop of `verify_chain`. */
  function ChainStep(B: Builtins, prefix: string, st: ChainScan, line: Line): ChainScan {
    if !st.Scanning? then st
    else
      match line
      case Blank => st
      case Malformed => Rejected(st.count)
      case Parsed(b) =>
        match BlockFields(b)
        case Failure(e) => Crashed(e)
        case Success(f) =>
          var h := BlockHash(B, f.0, f.1, f.2, f.3, f.4);
          if Lookup(b.fields, "hash") != Some(JStr(h)) then Rejected(st.count)
          else if EqualsZero(f.0) then
            (if f.2 != JStr(GENESIS) then Rejected(st.count) else Scanning(h, st.count + 1))
          else if f.2 != JStr(st.prevHash) then Rejected(st.count)
          else if !StartsWith(h, prefix) then Rejected(st.count)
          else Scanning(h, st.count + 1)
  }

  function ChainWalk(B: Builtins, prefix: string, lines: seq<Line>, st: ChainScan): ChainScan
    decreases |lines|
  {
    if lines == [] then st
    else ChainStep(B, prefix, ChainWalk(B, prefix, lines[..|lines| - 1], st), lines[|lines| - 1])
  }

  function ChainVerdict(st: ChainScan): Result<(bool, nat), Exc> {
    match st
    case Scanning(_, n) => Success((true, n))
    case Rejected(n) => Success((false, n))
    case Crashed(e) => Failure(e)
  }

  /** What the loop of `verify_chain` returns (or raises) on these lines. */
  function ChainOutcome(B: Builtins, prefix: string, lines: seq<Line>): Result<(bool, nat), Exc> {
    ChainVerdict(ChainWalk(B, prefix, lines, ChainStart))
  }

  lemma {:induction false} ChainWalkHalted(B: Builtins, prefix: string, lines: seq<Line>, st: ChainScan)
    requires !st.Scanning?
    ensures ChainWalk(B, prefix, lines, st) == st
    decreases |lines|
  {
    if lines != [] {
      ChainWalkHalted(B, prefix, lines[..|lines| - 1], st);
    }
  }

  lemma {:induction false} ChainWalkAppend(B: Builtins, prefix: string, a: seq<Line>, b: seq<Line>, st: ChainScan)
    ensures ChainWalk(B, prefix, a + b, st) == ChainWalk(B, prefix, b, ChainWalk(B, prefix, a, st))
    decreases |b|
  {
    if b == [] {
      assert a + b == a;
    } else {
      var b' := b[..|b| - 1];
      assert (a + b)[..|a + b| - 1] == a + b';
      ChainWalkAppend(B, prefix, a, b', st);
    }
  }

  lemma {:induction false} ChainHaltsAt(B: Builtins, prefix: string, lines: seq<Line>, i: nat)
    requires i < |lines|
    requires !ChainWalk(B, prefix, lines[..i + 1], ChainStart).Scanning?
    ensures ChainWalk(B, prefix, lines, ChainStart) == ChainWalk(B, prefix, lines[..i + 1], ChainStart)
    decreases |lines|
  {
    if |lines| == i + 1 {
      assert lines[..i + 1] == lines;
    } else {
      var init := lines[..|lines| - 1];
      assert init[..i + 1] == lines[..i + 1];
      ChainHaltsAt(B, prefix, init, i);
    }
  }

  /** `verify_chain`: `ensure_genesis()`, then walk the repaired lines. */
  method VerifyChain(B: Builtins, chain: File, difficulty: int, now: string) returns (r: Result<(bool, nat), Exc>)
    modifies chain
    ensures chain.lines == Repaired(B, old(chain.lines), now)
    ensures r == ChainOutcome(B, TargetPrefix(difficulty), chain.lines)
  {
    var _ := EnsureGenesis(B, chain, now);
    r := WalkChain(B, TargetPrefix(difficulty), chain.lines);
  }

  /** The loop of `verify_chain`: check the lines one by one with
      `CheckBlockLine`, stopping at the first line that ends the walk. */
  method WalkChain(B: Builtins, prefix: string, lines: seq<Line>) returns (r: Result<(bool, nat), Exc>)
    ensures r == ChainOutcome(B, prefix, lines)
  {
    var prevHash := GENESIS;
    var cnt: nat := 0;
    var i := 0;
    while i < |lines|
      invariant 0 <= i <= |lines|
      invariant ChainWalk(B, prefix, lines[..i], ChainStart) == Scanning(prevHash, cnt)
    {
      var line := lines[i];
      assert lines[..i + 1] == lines[..i] + [line];
      ChainWalkSnoc(B, prefix, lines[..i], line);
      var st := CheckBlockLine(B, prefix, prevHash, cnt, line);
      assert ChainWalk(B, prefix, lines[..i + 1], ChainStart) == st;
      if !st.Scanning? {
        ChainHaltsAt(B, prefix, lines, i);
        return if st.Rejected? then Success((false, st.count)) else Failure(st.error);
      }
      prevHash, cnt := st.prevHash, st.count;
      i := i + 1;
    }
    assert lines[..i] == lines;
    return Success((true, cnt));
  }

  /** One pass of the loop of `verify_chain`: skip a blank line; a malformed
      line or a hash mismatch gives `(False, cnt)`; a block with index 0 must
      link to the sentinel and is exempt from the difficulty; any other must
      link to the previous hash and meet the target. This is the executable
      form of `ChainStep`, which the lemmas reason about; keeping it a method
      of its own keeps the proof of each pass apart from the proof of the
      loop. */
  method CheckBlockLine(B: Builtins, prefix: string, prevHash: string, cnt: nat, line: Line) returns (st: ChainScan)
    ensures st == ChainStep(B, prefix, Scanning(prevHash, cnt), line)
  {
    if line.Malformed? {
      return Rejected(cnt);
    } else if line.Blank? {
      return Scanning(prevHash, cnt);
    }
    var b := line.value;
    var fields := BlockFields(b);
    if fields.Failure? {
      return Crashed(fields.error);
    }
    var f := fields.value;
    var h := BlockHash(B, f.0, f.1, f.2, f.3, f.4);
    if Lookup(b.fields, "hash") != Some(JStr(h)) {
      return Rejected(cnt);
    }
    if EqualsZero(f.0) {
      if f.2 != JStr(GENESIS) {
        return Rejected(cnt);
      }
    } else {
      if f.2 != JStr(prevHash) {
        return Rejected(cnt);
      }
      if !StartsWith(h, prefix) {
        return Rejected(cnt);
      }
    }
    return Scanning(h, cnt + 1);
  }

  /** The walk on the line of a block whose stored hash matches its fields:
      an index-0 block must link to the sentinel, any other must link to the
      expected previous hash and meet the target. */
  lemma StepOnSelfConsistentBlock(B: Builtins, prefix: string, st: ChainScan, b: Block)
    requires st.Scanning?
    requires b.hash == BlockHash(B, JNum(b.index), JStr(b.timestamp), b.prevHash, JStr(b.data), JNum(b.nonce))
    ensures ChainStep(B, prefix, st, BlockLine(b)) ==
      if b.index == 0 then
        (if b.prevHash != JStr(GENESIS) then Rejected(st.count) else Scanning(b.hash, st.count + 1))
      else if b.prevHash != JStr(st.prevHash) || !StartsWith(b.hash, prefix) then Rejected(st.count)
      else Scanning(b.hash, st.count + 1)
  {
    var m := BlockJson(b);
    assert m["index"] == JNum(b.index) && m["timestamp"] == JStr(b.timestamp) && m["prev_hash"] == b.prevHash;
    assert m["data"] == JStr(b.data) && m["nonce"] == JNum(b.nonce) && m["hash"] == JStr(b.hash);
    assert BlockFields(JObj(m)) == Success((JNum(b.index), JStr(b.timestamp), b.prevHash, JStr(b.data), JNum(b.nonce)));
  }

  /** The walk over one more line. */
  lemma ChainWalkSnoc(B: Builtins, prefix: string, lines: seq<Line>, line: Line)
    ensures ChainWalk(B, prefix, lines + [line], ChainStart) == ChainStep(B, prefix, ChainWalk(B, prefix, lines, ChainStart), line)
  {
    assert (lines + [line])[..|lines|] == lines;
  }

  /** A chain holding only a genesis block verifies as `(True, 1)` at any
      difficulty. */
  lemma GenesisChainVerifies(B: Builtins, now: string, difficulty: int)
    ensures ChainOutcome(B, TargetPrefix(difficulty), [BlockLine(GenesisBlock(B, now))]) == Success((true, 1))
  {
    var g := GenesisBlock(B, now);
    ChainWalkSnoc(B, TargetPrefix(difficulty), [], BlockLine(g));
    assert [] + [BlockLine(g)] == [BlockLine(g)];
    StepOnSelfConsistentBlock(B, TargetPrefix(difficulty), ChainStart, g);
  }

  /** While the walk is scanning, its expected previous hash is the `hash`
      field of the tip, or the sentinel when every line is blank. */
  lemma {:induction false} ScanningTracksTip(B: Builtins, prefix: string, lines: seq<Line>)
    requires ChainWalk(B, prefix, lines, ChainStart).Scanning?
    ensures ChainWalk(B, prefix, lines, ChainStart).count == 0 ==>
      LastNonBlank(lines) == None && ChainWalk(B, prefix, lines, ChainStart).prevHash == GENESIS
    ensures ChainWalk(B, prefix, lines, ChainStart).count > 0 ==>
      TipOf(lines).Some? && TipOf(lines).value.JObj? &&
      Lookup(TipOf(lines).value.fields, "hash") == Some(JStr(ChainWalk(B, prefix, lines, ChainStart).prevHash))
    decreases |lines|
  {
    if lines != [] {
      ScanningTracksTip(B, prefix, lines[..|lines| - 1]);
    }
  }

  /** The block a chain with a tip missing `index` or `hash` raises on. */
  function ChainLink(tip: Option<Json>): (r: Result<(int, Json), Exc>)
    ensures tip.None? || !Truthy(tip.value) ==> r == Success((1, JStr(GENESIS)))
    ensures tip.Some? && Truthy(tip.value) && r.Success? ==>
      Subscript(tip.value, "index").Success? &&
      PlusOne(Subscript(tip.value, "index").value) == Success(r.value.0) &&
      Subscript(tip.value, "hash") == Success(r.value.1)
    ensures tip.Some? && Truthy(tip.value) && r.Failure? ==>
      Subscript(tip.value, "index").Failure? || PlusOne(Subscript(tip.value, "index").value).Failure? ||
      Subscript(tip.value, "hash").Failure?
  {
    if tip.None? || !Truthy(tip.value) then Success((1, JStr(GENESIS)))
    else
      match Subscript(tip.value, "index")
      case Failure(e) => Failure(e)
      case Success(ix) =>
        match PlusOne(ix)
        case Failure(e) => Failure(e)
        case Success(index) =>
          match Subscript(tip.value, "hash")
          case Failure(e) => Failure(e)
          case Success(prev) => Success((index, prev))
  }

  // ---------------------------------------------------------------------------
  // _mine

  /** The block mining attempt `nonce` produces: a fresh timestamp, and the
      hash of the fields with that nonce. */
  function Attempt(B: Builtins, index: int, prev: Json, data: string, clock: Clock, nonce: nat): Block {
    var ts := clock.attemptStamp(nonce);
    Block(index, ts, prev, data, nonce, BlockHash(B, JNum(index), JStr(ts), prev, JStr(data), JNum(nonce)))
  }

  /** Whether mining attempt `nonce` meets the target. */
  predicate Hit(B: Builtins, prefix: string, index: int, prev: Json, data: string, clock: Clock, nonce: nat) {
    StartsWith(Attempt(B, index, prev, data, clock, nonce).hash, prefix)
  }

  /** The search of `_mine` from attempt `nonce` on. */
  function MineFrom(B: Builtins, prefix: string, index: int, prev: Json, data: string, clock: Clock, nonce: nat)
    : Result<Block, Exc>
    decreases clock.attemptLimit - nonce
  {
    if nonce >= clock.attemptLimit then Failure(MiningExhausted)
    else if Hit(B, prefix, index, prev, data, clock, nonce) then Success(Attempt(B, index, prev, data, clock, nonce))
    else MineFrom(B, prefix, index, prev, data, clock, nonce + 1)
  }

  /** The search returns the block of the first attempt whose hash meets the
      target ... */
  lemma {:induction false} MinedIsFirstHit(B: Builtins, prefix: string, index: int, prev: Json, data: string,
                                           clock: Clock, from: nat, b: Block)
    requires MineFrom(B, prefix, index, prev, data, clock, from) == Success(b)
    ensures from <= b.nonce
    ensures b == Attempt(B, index, prev, data, clock, b.nonce)
    ensures Hit(B, prefix, index, prev, data, clock, b.nonce)
    ensures forall n :: from <= n < b.nonce ==> !Hit(B, prefix, index, prev, data, clock, n)
    decreases clock.attemptLimit - from
  {
    if Hit(B, prefix, index, prev, data, clock, from) {
      assert b == Attempt(B, index, prev, data, clock, from);
    } else {
      assert MineFrom(B, prefix, index, prev, data, clock, from + 1) == Success(b);
      MinedIsFirstHit(B, prefix, index, prev, data, clock, from + 1, b);
      forall n | from <= n < b.nonce
        ensures !Hit(B, prefix, index, prev, data, clock, n)
      {
        if n == from {
        }
      }
    }
  }

  /** ... within the bound on attempts ... */
  lemma {:induction false} MinedWithinBound(B: Builtins, prefix: string, index: int, prev: Json, data: string,
                                            clock: Clock, from: nat)
    requires MineFrom(B, prefix, index, prev, data, clock, from).Success?
    ensures MineFrom(B, prefix, index, prev, data, clock, from).value.nonce < clock.attemptLimit
    decreases clock.attemptLimit - from
  {
    if !Hit(B, prefix, index, prev, data, clock, from) {
      MinedWithinBound(B, prefix, index, prev, data, clock, from + 1);
    }
  }

  /** ... and gives up only when no attempt within the bound does. */
  lemma {:induction false} MiningExhaustedMeansNoHit(B: Builtins, prefix: string, index: int, prev: Json, data: string,
                                                     clock: Clock, from: nat)
    requires MineFrom(B, prefix, index, prev, data, clock, from).Failure?
    ensures MineFrom(B, prefix, index, prev, data, clock, from).error == MiningExhausted
    ensures forall n :: from <= n < clock.attemptLimit ==> !Hit(B, prefix, index, prev, data, clock, n)
    decreases clock.attemptLimit - from
  {
    if from < clock.attemptLimit {
      MiningExhaustedMeansNoHit(B, prefix, index, prev, data, clock, from + 1);
    }
  }

  /** `_mine`: try nonces 0, 1, 2, ... with a fresh timestamp each, until the
      hash starts with the target prefix. */
  method Mine(B: Builtins, difficulty: int, index: int, prev: Json, data: string, clock: Clock)
    returns (r: Result<Block, Exc>)
    ensures r == MineFrom(B, TargetPrefix(difficulty), index, prev, data, clock, 0)
    ensures r.Success? ==>
      r.value.index == index && r.value.prevHash == prev && r.value.data == data &&
      StartsWith(r.value.hash, TargetPrefix(difficulty)) &&
      r.value == Attempt(B, index, prev, data, clock, r.value.nonce) &&
      forall n :: 0 <= n < r.value.nonce ==> !Hit(B, TargetPrefix(difficulty), index, prev, data, clock, n)
    ensures r.Failure? ==> r.error == MiningExhausted
  {
    var prefix := TargetPrefix(difficulty);
    var nonce: nat := 0;
    while nonce < clock.attemptLimit
      invariant MineFrom(B, prefix, index, prev, data, clock, nonce) == MineFrom(B, prefix, index, prev, data, clock, 0)
      decreases clock.attemptLimit - nonce
    {
      var ts := clock.attemptStamp(nonce);
      var h := BlockHash(B, JNum(index), JStr(ts), prev, JStr(data), JNum(nonce));
      if StartsWith(h, prefix) {
        r := Success(Block(index, ts, prev, data, nonce, h));
        MinedIsFirstHit(B, prefix, index, prev, data, clock, 0, r.value);
        return;
      }
      nonce := nonce + 1;
    }
    r := Failure(MiningExhausted);
  }

  // ---------------------------------------------------------------------------
  // add_block

  /** What `add_block(data)` returns (or raises) and the chain file after it.
      A raise after `ensure_genesis` leaves the repaired file in place. */
  function AddBlockSpec(B: Builtins, difficulty: int, lines: seq<Line>, data: string, clock: Clock)
    : (Result<Block, Exc>, seq<Line>)
  {
    var g := Repaired(B, lines, clock.now);
    match ChainLink(TipOf(g))
    case Failure(e) => (Failure(e), g)
    case Success(link) =>
      var mined := MineFrom(B, TargetPrefix(difficulty), link.0, link.1, data, clock, 0);
      if mined.Failure? then (mined, g) else (mined, g + [BlockLine(mined.value)])
  }

  /** `add_block`: `ensure_genesis()`, read the tip, mine the next block on
      top of it (index 1 on the sentinel when there is no usable tip), and
      append it as one line. */
  method AddBlock(B: Builtins, chain: File, difficulty: int, data: string, clock: Clock)
    returns (r: Result<Block, Exc>)
    modifies chain
    ensures (r, chain.lines) == AddBlockSpec(B, difficulty, old(chain.lines), data, clock)
  {
    var _ := EnsureGenesis(B, chain, clock.now);
    var tip := GetTip(B, chain, clock.now);
    var link := ChainLink(tip);
    if link.Failure? {
      return Failure(link.error);
    }
    r := Mine(B, difficulty, link.value.0, link.value.1, data, clock);
    if r.Success? {
      chain.AppendLine(BlockLine(r.value));
    }
  }

  /** Mining on a verified chain keeps it verified, one block longer, as long
      as the new block does not get index 0 (which the verifier would hold to
      the sentinel; only a tip with index -1 leads there). */
  lemma AddBlockKeepsChainVerified(B: Builtins, difficulty: int, lines: seq<Line>, data: string, clock: Clock, n: nat)
    requires ChainOutcome(B, TargetPrefix(difficulty), Repaired(B, lines, clock.now)) == Success((true, n))
    requires AddBlockSpec(B, difficulty, lines, data, clock).0.Success?
    requires AddBlockSpec(B, difficulty, lines, data, clock).0.value.index != 0
    ensures ChainOutcome(B, TargetPrefix(difficulty), AddBlockSpec(B, difficulty, lines, data, clock).1) == Success((true, n + 1))
  {
    var g := Repaired(B, lines, clock.now);
    var b := AddBlockSpec(B, difficulty, lines, data, clock).0.value;
    MinedBlockExtendsTip(B, difficulty, lines, data, clock);
    LinkedBlockExtendsVerdict(B, TargetPrefix(difficulty), g, b, n);
  }

  /** The link `add_block` builds on a chain that scans cleanly is the hash
      the scan ended on. */
  lemma ScanningLink(B: Builtins, prefix: string, g: seq<Line>)
    requires ChainWalk(B, prefix, g, ChainStart).Scanning?
    requires ChainLink(TipOf(g)).Success?
    ensures ChainLink(TipOf(g)).value.1 == JStr(ChainWalk(B, prefix, g, ChainStart).prevHash)
  {
    ScanningTracksTip(B, prefix, g);
    if ChainWalk(B, prefix, g, ChainStart).count > 0 {
      assert "hash" in TipOf(g).value.fields;
      assert Truthy(TipOf(g).value);
    }
  }

  /** On a repaired chain that scans cleanly, the block `add_block` mines is
      self-consistent, meets the target, links to the scan's last hash and is
      appended as the one new line. */
  lemma MinedBlockExtendsTip(B: Builtins, difficulty: int, lines: seq<Line>, data: string, clock: Clock)
    requires ChainWalk(B, TargetPrefix(difficulty), Repaired(B, lines, clock.now), ChainStart).Scanning?
    requires AddBlockSpec(B, difficulty, lines, data, clock).0.Success?
    ensures var g := Repaired(B, lines, clock.now);
      var b := AddBlockSpec(B, difficulty, lines, data, clock).0.value;
      AddBlockSpec(B, difficulty, lines, data, clock).1 == g + [BlockLine(b)] &&
      b.hash == BlockHash(B, JNum(b.index), JStr(b.timestamp), b.prevHash, JStr(b.data), JNum(b.nonce)) &&
      StartsWith(b.hash, TargetPrefix(difficulty)) &&
      b.prevHash == JStr(ChainWalk(B, TargetPrefix(difficulty), g, ChainStart).prevHash)
  {
    var prefix := TargetPrefix(difficulty);
    var g := Repaired(B, lines, clock.now);
    var link := ChainLink(TipOf(g)).value;
    var b := AddBlockSpec(B, difficulty, lines, data, clock).0.value;
    assert MineFrom(B, prefix, link.0, link.1, data, clock, 0) == Success(b);
    MinedIsFirstHit(B, prefix, link.0, link.1, data, clock, 0, b);
    ScanningLink(B, prefix, g);
  }

  /** A self-consistent block on target that links to the last hash of a
      cleanly scanning chain, with an index other than 0, extends the count
      by one. */
  lemma LinkedBlockExtendsVerdict(B: Builtins, prefix: string, g: seq<Line>, b: Block, n: nat)
    requires ChainOutcome(B, prefix, g) == Success((true, n))
    requires b.index != 0 && b.prevHash == JStr(ChainWalk(B, prefix, g, ChainStart).prevHash)
    requires b.hash == BlockHash(B, JNum(b.index), JStr(b.timestamp), b.prevHash, JStr(b.data), JNum(b.nonce))
    requires StartsWith(b.hash, prefix)
    ensures ChainOutcome(B, prefix, g + [BlockLine(b)]) == Success((true, n + 1))
  {
    var st := ChainWalk(B, prefix, g, ChainStart);
    ChainWalkSnoc(B, prefix, g, BlockLine(b));
    StepOnSelfConsistentBlock(B, prefix, st, b);
    assert ChainWalk(B, prefix, g + [BlockLine(b)], ChainStart) == Scanning(b.hash, n + 1);
  }

  /** A block whose stored hash matches its content but misses the target is
      rejected where it stands, even though it is self-consistent. */
  lemma UnderTargetBlockRejected(B: Builtins, prefix: string, before: seq<Line>, b: Block, after: seq<Line>)
    requires ChainWalk(B, prefix, before, ChainStart).Scanning?
    requires b.index != 0 && b.prevHash == JStr(ChainWalk(B, prefix, before, ChainStart).prevHash)
    requires b.hash == BlockHash(B, JNum(b.index), JStr(b.timestamp), b.prevHash, JStr(b.data), JNum(b.nonce))
    requires !StartsWith(b.hash, prefix)
    ensures ChainOutcome(B, prefix, before + [BlockLine(b)] + after) ==
            Success((false, ChainWalk(B, prefix, before, ChainStart).count))
  {
    var mid := before + [BlockLine(b)];
    ChainWalkSnoc(B, prefix, before, BlockLine(b));
    StepOnSelfConsistentBlock(B, prefix, ChainWalk(B, prefix, before, ChainStart), b);
    ChainWalkAppend(B, prefix, mid, after, ChainStart);
    ChainWalkHalted(B, prefix, after, ChainWalk(B, prefix, mid, ChainStart));
  }

  /** A line that does not parse stops the chain check with `(False, cnt)`,
      `cnt` counting the blocks before it. */
  lemma MalformedBlockLineRejected(B: Builtins, prefix: string, before: seq<Line>, after: seq<Line>)
    requires ChainWalk(B, prefix, before, ChainStart).Scanning?
    ensures ChainOutcome(B, prefix, before + [Malformed] + after) ==
            Success((false, ChainWalk(B, prefix, before, ChainStart).count))
  {
    var mid := before + [Malformed];
    ChainWalkSnoc(B, prefix, before, Malformed);
    ChainWalkAppend(B, prefix, mid, after, ChainStart);
    ChainWalkHalted(B, prefix, after, ChainWalk(B, prefix, mid, ChainStart));
  }

  /** A block whose stored `hash` differs from the hash of its fields stops
      the chain check with `(False, cnt)`, whatever follows. */
  lemma HashMismatchRejected(B: Builtins, prefix: string, before: seq<Line>, v: Json, after: seq<Line>)
    requires ChainWalk(B, prefix, before, ChainStart).Scanning?
    requires HasHashedFields(v) && Lookup(v.fields, "hash") != Some(JStr(RecomputedHash(B, v)))
    ensures ChainOutcome(B, prefix, before + [Parsed(v)] + after) ==
            Success((false, ChainWalk(B, prefix, before, ChainStart).count))
  {
    var mid := before + [Parsed(v)];
    ChainWalkSnoc(B, prefix, before, Parsed(v));
    ChainWalkAppend(B, prefix, mid, after, ChainStart);
    ChainWalkHalted(B, prefix, after, ChainWalk(B, prefix, mid, ChainStart));
  }

  // ---------------------------------------------------------------------------
  // The chain invariant, stated independently of the loop

  /** The blocks of a chain file, when every non-blank line parses. */
  function BlocksOf(lines: seq<Line>): Option<seq<Json>>
    decreases |lines|
  {
    if lines == [] then Some([])
    else
      var init := BlocksOf(lines[..|lines| - 1]);
      match lines[|lines| - 1]
      case Blank => init
      case Malformed => None
      case Parsed(v) => if init.Some? then Some(init.value + [v]) else None
  }

  /** A block holding the five fields its hash is computed from. */
  predicate HasHashedFields(v: Json) {
    v.JObj? && "index" in v.fields && "timestamp" in v.fields && "prev_hash" in v.fields &&
    "data" in v.fields && "nonce" in v.fields
  }

  /** The hash `verify_chain` recomputes from a block's fields. */
  function RecomputedHash(B: Builtins, v: Json): string
    requires HasHashedFields(v)
  {
    BlockHash(B, v.fields["index"], v.fields["timestamp"], v.fields["prev_hash"], v.fields["data"], v.fields["nonce"])
  }

  /** The `hash` a block stores (`null` when it has none). */
  function StoredHash(v: Json): Json {
    if v.JObj? && "hash" in v.fields then v.fields["hash"] else JNull
  }

  /** A block is accepted after the block whose hash is `prev`: its stored
      `hash` is the recomputed one, and an index-0 block links to the
      sentinel while any other links to `prev` and meets the target. */
  predicate BlockPasses(B: Builtins, prefix: string, v: Json, prev: Json) {
    && HasHashedFields(v)
    && Lookup(v.fields, "hash") == Some(JStr(RecomputedHash(B, v)))
    && if EqualsZero(v.fields["index"]) then v.fields["prev_hash"] == JStr(GENESIS)
       else v.fields["prev_hash"] == prev && StartsWith(RecomputedHash(B, v), prefix)
  }

  /** The hash block `k` must link to: the sentinel for the first block, the
      stored hash of the one before otherwise. */
  function LinkTarget(blocks: seq<Json>, k: nat): Json
    requires k < |blocks|
  {
    if k == 0 then JStr(GENESIS) else StoredHash(blocks[k - 1])
  }

  /** The hash the next block must link to. */
  function NextLinkTarget(blocks: seq<Json>): Json {
    if blocks == [] then JStr(GENESIS) else StoredHash(blocks[|blocks| - 1])
  }

  /** Every block is accepted after the one before it: every hash is
      recomputable and every non-genesis block meets the target. */
  ghost predicate PowChained(B: Builtins, prefix: string, blocks: seq<Json>) {
    forall k :: 0 <= k < |blocks| ==> BlockPasses(B, prefix, blocks[k], LinkTarget(blocks, k))
  }

  /** Extending a chain by one block. */
  lemma PowChainedSnoc(B: Builtins, prefix: string, bs: seq<Json>, v: Json)
    ensures PowChained(B, prefix, bs + [v]) <==>
      PowChained(B, prefix, bs) && BlockPasses(B, prefix, v, NextLinkTarget(bs))
  {
    LinkedSnoc((x, p) => BlockPasses(B, prefix, x, p), bs, v);
  }

  /** Every block passes `ok` against its link target, for one block more. */
  lemma LinkedSnoc(ok: (Json, Json) -> bool, bs: seq<Json>, v: Json)
    ensures (forall k :: 0 <= k < |bs + [v]| ==> ok((bs + [v])[k], LinkTarget(bs + [v], k))) <==>
      (forall k :: 0 <= k < |bs| ==> ok(bs[k], LinkTarget(bs, k))) && ok(v, NextLinkTarget(bs))
  {
    var all := bs + [v];
    assert all[|bs|] == v && LinkTarget(all, |bs|) == NextLinkTarget(bs);
    assert forall k :: 0 <= k < |bs| ==> all[k] == bs[k] && LinkTarget(all, k) == LinkTarget(bs, k);
  }

  /** One step of the walk on a line that parses: it keeps scanning exactly
      when the block is accepted after the expected hash, and then moves on to
      the block's hash. */
  lemma StepOnParsedLine(B: Builtins, prefix: string, prevHash: string, cnt: nat, v: Json)
    ensures ChainStep(B, prefix, Scanning(prevHash, cnt), Parsed(v)).Scanning? <==>
            BlockPasses(B, prefix, v, JStr(prevHash))
    ensures BlockPasses(B, prefix, v, JStr(prevHash)) ==>
      ChainStep(B, prefix, Scanning(prevHash, cnt), Parsed(v)) == Scanning(RecomputedHash(B, v), cnt + 1) &&
      StoredHash(v) == JStr(RecomputedHash(B, v))
  {
    if HasHashedFields(v) {
      assert BlockFields(v).value.2 == v.fields["prev_hash"];
    }
  }

  /** The check is still scanning exactly on a file whose non-blank lines
      parse to a proof-of-work chain; it has then counted the blocks and
      expects the last one's hash. */
  lemma {:induction false} ChainWalkMatchesPowChain(B: Builtins, prefix: string, lines: seq<Line>)
    ensures ChainWalk(B, prefix, lines, ChainStart).Scanning? <==>
            BlocksOf(lines).Some? && PowChained(B, prefix, BlocksOf(lines).value)
    ensures ChainWalk(B, prefix, lines, ChainStart).Scanning? ==>
      ChainWalk(B, prefix, lines, ChainStart).count == |BlocksOf(lines).value| &&
      JStr(ChainWalk(B, prefix, lines, ChainStart).prevHash) == NextLinkTarget(BlocksOf(lines).value)
    decreases |lines|
  {
    if lines != [] {
      var init := lines[..|lines| - 1];
      var x := lines[|lines| - 1];
      ChainWalkMatchesPowChain(B, prefix, init);
      var st := ChainWalk(B, prefix, init, ChainStart);
      if x.Parsed? && BlocksOf(init).Some? {
        var bs := BlocksOf(init).value;
        PowChainedSnoc(B, prefix, bs, x.value);
        assert BlocksOf(lines) == Some(bs + [x.value]);
        if st.Scanning? {
          StepOnParsedLine(B, prefix, st.prevHash, st.count, x.value);
        }
      }
    }
  }

  /** `verify_chain` answers `(True, n)` exactly when every non-blank line
      parses and the `n` blocks form a proof-of-work chain. */
  lemma ChainVerifiedIffPowChained(B: Builtins, prefix: string, lines: seq<Line>)
    ensures (ChainOutcome(B, prefix, lines).Success? && ChainOutcome(B, prefix, lines).value.0) <==>
            (BlocksOf(lines).Some? && PowChained(B, prefix, BlocksOf(lines).value))
    ensures ChainOutcome(B, prefix, lines).Success? && ChainOutcome(B, prefix, lines).value.0 ==>
            ChainOutcome(B, prefix, lines).value.1 == |BlocksOf(lines).value|
  {
    ChainWalkMatchesPowChain(B, prefix, lines);
  }

  /** On a chain that verifies, every block stores the hash of its fields and
      every block other than a genesis block has at least
      `max(1, difficulty)` leading zeros. */
  lemma VerifiedChainMeetsDifficulty(B: Builtins, difficulty: int, lines: seq<Line>, n: nat)
    requires ChainOutcome(B, TargetPrefix(difficulty), lines) == Success((true, n))
    ensures BlocksOf(lines).Some? && |BlocksOf(lines).value| == n
    ensures forall v :: v in BlocksOf(lines).value ==>
      HasHashedFields(v) && Lookup(v.fields, "hash") == Some(JStr(RecomputedHash(B, v))) &&
      (!EqualsZero(v.fields["index"]) ==> LeadingZeros(RecomputedHash(B, v)) >= if difficulty < 1 then 1 else difficulty)
  {
    var prefix := TargetPrefix(difficulty);
    ChainVerifiedIffPowChained(B, prefix, lines);
    var bs := BlocksOf(lines).value;
    forall v | v in bs
      ensures HasHashedFields(v) && Lookup(v.fields, "hash") == Some(JStr(RecomputedHash(B, v))) &&
        (!EqualsZero(v.fields["index"]) ==> LeadingZeros(RecomputedHash(B, v)) >= if difficulty < 1 then 1 else difficulty)
    {
      var k :| 0 <= k < |bs| && bs[k] == v;
      assert BlockPasses(B, prefix, bs[k], LinkTarget(bs, k));
      MeetsTargetIffLeadingZeros(RecomputedHash(B, v), difficulty);
    }
  }

  // ---------------------------------------------------------------------------
  // find_by_data

  /** The first block, from the start, whose `data` equals the argument;
      blank and malformed lines are skipped, but a line that parses to
      something other than an object makes `b.get` raise. */
  function FirstWithData(lines: seq<Line>, data: string): Result<Option<Json>, Exc>
    decreases |lines|
  {
    if lines == [] then Success(None)
    else
      match lines[0]
      case Parsed(b) =>
        if !b.JObj? then Failure(AttributeError)
        else if Lookup(b.fields, "data") == Some(JStr(data)) then Success(Some(b))
        else FirstWithData(lines[1..], data)
      case _ => FirstWithData(lines[1..], data)
  }

  /** A line whose block does not match, or that is blank or malformed. */
  predicate Passes(line: Line, data: string) {
    line.Parsed? ==> line.value.JObj? && Lookup(line.value.fields, "data") != Some(JStr(data))
  }

  /** The first matching block is found ... */
  lemma {:induction false} FirstWithDataAt(lines: seq<Line>, data: string, i: nat)
    requires i < |lines| && lines[i].Parsed? && lines[i].value.JObj?
    requires Lookup(lines[i].value.fields, "data") == Some(JStr(data))
    requires forall j :: 0 <= j < i ==> Passes(lines[j], data)
    ensures FirstWithData(lines, data) == Success(Some(lines[i].value))
    decreases i
  {
    if i > 0 {
      FirstWithDataAt(lines[1..], data, i - 1);
    }
  }

  /** ... and there is none exactly when every line passes. */
  lemma {:induction false} FirstWithDataNone(lines: seq<Line>, data: string)
    ensures FirstWithData(lines, data) == Success(None) <==> forall j :: 0 <= j < |lines| ==> Passes(lines[j], data)
    decreases |lines|
  {
    if lines != [] {
      FirstWithDataNone(lines[1..], data);
      assert forall j :: 1 <= j < |lines| ==> lines[j] == lines[1..][j - 1];
    }
  }

  /** A block appended to a chain where no block carries its data is the one
      a later lookup of that data finds. */
  lemma AppendedBlockIsFound(lines: seq<Line>, b: Block)
    requires FirstWithData(lines, b.data) == Success(None)
    ensures FirstWithData(lines + [BlockLine(b)], b.data) == Success(Some(JObj(BlockJson(b))))
  {
    FirstWithDataNone(lines, b.data);
    var out := lines + [BlockLine(b)];
    assert forall j :: 0 <= j < |lines| ==> out[j] == lines[j];
    FirstWithDataAt(out, b.data, |lines|);
  }

  /** `find_by_data`: `ensure_genesis()`, then scan from the start. */
  method FindByData(B: Builtins, chain: File, data: string, now: string) returns (r: Result<Option<Json>, Exc>)
    modifies chain
    ensures chain.lines == Repaired(B, old(chain.lines), now)
    ensures r == FirstWithData(chain.lines, data)
  {
    var _ := EnsureGenesis(B, chain, now);
    var lines := chain.lines;
    var i := 0;
    while i < |lines|
      invariant 0 <= i <= |lines|
      invariant FirstWithData(lines, data) == FirstWithData(lines[i..], data)
    {
      assert lines[i..][1..] == lines[i + 1..];
      var line := lines[i];
      if line.Parsed? {
        var b := line.value;
        if !b.JObj? {
          return Failure(AttributeError);
        }
        if Lookup(b.fields, "data") == Some(JStr(data)) {
          return Success(Some(b));
        }
      }
      i := i + 1;
    }
    return Success(None);
  }
}
