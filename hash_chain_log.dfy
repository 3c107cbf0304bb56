/** The hash-chained JSON-lines ledger. The evidence ledger
    (app/services/ledger_service.py) and the events ledger
    (app/services/events_ledger_service.py) carry identical copies of
    `_compute_record_hash`, `_read_last_record` and the verification loop;
    they are modelled once here, and each service's `append` is modelled in
    its own module on top of `NextLink` and `Seal`. */
module HashChainLog {
  import opened Wrappers
  import opened PyRuntime

  /** The sentinel `prev_hash` of the first record. */
  const GENESIS: string := "GENESIS"
  const RECORD_HASH: string := "record_hash"
  const PREV_HASH: string := "prev_hash"
  const INDEX: string := "index"

  /** `_compute_record_hash`: SHA-256 of the sorted-key, compact JSON of a
      record without its `record_hash`. */
  function RecordHash(B: Builtins, base: map<string, Json>): string {
    B.sha256Hex(B.canonicalJson(JObj(base)))
  }

  /** A record whose stored `record_hash` is the hash of the rest of it. */
  predicate Sealed(B: Builtins, rec: map<string, Json>) {
    Lookup(rec, RECORD_HASH) == Some(JStr(RecordHash(B, rec - {RECORD_HASH})))
  }

  /** `{**base, "record_hash": _compute_record_hash(base)}`. */
  function Seal(B: Builtins, base: map<string, Json>): (rec: map<string, Json>)
    requires RECORD_HASH !in base
    ensures rec.Keys == base.Keys + {RECORD_HASH}
    ensures rec - {RECORD_HASH} == base
    ensures Sealed(B, rec)
  {
    base[RECORD_HASH := JStr(RecordHash(B, base))]
  }

  /** Hashes collide only on equal records: an assumption about SHA-256 and
      canonical JSON, used only where a lemma says so. */
  ghost predicate CollisionFree(B: Builtins) {
    forall m1: map<string, Json>, m2: map<string, Json> :: RecordHash(B, m1) == RecordHash(B, m2) ==> m1 == m2
  }

  // ---------------------------------------------------------------------------
  // _read_last_record

  /** The value of the last line that parses. */
  function LastParsed(lines: seq<Line>): Option<Json>
    decreases |lines|
  {
    if lines == [] then None
    else if lines[|lines| - 1].Parsed? then Some(lines[|lines| - 1].value)
    else LastParsed(lines[..|lines| - 1])
  }

  /** The last parseable line is the one `LastParsed` returns ... */
  lemma {:induction false} LastParsedAt(lines: seq<Line>, i: nat)
    requires i < |lines| && lines[i].Parsed?
    requires forall j :: i < j < |lines| ==> !lines[j].Parsed?
    ensures LastParsed(lines) == Some(lines[i].value)
    decreases |lines|
  {
    if i < |lines| - 1 {
      var init := lines[..|lines| - 1];
      LastParsedAt(init, i);
    }
  }

  /** ... and there is none exactly when no line parses. */
  lemma {:induction false} LastParsedNone(lines: seq<Line>)
    ensures LastParsed(lines).None? <==> forall i :: 0 <= i < |lines| ==> !lines[i].Parsed?
    decreases |lines|
  {
    if lines != [] {
      var init := lines[..|lines| - 1];
      LastParsedNone(init);
      assert forall i :: 0 <= i < |init| ==> init[i] == lines[i];
    }
  }

  /** `_read_last_record`: scan the lines from the end, skipping blank and
      malformed ones, and return the first that parses. */
  method ReadLastRecord(f: File) returns (last: Option<Json>)
    ensures last == LastParsed(f.lines)
  {
    var lines := f.lines;
    var i := |lines|;
    assert lines[..i] == lines;
    while i > 0
      invariant 0 <= i <= |lines|
      invariant LastParsed(lines) == LastParsed(lines[..i])
    {
      assert lines[..i][..i - 1] == lines[..i - 1];
      if lines[i - 1].Parsed? {
        return Some(lines[i - 1].value);
      }
      i := i - 1;
    }
    return None;
  }

  // ---------------------------------------------------------------------------
  // Linking a new record to its predecessor

  /** Where a new record attaches: its `prev_hash` and its `index`. */
  datatype Link = Link(prev: Json, index: int)

  /** `if last: prev = last["record_hash"]; index = int(last["index"]) + 1`
      `else: prev = "GENESIS"; index = 0`. A falsy last record (`{}`,
      `null`, `0`, ...) counts as none; a truthy one without the two keys, or
      whose index `int()` rejects, makes the append raise. */
  function NextLink(B: Builtins, last: Option<Json>): (r: Result<Link, Exc>)
    ensures last.None? || !Truthy(last.value) ==> r == Success(Link(JStr(GENESIS), 0))
    ensures last.Some? && Truthy(last.value) && r.Success? ==>
      Subscript(last.value, RECORD_HASH) == Success(r.value.prev) &&
      Subscript(last.value, INDEX).Success? &&
      IntOf(B, Subscript(last.value, INDEX).value) == Success(r.value.index - 1)
    ensures last.Some? && Truthy(last.value) && r.Failure? ==>
      Subscript(last.value, RECORD_HASH).Failure? || Subscript(last.value, INDEX).Failure? ||
      IntOf(B, Subscript(last.value, INDEX).value).Failure?
  {
    if last.None? || !Truthy(last.value) then Success(Link(JStr(GENESIS), 0))
    else
      match Subscript(last.value, RECORD_HASH)
      case Failure(e) => Failure(e)
      case Success(prev) =>
        match Subscript(last.value, INDEX)
        case Failure(e) => Failure(e)
        case Success(ix) =>
          match IntOf(B, ix)
          case Failure(e) => Failure(e)
          case Success(n) => Success(Link(prev, n + 1))
  }

  // ---------------------------------------------------------------------------
  // verify_ledger / verify_events_ledger

  /** The state of the verification loop: still running with the expected
      `prev` and the records verified so far, stopped with `(False, count)`,
      or escaped through an exception. */
  datatype Scan = Running(prev: string, count: nat) | Broken(count: nat) | Raised(error: Exc)

  const Start: Scan := Running(GENESIS, 0)

  /** One iteration of the loop over the lines. */
  function Step(B: Builtins, st: Scan, line: Line): Scan {
    if !st.Running? then st
    else
      match line
      case Blank => st
      case Malformed => Broken(st.count)
      case Parsed(v) =>
        if !v.JObj? then Raised(AttributeError)   // rec.get on a parsed non-object
        else
          var base := v.fields - {RECORD_HASH};
          if Lookup(base, PREV_HASH) != Some(JStr(st.prev)) then Broken(st.count)
          else if Lookup(v.fields, RECORD_HASH) != Some(JStr(RecordHash(B, base))) then Broken(st.count)
          else Running(RecordHash(B, base), st.count + 1)
  }

  /** The loop over all lines, from `st`. */
  function Walk(B: Builtins, lines: seq<Line>, st: Scan): Scan
    decreases |lines|
  {
    if lines == [] then st else Step(B, Walk(B, lines[..|lines| - 1], st), lines[|lines| - 1])
  }

  function Verdict(st: Scan): Result<(bool, nat), Exc> {
    match st
    case Running(_, n) => Success((true, n))
    case Broken(n) => Success((false, n))
    case Raised(e) => Failure(e)
  }

  /** What the verification of a ledger returns (or raises). */
  function VerifyOutcome(B: Builtins, lines: seq<Line>): Result<(bool, nat), Exc> {
    Verdict(Walk(B, lines, Start))
  }

  lemma {:induction false} WalkHalted(B: Builtins, lines: seq<Line>, st: Scan)
    requires !st.Running?
    ensures Walk(B, lines, st) == st
    decreases |lines|
  {
    if lines != [] {
      WalkHalted(B, lines[..|lines| - 1], st);
    }
  }

  /** Walking a concatenation is walking the second part from where the first ended. */
  lemma {:induction false} WalkAppend(B: Builtins, a: seq<Line>, b: seq<Line>, st: Scan)
    ensures Walk(B, a + b, st) == Walk(B, b, Walk(B, a, st))
    decreases |b|
  {
    if b == [] {
      assert a + b == a;
    } else {
      var b' := b[..|b| - 1];
      assert (a + b)[..|a + b| - 1] == a + b';
      WalkAppend(B, a, b', st);
    }
  }

  /** Once the walk stops at line `i`, the later lines do not matter. */
  lemma HaltsAt(B: Builtins, lines: seq<Line>, i: nat)
    requires i < |lines|
    requires !Walk(B, lines[..i + 1], Start).Running?
    ensures Walk(B, lines, Start) == Walk(B, lines[..i + 1], Start)
  {
    var front, back := lines[..i + 1], lines[i + 1..];
    assert lines == front + back;
    WalkAppend(B, front, back, Start);
    WalkHalted(B, back, Walk(B, front, Start));
  }

  /** A walk that is still running was running on every prefix. */
  lemma RunningPrefix(B: Builtins, lines: seq<Line>, i: nat)
    requires i <= |lines|
    requires Walk(B, lines, Start).Running?
    ensures Walk(B, lines[..i], Start).Running?
  {
    assert lines == lines[..i] + lines[i..];
    WalkAppend(B, lines[..i], lines[i..], Start);
    if !Walk(B, lines[..i], Start).Running? {
      WalkHalted(B, lines[i..], Walk(B, lines[..i], Start));
    }
  }

  /** `verify_ledger` / `verify_events_ledger`: `(True, 0)` for a missing or
      empty file; otherwise skip blank lines, stop with `(False, count)` at
      the first malformed line, broken `prev_hash` link or hash mismatch,
      and return `(True, count)` at the end. */
  method VerifyLedger(B: Builtins, f: File) returns (r: Result<(bool, nat), Exc>)
    ensures r == VerifyOutcome(B, f.lines)
    ensures f.lines == [] ==> r == Success((true, 0))
  {
    var lines := f.lines;
    if |lines| == 0 {
      return Success((true, 0));
    }
    var prev := GENESIS;
    var count: nat := 0;
    var i := 0;
    while i < |lines|
      invariant 0 <= i <= |lines|
      invariant Walk(B, lines[..i], Start) == Running(prev, count)
    {
      assert lines[..i + 1][..i] == lines[..i];
      var line := lines[i];
      if line.Malformed? {
        HaltsAt(B, lines, i);
        return Success((false, count));
      } else if line.Parsed? {
        var rec := line.value;
        if !rec.JObj? {
          HaltsAt(B, lines, i);
          return Failure(AttributeError);
        }
        var recordHash := Lookup(rec.fields, RECORD_HASH);
        var base := rec.fields - {RECORD_HASH};
        if Lookup(base, PREV_HASH) != Some(JStr(prev)) {
          HaltsAt(B, lines, i);
          return Success((false, count));
        }
        if recordHash != Some(JStr(RecordHash(B, base))) {
          HaltsAt(B, lines, i);
          return Success((false, count));
        }
        prev := RecordHash(B, base);
        count := count + 1;
      }
      i := i + 1;
    }
    assert lines[..i] == lines;
    return Success((true, count));
  }

  // ---------------------------------------------------------------------------
  // The chain invariant, stated independently of the loop

  /** The records of a ledger, when every non-blank line is a JSON object. */
  function RecordsOf(lines: seq<Line>): Option<seq<map<string, Json>>>
    decreases |lines|
  {
    if lines == [] then Some([])
    else
      var init := RecordsOf(lines[..|lines| - 1]);
      match lines[|lines| - 1]
      case Blank => init
      case Malformed => None
      case Parsed(v) => if v.JObj? && init.Some? then Some(init.value + [v.fields]) else None
  }

  /** Every record is sealed, the first links to the sentinel and every other
      one to its predecessor's `record_hash`. */
  ghost predicate Chained(B: Builtins, recs: seq<map<string, Json>>) {
    && (forall k :: 0 <= k < |recs| ==> Sealed(B, recs[k]))
    && (|recs| > 0 ==> Lookup(recs[0], PREV_HASH) == Some(JStr(GENESIS)))
    && (forall k :: 0 < k < |recs| ==> Lookup(recs[k], PREV_HASH) == Lookup(recs[k - 1], RECORD_HASH))
  }

  lemma PrevHashSurvivesSealRemoval(m: map<string, Json>)
    ensures Lookup(m - {RECORD_HASH}, PREV_HASH) == Lookup(m, PREV_HASH)
  {
    assert PREV_HASH != RECORD_HASH by { assert PREV_HASH[0] != RECORD_HASH[0]; }
  }

  /** The hash a walk over `recs` expects next. */
  function ExpectedPrev(B: Builtins, recs: seq<map<string, Json>>): string {
    if recs == [] then GENESIS else RecordHash(B, recs[|recs| - 1] - {RECORD_HASH})
  }

  /** Extending a chain by one record. */
  lemma ChainedSnoc(B: Builtins, ri: seq<map<string, Json>>, m: map<string, Json>)
    ensures Chained(B, ri + [m]) <==>
      Chained(B, ri) && Sealed(B, m) && Lookup(m, PREV_HASH) == Some(JStr(ExpectedPrev(B, ri)))
  {
    var rs := ri + [m];
    assert forall k :: 0 <= k < |ri| ==> rs[k] == ri[k];
    assert rs[|ri|] == m;
    if ri != [] {
      assert Chained(B, ri) ==> Sealed(B, ri[|ri| - 1]);
      assert Chained(B, rs) ==> Lookup(rs[|ri|], PREV_HASH) == Lookup(rs[|ri| - 1], RECORD_HASH);
    }
  }

  /** The verification loop is still running exactly on a ledger whose
      records form a chain, and then it has counted them. */
  lemma {:induction false} WalkMatchesChain(B: Builtins, lines: seq<Line>)
    ensures Walk(B, lines, Start).Running? <==> RecordsOf(lines).Some? && Chained(B, RecordsOf(lines).value)
    ensures Walk(B, lines, Start).Running? ==>
      Walk(B, lines, Start) == Running(ExpectedPrev(B, RecordsOf(lines).value), |RecordsOf(lines).value|)
    decreases |lines|
  {
    if lines != [] {
      var init := lines[..|lines| - 1];
      var x := lines[|lines| - 1];
      WalkMatchesChain(B, init);
      if x.Parsed? && x.value.JObj? && RecordsOf(init).Some? {
        var m := x.value.fields;
        ChainedSnoc(B, RecordsOf(init).value, m);
        PrevHashSurvivesSealRemoval(m);
        assert RecordsOf(lines) == Some(RecordsOf(init).value + [m]);
      }
    }
  }

  /** A ledger verifies as `(True, n)` exactly when its non-blank lines are
      `n` records forming a chain. */
  lemma VerifiedIffChained(B: Builtins, lines: seq<Line>)
    ensures (VerifyOutcome(B, lines).Success? && VerifyOutcome(B, lines).value.0) <==>
            (RecordsOf(lines).Some? && Chained(B, RecordsOf(lines).value))
    ensures VerifyOutcome(B, lines).Success? && VerifyOutcome(B, lines).value.0 ==>
            VerifyOutcome(B, lines).value.1 == |RecordsOf(lines).value|
  {
    WalkMatchesChain(B, lines);
  }

  /** A blank line anywhere changes nothing. */
  lemma BlankLinesIgnored(B: Builtins, a: seq<Line>, b: seq<Line>)
    ensures VerifyOutcome(B, a + [Blank] + b) == VerifyOutcome(B, a + b)
  {
    WalkAppend(B, a + [Blank], b, Start);
    WalkAppend(B, a, b, Start);
    assert (a + [Blank])[..|a + [Blank]| - 1] == a;
  }

  /** A line that does not parse stops verification with `(False, n)`,
      `n` counting the records before it; nothing after it is read. */
  lemma MalformedLineStops(B: Builtins, before: seq<Line>, after: seq<Line>, n: nat)
    requires VerifyOutcome(B, before) == Success((true, n))
    ensures VerifyOutcome(B, before + [Malformed] + after) == Success((false, n))
  {
    var mid := before + [Malformed];
    assert mid[..|mid| - 1] == before;
    WalkAppend(B, mid, after, Start);
    WalkHalted(B, after, Walk(B, mid, Start));
  }

  /** `(False, n)` means: the lines before some line `i` verify as
      `(True, n)` and line `i` breaks the chain. */
  lemma {:induction false} FailureCountsVerifiedPrefix(B: Builtins, lines: seq<Line>, n: nat)
    requires VerifyOutcome(B, lines) == Success((false, n))
    ensures exists i :: (0 <= i < |lines| &&
      VerifyOutcome(B, lines[..i]) == Success((true, n)) &&
      VerifyOutcome(B, lines[..i + 1]) == Success((false, n)))
    decreases |lines|
  {
    var init := lines[..|lines| - 1];
    assert lines[..|lines|] == lines;
    if Walk(B, init, Start).Running? {
      assert VerifyOutcome(B, lines[..|init|]) == Success((true, n));
    } else {
      assert Walk(B, init, Start) == Broken(n);
      FailureCountsVerifiedPrefix(B, init, n);
      var i :| 0 <= i < |init| && VerifyOutcome(B, init[..i]) == Success((true, n)) &&
        VerifyOutcome(B, init[..i + 1]) == Success((false, n));
      assert init[..i] == lines[..i] && init[..i + 1] == lines[..i + 1];
    }
  }

  // ---------------------------------------------------------------------------
  // Appending keeps a verified ledger verified

  /** While the walk runs, its expected `prev` is the `record_hash` of the
      last parseable line, or the sentinel when no line parses. */
  lemma {:induction false} RunningTracksLast(B: Builtins, lines: seq<Line>)
    requires Walk(B, lines, Start).Running?
    ensures Walk(B, lines, Start).count == 0 ==>
      LastParsed(lines) == None && Walk(B, lines, Start).prev == GENESIS
    ensures Walk(B, lines, Start).count > 0 ==>
      LastParsed(lines).Some? && LastParsed(lines).value.JObj? &&
      Lookup(LastParsed(lines).value.fields, RECORD_HASH) == Some(JStr(Walk(B, lines, Start).prev))
    decreases |lines|
  {
    if lines != [] {
      var init := lines[..|lines| - 1];
      RunningTracksLast(B, init);
    }
  }

  /** Appending the sealed record an append builds to a ledger verifying as
      `(True, n)` gives one verifying as `(True, n + 1)`. */
  lemma AppendKeepsVerified(B: Builtins, lines: seq<Line>, n: nat, base: map<string, Json>)
    requires VerifyOutcome(B, lines) == Success((true, n))
    requires RECORD_HASH !in base
    requires NextLink(B, LastParsed(lines)).Success?
    requires Lookup(base, PREV_HASH) == Some(NextLink(B, LastParsed(lines)).value.prev)
    ensures VerifyOutcome(B, lines + [Parsed(JObj(Seal(B, base)))]) == Success((true, n + 1))
  {
    var st := Walk(B, lines, Start);
    RunningTracksLast(B, lines);
    var rec := Seal(B, base);
    assert (lines + [Parsed(JObj(rec))])[..|lines|] == lines;
    assert Lookup(rec - {RECORD_HASH}, PREV_HASH) == Some(JStr(st.prev));
  }

  // ---------------------------------------------------------------------------
  // Tampering with a verified ledger is detected at the tampered record

  /** The number of lines that parse. */
  function ParsedCount(lines: seq<Line>): nat
    decreases |lines|
  {
    if lines == [] then 0
    else ParsedCount(lines[..|lines| - 1]) + (if lines[|lines| - 1].Parsed? then 1 else 0)
  }

  lemma {:induction false} RunningCountsParsed(B: Builtins, lines: seq<Line>)
    requires Walk(B, lines, Start).Running?
    ensures Walk(B, lines, Start).count == ParsedCount(lines)
    decreases |lines|
  {
    if lines != [] {
      var init := lines[..|lines| - 1];
      RunningCountsParsed(B, init);
    }
  }

  /** Changing one record of a verified ledger, either only its
      `record_hash`, or (hashes assumed collision-free) any other field while
      keeping the stored `record_hash`, makes verification return
      `(False, k)` with `k` the number of records before it. */
  lemma TamperingIsDetected(B: Builtins, lines: seq<Line>, i: nat,
                            original: map<string, Json>, forged: map<string, Json>)
    requires VerifyOutcome(B, lines).Success? && VerifyOutcome(B, lines).value.0
    requires i < |lines| && lines[i] == Parsed(JObj(original))
    requires (forged - {RECORD_HASH} == original - {RECORD_HASH} &&
              Lookup(forged, RECORD_HASH) != Lookup(original, RECORD_HASH)) ||
             (CollisionFree(B) && forged - {RECORD_HASH} != original - {RECORD_HASH} &&
              Lookup(forged, RECORD_HASH) == Lookup(original, RECORD_HASH))
    ensures VerifyOutcome(B, lines[i := Parsed(JObj(forged))]) == Success((false, ParsedCount(lines[..i])))
  {
    var tampered := lines[i := Parsed(JObj(forged))];
    RunningPrefix(B, lines, i + 1);
    RunningPrefix(B, lines, i);
    assert lines[..i + 1][..i] == lines[..i];
    var st := Walk(B, lines[..i], Start);
    RunningCountsParsed(B, lines[..i]);
    assert tampered[..i] == lines[..i];
    assert tampered[..i + 1][..i] == lines[..i];
    assert tampered[..i + 1][i] == Parsed(JObj(forged));
    var ob := original - {RECORD_HASH};
    var fb := forged - {RECORD_HASH};
    assert Lookup(original, RECORD_HASH) == Some(JStr(RecordHash(B, ob)));
    if fb != ob {
      assert RecordHash(B, fb) != RecordHash(B, ob);
    }
    assert Walk(B, tampered[..i + 1], Start) == Broken(st.count);
    HaltsAt(B, tampered, i);
  }

  // ---------------------------------------------------------------------------
  // Record indexes follow positions

  /** Every line that parses is a record whose `index` is the number of
      records before it (and which has a `record_hash`). Verification does
      not check this; appending keeps it. */
  ghost predicate Numbered(lines: seq<Line>) {
    forall i :: 0 <= i < |lines| && lines[i].Parsed? ==>
      lines[i].value.JObj? && RECORD_HASH in lines[i].value.fields &&
      Lookup(lines[i].value.fields, INDEX) == Some(JNum(ParsedCount(lines[..i])))
  }

  /** On a numbered ledger the next record gets the number of records so far
      as its index. */
  lemma {:induction false} NumberedNextIndex(B: Builtins, lines: seq<Line>)
    requires Numbered(lines)
    ensures NextLink(B, LastParsed(lines)).Success?
    ensures NextLink(B, LastParsed(lines)).value.index == ParsedCount(lines)
    decreases |lines|
  {
    if lines != [] {
      var init := lines[..|lines| - 1];
      var last := lines[|lines| - 1];
      assert forall i :: 0 <= i < |init| ==> init[i] == lines[i] && init[..i] == lines[..i];
      if last.Parsed? {
        assert lines[..|lines| - 1] == init;
        assert INDEX in last.value.fields;
      } else {
        assert Numbered(init);
        NumberedNextIndex(B, init);
      }
    }
  }

  /** Appending a sealed record whose index is the number of records so far
      keeps a ledger numbered. */
  lemma AppendKeepsNumbered(B: Builtins, lines: seq<Line>, base: map<string, Json>)
    requires Numbered(lines)
    requires RECORD_HASH !in base
    requires Lookup(base, INDEX) == Some(JNum(ParsedCount(lines)))
    ensures Numbered(lines + [Parsed(JObj(Seal(B, base)))])
  {
    var out := lines + [Parsed(JObj(Seal(B, base)))];
    assert out[..|lines|] == lines;
    assert forall i :: 0 <= i < |lines| ==> out[i] == lines[i] && out[..i] == lines[..i];
  }
}
