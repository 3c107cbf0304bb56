/** The event fingerprint of the events ledger
    (app/services/events_ledger_service.py, `_to_iso` and
    `fingerprint_event`): the SHA-256 of the canonical JSON of a fixed
    projection of the event document, with the beneficiary ids sorted and the
    timestamp rendered in ISO form. */
module Fingerprint {
  import opened Wrappers
  import opened PyRuntime
  import opened Sorting
  import HashChainLog

  /** An event document, as the database driver hands it over. */
  type Doc = map<string, DocValue>

  /** The document fields the fingerprint reads. */
  const CORE_FIELDS: set<string> :=
    {"_id", "event_id", "donor_id", "ngo_id", "quantity", "unit", "gps", "timestamp", "device_id", "ip", "beneficiary_ids"}

  /** `event_doc.get(k)`. */
  function Get(doc: Doc, k: string): DocValue {
    if k in doc then doc[k] else Plain(JNull)
  }

  /** `a or b`. */
  function Or(a: DocValue, b: DocValue): (r: DocValue)
    ensures r == a || r == b
  {
    if DocTruthy(a) then a else b
  }

  // ---------------------------------------------------------------------------
  // _to_iso

  /** `_to_iso`: None stays None; a naive datetime is read as UTC, an aware
      one keeps its own offset; a date becomes midnight UTC; anything else
      is passed through `str()`. */
  function ToIso(B: Builtins, v: DocValue): (r: Option<string>)
    ensures r.None? <==> v == Plain(JNull)
    ensures v.Plain? && v.json.JStr? ==> r == Some(v.json.s)
    ensures v.ObjectIdValue? ==> r == Some(v.hex)
  {
    match v
    case Plain(JNull) => None
    case DateTimeValue(wall, offset) => Some(B.isoformat(wall, offset.GetOr(0)))
    case DateValue(y, m, d) => Some(B.isoformat(WallClock(y, m, d, 0, 0, 0, 0), 0))
    case _ => Some(DocStr(B, v))
  }

  /** A naive datetime is rendered as the same wall time in UTC, and a date
      as midnight UTC of that day. */
  lemma ToIsoNormalisesToUtc(B: Builtins, wall: WallClock, y: int, m: int, d: int)
    ensures ToIso(B, DateTimeValue(wall, None)) == ToIso(B, DateTimeValue(wall, Some(0)))
    ensures ToIso(B, DateValue(y, m, d)) == ToIso(B, DateTimeValue(WallClock(y, m, d, 0, 0, 0, 0), None))
  {
  }

  // ---------------------------------------------------------------------------
  // Beneficiaries

  /** `[f(x) for x in xs]`. */
  function Images<X, Y>(f: X -> Y, xs: seq<X>): (r: seq<Y>)
    ensures |r| == |xs|
    decreases |xs|
  {
    if xs == [] then [] else [f(xs[0])] + Images(f, xs[1..])
  }

  lemma {:induction false} ImagesAppend<X, Y>(f: X -> Y, a: seq<X>, b: seq<X>)
    ensures Images(f, a + b) == Images(f, a) + Images(f, b)
    decreases |a|
  {
    if a != [] {
      assert (a + b)[1..] == a[1..] + b;
      ImagesAppend(f, a[1..], b);
    } else {
      assert a + b == b;
    }
  }

  /** Taking element `j` out takes its image out. */
  lemma ImagesRemove<X, Y>(f: X -> Y, b: seq<X>, j: nat)
    requires j < |b|
    ensures multiset(Images(f, b)) == multiset(Images(f, b[..j] + b[j + 1..])) + multiset{f(b[j])}
  {
    SplitAt(b, j);
    ImagesSplit(f, b[..j], b[j], b[j + 1..]);
  }

  lemma SplitAt<X>(b: seq<X>, j: nat)
    requires j < |b|
    ensures b == b[..j] + ([b[j]] + b[j + 1..])
  {
  }

  /** Images of a sequence with one element in the middle. */
  lemma ImagesSplit<X, Y>(f: X -> Y, front: seq<X>, x: X, back: seq<X>)
    ensures multiset(Images(f, front + ([x] + back))) == multiset(Images(f, front + back)) + multiset{f(x)}
  {
    ImagesAppend(f, front, [x] + back);
    ImagesAppend(f, [x], back);
    ImagesAppend(f, front, back);
    var p, q := Images(f, front), Images(f, back);
    assert Images(f, front + ([x] + back)) == p + ([f(x)] + q);
    assert multiset(p + ([f(x)] + q)) == multiset(p + q) + multiset{f(x)};
  }

  lemma MultisetRemove<X>(b: seq<X>, j: nat)
    requires j < |b|
    ensures multiset(b) == multiset(b[..j] + b[j + 1..]) + multiset{b[j]}
  {
    SplitAt(b, j);
  }

  /** A position of the head of `a` in a rearrangement `b` of it. */
  lemma IndexOf<X>(b: seq<X>, x: X, a: seq<X>) returns (j: nat)
    requires a != [] && x == a[0] && multiset(a) == multiset(b)
    ensures j < |b| && b[j] == x
  {
    assert x in multiset(a);
    assert x in b;
    j :| 0 <= j < |b| && b[j] == x;
  }

  /** Taking the head out of `a` and a copy of it out of `b` leaves
      rearrangements of each other. */
  lemma RestPermutes<X>(a: seq<X>, b: seq<X>, j: nat)
    requires a != [] && multiset(a) == multiset(b) && j < |b| && b[j] == a[0]
    ensures multiset(a[1..]) == multiset(b[..j] + b[j + 1..])
  {
    MultisetRemove(b, j);
    assert a == [a[0]] + a[1..];
    CancelOne(multiset(a[1..]), multiset(b[..j] + b[j + 1..]), a[0], multiset(a));
  }

  lemma CancelOne<X>(ra: multiset<X>, rb: multiset<X>, x: X, m: multiset<X>)
    requires m == ra + multiset{x} && m == rb + multiset{x}
    ensures ra == rb
  {
    forall e ensures ra[e] == rb[e] {
      assert m[e] == ra[e] + multiset{x}[e] == rb[e] + multiset{x}[e];
    }
  }

  /** Rearranging the elements rearranges their images the same way. */
  lemma {:induction false} ImagesPermute<X, Y>(f: X -> Y, a: seq<X>, b: seq<X>)
    requires multiset(a) == multiset(b)
    ensures multiset(Images(f, a)) == multiset(Images(f, b))
    decreases |a|
  {
    if a == [] {
      assert |multiset(b)| == 0;
    } else {
      var x, rest := a[0], a[1..];
      var j := IndexOf(b, x, a);
      var others := b[..j] + b[j + 1..];
      RestPermutes(a, b, j);
      ImagesPermute(f, rest, others);
      ImagesRemove(f, b, j);
      PermuteStep(Images(f, a), Images(f, rest), Images(f, others), Images(f, b), f(x));
    }
  }

  /** Putting the same element in front of two rearrangements of each other
      gives two rearrangements of each other. */
  lemma PermuteStep<Y>(consed: seq<Y>, rest: seq<Y>, others: seq<Y>, whole: seq<Y>, y: Y)
    requires consed == [y] + rest
    requires multiset(rest) == multiset(others)
    requires multiset(whole) == multiset(others) + multiset{y}
    ensures multiset(consed) == multiset(whole)
  {
  }

  /** The one-character strings of `list(s)`. */
  function Chars(s: string): (r: seq<string>)
    ensures |r| == |s| && forall i :: 0 <= i < |s| ==> r[i] == [s[i]]
    decreases |s|
  {
    if s == [] then [] else [[s[0]]] + Chars(s[1..])
  }

  /** The strings as a JSON list. */
  function JStrs(ss: seq<string>): (r: seq<Json>)
    ensures |r| == |ss| && forall i :: 0 <= i < |ss| ==> r[i] == JStr(ss[i])
    decreases |ss|
  {
    if ss == [] then [] else [JStr(ss[0])] + JStrs(ss[1..])
  }

  /** The strings `str(x) for x in list(bene)` yields, where `bene` is
      `event_doc.get("beneficiary_ids") or []`: the items of a list, the
      characters of a string, the keys of a dict (in sorted order here, which
      the following sort makes irrelevant). `list()` of anything else
      raises TypeError, which the code turns into an empty list. */
  function BeneficiaryStrings(B: Builtins, v: DocValue): seq<string> {
    match Or(v, Plain(JArr([])))
    case Plain(JArr(items)) => Images(x => PyStr(B, x), items)
    case Plain(JStr(s)) => Chars(s)
    case Plain(JObj(fields)) => SortedElements(fields.Keys)
    case _ => []
  }

  /** A list contributes the `str()` of each of its items, an empty one
      included. */
  lemma BeneficiaryStringsOfList(B: Builtins, items: seq<Json>)
    ensures BeneficiaryStrings(B, Plain(JArr(items))) == Images(x => PyStr(B, x), items)
  {
  }

  // ---------------------------------------------------------------------------
  // fingerprint_event

  /** `str(event_doc.get("_id") or event_doc.get("event_id") or "")`. */
  function EventId(B: Builtins, doc: Doc): string {
    DocStr(B, Or(Get(doc, "_id"), Or(Get(doc, "event_id"), Plain(JStr("")))))
  }

  /** `float(gps.get(k)) if gps.get(k) is not None else None`. */
  function Coord(B: Builtins, gps: map<string, Json>, k: string): Result<Json, Exc> {
    match Lookup(gps, k)
    case Some(x) => if x == JNull then Success(JNull) else B.floatOf(x)
    case None => Success(JNull)
  }

  /** The six fields copied into the core as they are. */
  function Passed(doc: Doc): seq<DocValue> {
    [Get(doc, "donor_id"), Get(doc, "ngo_id"), Get(doc, "quantity"), Get(doc, "unit"),
     Get(doc, "device_id"), Get(doc, "ip")]
  }

  /** Whether all six copied fields are JSON values. */
  predicate AllPlain(passed: seq<DocValue>)
    requires |passed| == 6
  {
    passed[0].Plain? && passed[1].Plain? && passed[2].Plain? && passed[3].Plain? && passed[4].Plain? && passed[5].Plain?
  }

  /** The `core` dictionary built from the values read off the document, or
      the exception building it raises: `gps.get` on a truthy non-dict, a
      failing `float()`, or (at serialisation) a copied field that is not
      JSON. */
  function CoreFrom(B: Builtins, eventId: string, gps: DocValue, timestamp: Option<string>, passed: seq<DocValue>,
                    bene: seq<string>): Result<map<string, Json>, Exc>
    requires |passed| == 6
  {
    var g := Or(gps, Plain(JObj(map[])));
    if !(g.Plain? && g.json.JObj?) then Failure(AttributeError)
    else
      match Coord(B, g.json.fields, "lat")
      case Failure(e) => Failure(e)
      case Success(lat) =>
        match Coord(B, g.json.fields, "lon")
        case Failure(e) => Failure(e)
        case Success(lon) =>
          var ts := match timestamp case Some(s) => JStr(s) case None => JNull;
          if !AllPlain(passed) then Failure(TypeError)
          else Success(CoreDict(eventId, passed, lat, lon, ts, bene))
  }

  /** The `core` dictionary literal, once every copied field is JSON. */
  function CoreDict(eventId: string, passed: seq<DocValue>, lat: Json, lon: Json, ts: Json, bene: seq<string>)
    : map<string, Json>
    requires |passed| == 6 && AllPlain(passed)
  {
    map[
      "event_id" := JStr(eventId),
      "donor_id" := passed[0].json,
      "ngo_id" := passed[1].json,
      "quantity" := passed[2].json,
      "unit" := passed[3].json,
      "gps" := JObj(map["lat" := lat, "lon" := lon]),
      "timestamp" := ts,
      "device_id" := passed[4].json,
      "ip" := passed[5].json,
      "beneficiary_ids" := JArr(JStrs(bene))]
  }

  /** The keys and values of the `core` dictionary literal. */
  lemma CoreDictContents(eventId: string, passed: seq<DocValue>, lat: Json, lon: Json, ts: Json, bene: seq<string>)
    requires |passed| == 6 && AllPlain(passed)
    ensures var c := CoreDict(eventId, passed, lat, lon, ts, bene);
      c.Keys == {"event_id", "donor_id", "ngo_id", "quantity", "unit", "gps", "timestamp", "device_id", "ip",
                 "beneficiary_ids"} &&
      c["event_id"] == JStr(eventId) &&
      passed == [Plain(c["donor_id"]), Plain(c["ngo_id"]), Plain(c["quantity"]), Plain(c["unit"]),
                 Plain(c["device_id"]), Plain(c["ip"])] &&
      c["timestamp"] == ts &&
      c["gps"] == JObj(map["lat" := lat, "lon" := lon]) &&
      c["beneficiary_ids"] == JArr(JStrs(bene))
  {
    DictKeys10("event_id", JStr(eventId), "donor_id", passed[0].json, "ngo_id", passed[1].json,
               "quantity", passed[2].json, "unit", passed[3].json, "gps", JObj(map["lat" := lat, "lon" := lon]),
               "timestamp", ts, "device_id", passed[4].json, "ip", passed[5].json,
               "beneficiary_ids", JArr(JStrs(bene)));
    assert passed == [Plain(passed[0].json), Plain(passed[1].json), Plain(passed[2].json), Plain(passed[3].json),
                      Plain(passed[4].json), Plain(passed[5].json)];
  }

  /** The core of `fingerprint_event` for a document. */
  function Core(B: Builtins, doc: Doc): Result<map<string, Json>, Exc> {
    CoreFrom(B, EventId(B, doc), Get(doc, "gps"), ToIso(B, Get(doc, "timestamp")), Passed(doc),
             Sort(BeneficiaryStrings(B, Get(doc, "beneficiary_ids"))))
  }

  /** `fingerprint_event`: the hash of the canonical JSON of the core. */
  function EventFingerprint(B: Builtins, doc: Doc): Result<string, Exc> {
    match Core(B, doc)
    case Failure(e) => Failure(e)
    case Success(core) => Success(HashChainLog.RecordHash(B, core))
  }

  /** `event_doc.get("gps") or {}`. */
  function Gps(doc: Doc): DocValue {
    Or(Get(doc, "gps"), Plain(JObj(map[])))
  }

  /** Fingerprinting raises AttributeError on a truthy `gps` that is not a
      dict; otherwise it fails exactly when `float()` of a coordinate fails
      or a copied field is not JSON (TypeError). */
  lemma FingerprintFailures(B: Builtins, doc: Doc)
    ensures !(Gps(doc).Plain? && Gps(doc).json.JObj?) ==> EventFingerprint(B, doc) == Failure(AttributeError)
    ensures Gps(doc).Plain? && Gps(doc).json.JObj? ==>
      (EventFingerprint(B, doc).Failure? <==>
         Coord(B, Gps(doc).json.fields, "lat").Failure? || Coord(B, Gps(doc).json.fields, "lon").Failure? ||
         exists i :: 0 <= i < 6 && !Passed(doc)[i].Plain?)
    ensures Gps(doc).Plain? && Gps(doc).json.JObj? &&
            Coord(B, Gps(doc).json.fields, "lat").Success? && Coord(B, Gps(doc).json.fields, "lon").Success? &&
            (exists i :: 0 <= i < 6 && !Passed(doc)[i].Plain?) ==>
      EventFingerprint(B, doc) == Failure(TypeError)
  {
    CoreFromFailures(B, EventId(B, doc), Get(doc, "gps"), ToIso(B, Get(doc, "timestamp")), Passed(doc),
                     Sort(BeneficiaryStrings(B, Get(doc, "beneficiary_ids"))));
  }

  /** The failure cases of `CoreFrom`, for any values read off a document. */
  lemma CoreFromFailures(B: Builtins, eventId: string, gps: DocValue, timestamp: Option<string>, passed: seq<DocValue>,
                         bene: seq<string>)
    requires |passed| == 6
    ensures var g := Or(gps, Plain(JObj(map[])));
      var r := CoreFrom(B, eventId, gps, timestamp, passed, bene);
      (!(g.Plain? && g.json.JObj?) ==> r == Failure(AttributeError)) &&
      (g.Plain? && g.json.JObj? ==>
         (r.Failure? <==>
            Coord(B, g.json.fields, "lat").Failure? || Coord(B, g.json.fields, "lon").Failure? ||
            exists i :: 0 <= i < 6 && !passed[i].Plain?)) &&
      ((g.Plain? && g.json.JObj? && Coord(B, g.json.fields, "lat").Success? && Coord(B, g.json.fields, "lon").Success? &&
        (exists i :: 0 <= i < 6 && !passed[i].Plain?)) ==> r == Failure(TypeError))
  {
  }

  /** The dictionary `CoreFrom` builds, field by field. */
  lemma CoreFromContents(B: Builtins, eventId: string, gps: DocValue, timestamp: Option<string>,
                         passed: seq<DocValue>, bene: seq<string>)
    requires |passed| == 6
    requires CoreFrom(B, eventId, gps, timestamp, passed, bene).Success?
    ensures var c := CoreFrom(B, eventId, gps, timestamp, passed, bene).value;
      var g := Or(gps, Plain(JObj(map[])));
      g.Plain? && g.json.JObj? &&
      c.Keys == {"event_id", "donor_id", "ngo_id", "quantity", "unit", "gps", "timestamp", "device_id", "ip",
                 "beneficiary_ids"} &&
      c["event_id"] == JStr(eventId) &&
      passed == [Plain(c["donor_id"]), Plain(c["ngo_id"]), Plain(c["quantity"]), Plain(c["unit"]),
                 Plain(c["device_id"]), Plain(c["ip"])] &&
      (c["timestamp"] == JNull <==> timestamp.None?) &&
      c["gps"] == JObj(map["lat" := Coord(B, g.json.fields, "lat").value, "lon" := Coord(B, g.json.fields, "lon").value]) &&
      c["beneficiary_ids"] == JArr(JStrs(bene))
  {
    var g := Or(gps, Plain(JObj(map[])));
    var lat, lon := Coord(B, g.json.fields, "lat").value, Coord(B, g.json.fields, "lon").value;
    var ts := match timestamp case Some(s) => JStr(s) case None => JNull;
    assert CoreFrom(B, eventId, gps, timestamp, passed, bene) == Success(CoreDict(eventId, passed, lat, lon, ts, bene));
    CoreDictContents(eventId, passed, lat, lon, ts, bene);
  }

  /** A successful core holds the ten fields: the event id, the copied
      fields as they are, the ISO timestamp (null exactly when the document
      has none), the coordinates, and the beneficiary strings sorted. */
  lemma CoreContents(B: Builtins, doc: Doc)
    requires Core(B, doc).Success?
    ensures var c := Core(B, doc).value;
      Gps(doc).Plain? && Gps(doc).json.JObj? &&
      c.Keys == {"event_id", "donor_id", "ngo_id", "quantity", "unit", "gps", "timestamp", "device_id", "ip",
                 "beneficiary_ids"} &&
      c["event_id"] == JStr(EventId(B, doc)) &&
      Passed(doc) == [Plain(c["donor_id"]), Plain(c["ngo_id"]), Plain(c["quantity"]), Plain(c["unit"]),
                      Plain(c["device_id"]), Plain(c["ip"])] &&
      (c["timestamp"] == JNull <==> Get(doc, "timestamp") == Plain(JNull)) &&
      c["gps"] == JObj(map["lat" := Coord(B, Gps(doc).json.fields, "lat").value,
                           "lon" := Coord(B, Gps(doc).json.fields, "lon").value]) &&
      c["beneficiary_ids"].JArr? &&
      |c["beneficiary_ids"].items| == |BeneficiaryStrings(B, Get(doc, "beneficiary_ids"))| &&
      forall i :: 0 <= i < |c["beneficiary_ids"].items| ==>
        c["beneficiary_ids"].items[i] == JStr(Sort(BeneficiaryStrings(B, Get(doc, "beneficiary_ids")))[i])
  {
    var strs := BeneficiaryStrings(B, Get(doc, "beneficiary_ids"));
    var sorted := Sort(strs);
    CoreFromContents(B, EventId(B, doc), Get(doc, "gps"), ToIso(B, Get(doc, "timestamp")), Passed(doc), sorted);
    assert |sorted| == |strs| by {
      assert |multiset(sorted)| == |multiset(strs)|;
    }
  }

  /** Only the core fields matter: two documents that agree on them get the
      same fingerprint, whatever else they hold. */
  lemma FingerprintReadsOnlyCoreFields(B: Builtins, d1: Doc, d2: Doc)
    requires forall k :: k in CORE_FIELDS ==> Get(d1, k) == Get(d2, k)
    ensures EventFingerprint(B, d1) == EventFingerprint(B, d2)
  {
    assert EventId(B, d1) == EventId(B, d2) by {
      assert Get(d1, "_id") == Get(d2, "_id") && Get(d1, "event_id") == Get(d2, "event_id");
    }
    assert Get(d1, "gps") == Get(d2, "gps") && Get(d1, "timestamp") == Get(d2, "timestamp");
    assert Get(d1, "beneficiary_ids") == Get(d2, "beneficiary_ids");
    assert Passed(d1) == Passed(d2) by {
      assert Get(d1, "donor_id") == Get(d2, "donor_id") && Get(d1, "ngo_id") == Get(d2, "ngo_id");
      assert Get(d1, "quantity") == Get(d2, "quantity") && Get(d1, "unit") == Get(d2, "unit");
      assert Get(d1, "device_id") == Get(d2, "device_id") && Get(d1, "ip") == Get(d2, "ip");
    }
  }

  /** The beneficiaries enter only as a collection: any two values whose
      `str()` images are the same strings, in any order, give the same
      fingerprint. */
  lemma FingerprintIgnoresBeneficiaryOrder(B: Builtins, doc: Doc, other: DocValue)
    requires multiset(BeneficiaryStrings(B, Get(doc, "beneficiary_ids"))) == multiset(BeneficiaryStrings(B, other))
    ensures EventFingerprint(B, doc) == EventFingerprint(B, doc["beneficiary_ids" := other])
  {
    var doc2 := doc["beneficiary_ids" := other];
    SortIgnoresOrder(BeneficiaryStrings(B, Get(doc, "beneficiary_ids")), BeneficiaryStrings(B, other));
    assert Get(doc2, "beneficiary_ids") == other;
    assert EventId(B, doc2) == EventId(B, doc) by {
      assert Get(doc2, "_id") == Get(doc, "_id") && Get(doc2, "event_id") == Get(doc, "event_id");
    }
    assert Get(doc2, "gps") == Get(doc, "gps") && Get(doc2, "timestamp") == Get(doc, "timestamp");
    assert Passed(doc2) == Passed(doc);
  }

  /** In particular a list of beneficiary ids may be given in any order. */
  lemma BeneficiaryListOrderIrrelevant(B: Builtins, doc: Doc, items: seq<Json>)
    requires Get(doc, "beneficiary_ids").Plain? && Get(doc, "beneficiary_ids").json.JArr?
    requires multiset(Get(doc, "beneficiary_ids").json.items) == multiset(items)
    ensures EventFingerprint(B, doc) == EventFingerprint(B, doc["beneficiary_ids" := Plain(JArr(items))])
  {
    var a := Get(doc, "beneficiary_ids").json.items;
    ImagesPermute(x => PyStr(B, x), a, items);
    BeneficiaryStringsOfList(B, a);
    BeneficiaryStringsOfList(B, items);
    FingerprintIgnoresBeneficiaryOrder(B, doc, Plain(JArr(items)));
  }

  /** A naive timestamp fingerprints as the same wall time in UTC. */
  lemma NaiveTimestampIsUtc(B: Builtins, doc: Doc, wall: WallClock)
    ensures EventFingerprint(B, doc["timestamp" := DateTimeValue(wall, None)]) ==
            EventFingerprint(B, doc["timestamp" := DateTimeValue(wall, Some(0))])
  {
    var d1 := doc["timestamp" := DateTimeValue(wall, None)];
    var d2 := doc["timestamp" := DateTimeValue(wall, Some(0))];
    ToIsoNormalisesToUtc(B, wall, 0, 0, 0);
    FingerprintReadsOnlyCoreFieldsExceptTimestamp(B, d1, d2);
  }

  /** Documents that agree on every core field but the timestamp, and whose
      timestamps render alike, fingerprint alike. */
  lemma FingerprintReadsOnlyCoreFieldsExceptTimestamp(B: Builtins, d1: Doc, d2: Doc)
    requires forall k :: k in CORE_FIELDS && k != "timestamp" ==> Get(d1, k) == Get(d2, k)
    requires ToIso(B, Get(d1, "timestamp")) == ToIso(B, Get(d2, "timestamp"))
    ensures EventFingerprint(B, d1) == EventFingerprint(B, d2)
  {
    assert EventId(B, d1) == EventId(B, d2) by {
      assert Get(d1, "_id") == Get(d2, "_id") && Get(d1, "event_id") == Get(d2, "event_id");
    }
    assert Get(d1, "gps") == Get(d2, "gps");
    assert Get(d1, "beneficiary_ids") == Get(d2, "beneficiary_ids");
    assert Passed(d1) == Passed(d2) by {
      assert Get(d1, "donor_id") == Get(d2, "donor_id") && Get(d1, "ngo_id") == Get(d2, "ngo_id");
      assert Get(d1, "quantity") == Get(d2, "quantity") && Get(d1, "unit") == Get(d2, "unit");
      assert Get(d1, "device_id") == Get(d2, "device_id") && Get(d1, "ip") == Get(d2, "ip");
    }
  }

  /** With a collision-free hash, events whose cores differ get different
      fingerprints, so altering any core field changes the fingerprint. */
  lemma FingerprintSeparatesCores(B: Builtins, d1: Doc, d2: Doc)
    requires HashChainLog.CollisionFree(B)
    requires Core(B, d1).Success? && Core(B, d2).Success? && Core(B, d1) != Core(B, d2)
    ensures EventFingerprint(B, d1) != EventFingerprint(B, d2)
  {
  }
}
