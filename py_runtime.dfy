/** The part of the Python runtime the ledger code relies on: JSON values as
    `json.loads` returns them, the exceptions that subscripting and coercing them
    raise, truthiness, `str()`, slicing, and text files read as lines.
    Library functions whose internals are out of scope (SHA-256, JSON
    serialisation, `int()` on strings, ISO formatting) are values of the
    `Builtins` datatype, so every statement about them holds for any choice. */
module PyRuntime {
  import opened Wrappers

  /** A JSON value. Objects are maps, so key order (which `sort_keys=True`
      erases) is not represented; numbers are integers only. */
  datatype Json =
    | JNull
    | JBool(b: bool)
    | JNum(n: int)
    | JStr(s: string)
    | JArr(items: seq<Json>)
    | JObj(fields: map<string, Json>)

  /** The exceptions the modelled code can raise. `MiningExhausted` is the
      model's bound on the proof-of-work search. */
  datatype Exc = KeyError(key: string) | TypeError | ValueError | AttributeError | MiningExhausted

  /** One line of a JSON-lines file after `strip()` and `json.loads`. */
  datatype Line = Blank | Malformed | Parsed(value: Json)

  /** Date and time fields of a `datetime`, without its time zone. */
  datatype WallClock = WallClock(year: int, month: int, day: int, hour: int, minute: int, second: int, microsecond: int)

  /** A value of a Python document handed to the ledger: JSON, a
      `datetime` (with its UTC offset in minutes when it is aware), a `date`,
      or a BSON ObjectId (by its hex text). */
  datatype DocValue =
    | Plain(json: Json)
    | DateTimeValue(wall: WallClock, utcOffset: Option<int>)
    | DateValue(year: int, month: int, day: int)
    | ObjectIdValue(hex: string)

  /** Library behaviour left abstract. */
  datatype Builtins = Builtins(
    sha256Hex: string -> string,          // hashlib.sha256(s.encode("utf-8")).hexdigest()
    canonicalJson: Json -> string,        // json.dumps(o, sort_keys=True, separators=(",", ":"))
    containerStr: Json -> string,         // str() of a list or a dict
    intOfStr: string -> Option<int>,      // int(s); None where Python raises ValueError
    isoformat: (WallClock, int) -> string, // datetime.isoformat() of an aware datetime, offset in minutes
    temporalStr: DocValue -> string,      // str() of a datetime or a date
    floatOf: Json -> Result<Json, Exc>    // float(x), as the value json.dumps then writes; Failure where it raises
  )

  /** Python truthiness (`if v:` / `v or w`). */
  predicate Truthy(v: Json) {
    match v
    case JNull => false
    case JBool(b) => b
    case JNum(n) => n != 0
    case JStr(s) => s != ""
    case JArr(items) => items != []
    case JObj(fields) => fields != map[]
  }

  predicate DocTruthy(v: DocValue) {
    match v
    case Plain(j) => Truthy(j)
    case _ => true
  }

  /** `d.get(k)` on a dict. */
  function Lookup(m: map<string, Json>, k: string): (r: Option<Json>)
    ensures r.Some? <==> k in m
    ensures r.Some? ==> r.value == m[k]
  {
    if k in m then Some(m[k]) else None
  }

  /** `v[k]` with a string key: a KeyError on a dict without `k`, a TypeError
      on anything that is not a dict. */
  function Subscript(v: Json, k: string): (r: Result<Json, Exc>)
    ensures r.Success? <==> v.JObj? && k in v.fields
    ensures r.Success? ==> r.value == v.fields[k]
    ensures v.JObj? && k !in v.fields ==> r == Failure(KeyError(k))
  {
    match v
    case JObj(m) => if k in m then Success(m[k]) else Failure(KeyError(k))
    case _ => Failure(TypeError)
  }

  /** `int(v)`: integers as they are, booleans as 0/1, strings through the
      library parser; TypeError for null, lists and dicts. */
  function IntOf(B: Builtins, v: Json): (r: Result<int, Exc>)
    ensures v.JNum? ==> r == Success(v.n)
    ensures v.JNull? || v.JArr? || v.JObj? ==> r == Failure(TypeError)
  {
    match v
    case JNum(n) => Success(n)
    case JBool(b) => Success(if b then 1 else 0)
    case JStr(s) => (match B.intOfStr(s) case Some(n) => Success(n) case None => Failure(ValueError))
    case _ => Failure(TypeError)
  }

  /** `v + 1`: defined for integers and booleans; TypeError otherwise. */
  function PlusOne(v: Json): (r: Result<int, Exc>)
    ensures r.Success? <==> v.JNum? || v.JBool?
    ensures v.JNum? ==> r == Success(v.n + 1)
  {
    match v
    case JNum(n) => Success(n + 1)
    case JBool(b) => Success(if b then 2 else 1)
    case _ => Failure(TypeError)
  }

  /** `v == 0` in Python, where `False == 0`. */
  predicate EqualsZero(v: Json) {
    v == JNum(0) || v == JBool(false)
  }

  function DigitChar(d: nat): (c: char)
    requires d < 10
    ensures '0' <= c <= '9'
  {
    "0123456789"[d]
  }

  /** Decimal digits of a natural number, most significant first. */
  function NatDigits(n: nat): (r: string)
    ensures |r| > 0
    ensures forall i :: 0 <= i < |r| ==> '0' <= r[i] <= '9'
    decreases n
  {
    if n < 10 then [DigitChar(n)] else NatDigits(n / 10) + [DigitChar(n % 10)]
  }

  /** `str(n)` of an integer. */
  function IntToDecimal(n: int): (r: string)
    ensures |r| > 0
    ensures n >= 0 ==> forall i :: 0 <= i < |r| ==> '0' <= r[i] <= '9'
    ensures n < 0 ==> r[0] == '-'
  {
    if n < 0 then "-" + NatDigits(-n) else NatDigits(n)
  }

  /** `str(v)` of a JSON value: a string is itself. */
  function PyStr(B: Builtins, v: Json): (r: string)
    ensures v.JStr? ==> r == v.s
  {
    match v
    case JStr(s) => s
    case JNum(n) => IntToDecimal(n)
    case JBool(b) => if b then "True" else "False"
    case JNull => "None"
    case _ => B.containerStr(v)
  }

  /** `str(v)` of a document value: an ObjectId renders as its hex text. */
  function DocStr(B: Builtins, v: DocValue): string {
    match v
    case Plain(j) => PyStr(B, j)
    case ObjectIdValue(hex) => hex
    case _ => B.temporalStr(v)
  }

  /** The keys of a five-entry dict literal. */
  lemma DictKeys5<V>(k1: string, v1: V, k2: string, v2: V, k3: string, v3: V, k4: string, v4: V, k5: string, v5: V)
    ensures map[k1 := v1, k2 := v2, k3 := v3, k4 := v4, k5 := v5].Keys == {k1, k2, k3, k4, k5}
  {
  }

  /** The keys of a ten-entry dict literal. */
  lemma DictKeys10<V>(k1: string, v1: V, k2: string, v2: V, k3: string, v3: V, k4: string, v4: V, k5: string, v5: V,
                      k6: string, v6: V, k7: string, v7: V, k8: string, v8: V, k9: string, v9: V, k10: string, v10: V)
    ensures map[k1 := v1, k2 := v2, k3 := v3, k4 := v4, k5 := v5, k6 := v6, k7 := v7, k8 := v8, k9 := v9,
                k10 := v10].Keys == {k1, k2, k3, k4, k5, k6, k7, k8, k9, k10}
  {
  }

  /** `s[-limit:]`, with Python's slice clamping: the last `limit` elements
      when `limit > 0`, everything when `limit == 0` (`s[-0:]` is `s[0:]`),
      and all but the first `-limit` when `limit < 0`. */
  function PyTail<T>(s: seq<T>, limit: int): (r: seq<T>)
    ensures |r| <= |s| && r == s[|s| - |r|..]
    ensures limit > 0 ==> |r| == if limit < |s| then limit else |s|
    ensures limit == 0 ==> r == s
    ensures limit < 0 ==> |r| == if |s| + limit < 0 then 0 else |s| + limit
  {
    var start := -limit;
    var from := if start < 0 then (if start + |s| < 0 then 0 else start + |s|)
                else (if start > |s| then |s| else start);
    s[from..]
  }

  /** A text file of JSON lines. A missing file and an empty file both read
      as no lines. */
  class File {
    var lines: seq<Line>

    constructor (contents: seq<Line>)
      ensures lines == contents
    {
      lines := contents;
    }

    /** Opening in mode "a" and writing one newline-terminated line. */
    method AppendLine(line: Line)
      modifies this
      ensures lines == old(lines) + [line]
    {
      lines := lines + [line];
    }

    /** Opening in mode "w" and writing one newline-terminated line. */
    method Overwrite(line: Line)
      modifies this
      ensures lines == [line]
    {
      lines := [line];
    }
  }
}
