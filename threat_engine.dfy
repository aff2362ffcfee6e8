/** The threat synthesiser: class `ThreatEngine` of
    RESEARCHHHH/backend/threat_engine.py. The class holds only two constant
    lists; its operations are pure apart from the random draws, which are
    parameters here, each with the range or the list it is drawn from. */
module ThreatEngine {
  import opened Text

  /** A value drawn by `random.randint(0, 255)`. */
  type Byte = x: int | 0 <= x < 256

  const ThreatTypes: seq<string> :=
    ["Virus", "Phishing Link", "Trojan", "Ransomware", "Malware", "Spyware", "Exploit"]

  const Codenames: seq<string> :=
    ["PAYLOAD", "INJECT", "CLICK_FRAUD", "DROPBEAR", "NIGHTCRAWL", "SILENT_NOMAD", "GOLDEN_EGG"]

  /** The fixed destination of every threat (the protected internal node). */
  const ProtectedNode: string := "192.168.1.100"

  const ActiveStatus: string := "active"

  /** The default `length` of `generate_payload`, which `spawn_threat` uses. */
  const DefaultPayloadLength: nat := 32

  // ---------------------------------------------------------------------
  // generate_ip
  // ---------------------------------------------------------------------

  /** The four `random.randint` draws of `generate_ip`, in order. */
  predicate ValidOctets(o: seq<int>)
  {
    |o| == 4 && 1 <= o[0] <= 255 && 0 <= o[1] <= 255 && 0 <= o[2] <= 255 && 1 <= o[3] <= 254
  }

  /** The decimal text of each drawn octet. */
  function OctetTexts(o: seq<int>): seq<string>
    requires ValidOctets(o)
  {
    [DecimalString(o[0]), DecimalString(o[1]), DecimalString(o[2]), DecimalString(o[3])]
  }

  /** One to three decimal digits, as `\d{1,3}` matches. */
  predicate IsOctetText(p: string) { 1 <= |p| <= 3 && IsDecimal(p) }

  /** Four dot-separated groups of one to three digits (`\d{1,3}(\.\d{1,3}){3}`). */
  predicate IsDottedQuad(s: string)
  {
    var parts := Split(s, '.');
    |parts| == 4 && forall k :: 0 <= k < 4 ==> IsOctetText(parts[k])
  }

  /** Reads a dotted quad back into its four octet values. */
  function DecodeIp(s: string): Option<seq<int>>
  {
    var parts := Split(s, '.');
    if IsDottedQuad(s) then Some(seq(4, k requires 0 <= k < 4 => DecimalValue(parts[k]))) else None
  }

  /** The octet texts joined by dots form a dotted quad with exactly three
      dots, and reading it back gives the four octets, in order. */
  lemma QuadOfOctets(o: seq<int>)
    requires ValidOctets(o)
    ensures IsDottedQuad(Join(OctetTexts(o), '.'))
    ensures Count(Join(OctetTexts(o), '.'), '.') == 3
    ensures DecodeIp(Join(OctetTexts(o), '.')) == Some(o)
  {
    var parts := OctetTexts(o);
    forall k | 0 <= k < 4
      ensures '.' !in parts[k] && IsOctetText(parts[k]) && DecimalValue(parts[k]) == o[k]
    {
      DecimalWidth(o[k]);
      DecimalRoundTrip(o[k]);
    }
    SplitJoin(parts, '.');
    CountJoin(parts, '.');
    assert seq(4, k requires 0 <= k < 4 => DecimalValue(parts[k])) == o;
  }

  /** `generate_ip`: the f-string of the four octets, separated by dots. The
      address is a dotted quad with exactly three dots, and reading it back
      gives the four drawn octets, in order. */
  function GenerateIp(o: seq<int>): (s: string)
    requires ValidOctets(o)
    ensures IsDottedQuad(s)
    ensures Count(s, '.') == 3
    ensures DecodeIp(s) == Some(o)
  {
    var s := DecimalString(o[0]) + "." + DecimalString(o[1]) + "." + DecimalString(o[2]) + "." + DecimalString(o[3]);
    var parts := OctetTexts(o);
    assert parts[1..][1..][1..] == [parts[3]];
    assert Join(parts[1..][1..], '.') == parts[2] + ['.'] + parts[3];
    assert Join(parts[1..], '.') == parts[1] + ['.'] + parts[2] + ['.'] + parts[3];
    assert s == Join(parts, '.');
    QuadOfOctets(o);
    s
  }

  // ---------------------------------------------------------------------
  // generate_payload
  // ---------------------------------------------------------------------

  /** `f"{b:02x}"`: two lower-case hexadecimal digits. */
  function HexByte(b: Byte): (g: string)
    ensures |g| == 2 && IsLowerHex(g)
    ensures 16 * HexDigitValue(g[0]) + HexDigitValue(g[1]) == b
  {
    [LowerHexDigit(b / 16), LowerHexDigit(b % 16)]
  }

  function HexGroups(bytes: seq<Byte>): seq<string>
  {
    seq(|bytes|, i requires 0 <= i < |bytes| => HexByte(bytes[i]))
  }

  /** The text of an `n`-byte payload: `3n - 1` characters (none for `n = 0`),
      a space at every third position and a lower-case hex digit elsewhere. */
  predicate IsPayloadText(p: string, n: nat)
  {
    |p| == (if n == 0 then 0 else 3 * n - 1) &&
    forall k :: 0 <= k < |p| ==> if k % 3 == 2 then p[k] == ' ' else IsLowerHexChar(p[k])
  }

  /** The hex groups joined by spaces have the payload shape, and the `i`-th
      group is the two-digit form of the `i`-th byte. */
  lemma PayloadFormat(bytes: seq<Byte>)
    ensures IsPayloadText(Join(HexGroups(bytes), ' '), |bytes|)
    ensures forall i :: 0 <= i < |bytes| ==> Join(HexGroups(bytes), ' ')[3 * i..3 * i + 2] == HexByte(bytes[i])
  {
    if |bytes| > 0 {
      var gs := HexGroups(bytes);
      var p := Join(gs, ' ');
      JoinPairsAt(gs, ' ');
      forall i | 0 <= i < |bytes|
        ensures p[3 * i..3 * i + 2] == HexByte(bytes[i])
      {
        assert (3 * i) / 3 == i && (3 * i) % 3 == 0;
        assert (3 * i + 1) / 3 == i && (3 * i + 1) % 3 == 1;
      }
    }
  }

  /** `int(g, 16)` for a group of exactly two lower-case hex digits. */
  function ParseHexByte(g: string): Option<Byte>
  {
    if |g| == 2 && IsLowerHex(g) then Some(16 * HexDigitValue(g[0]) + HexDigitValue(g[1])) else None
  }

  function ParseGroups(gs: seq<string>): Option<seq<Byte>>
    decreases |gs|
  {
    if gs == [] then Some([])
    else match ParseHexByte(gs[0])
      case None => None
      case Some(b) =>
        match ParseGroups(gs[1..])
        case None => None
        case Some(rest) => Some([b] + rest)
  }

  /** Reads a payload back into bytes: split on single spaces and parse each
      group; the empty payload holds no bytes. */
  function DecodePayload(p: string): Option<seq<Byte>>
  {
    if p == "" then Some([]) else ParseGroups(Split(p, ' '))
  }

  lemma {:induction false} ParseHexGroups(bytes: seq<Byte>)
    ensures ParseGroups(HexGroups(bytes)) == Some(bytes)
    decreases |bytes|
  {
    if bytes != [] {
      var gs := HexGroups(bytes);
      assert ParseHexByte(gs[0]) == Some(bytes[0]);
      assert gs[1..] == HexGroups(bytes[1..]);
      ParseHexGroups(bytes[1..]);
      assert bytes == [bytes[0]] + bytes[1..];
    }
  }

  /** Decoding the joined hex groups gives back exactly the bytes, in order. */
  lemma PayloadRoundTrip(bytes: seq<Byte>)
    ensures DecodePayload(Join(HexGroups(bytes), ' ')) == Some(bytes)
  {
    var gs := HexGroups(bytes);
    if bytes != [] {
      forall k | 0 <= k < |gs| ensures ' ' !in gs[k] {
        assert IsLowerHex(gs[k]);
      }
      SplitJoin(gs, ' ');
      JoinPairsAt(gs, ' ');
      ParseHexGroups(bytes);
    }
  }

  /** `generate_payload(length)`, with the `length` bytes it draws given as
      `bytes`: `3n - 1` characters with a space at every third position, the
      `i`-th group the two-digit form of the `i`-th byte, and decoding it
      gives back exactly the drawn bytes, in order. */
  function GeneratePayload(bytes: seq<Byte>): (p: string)
    ensures IsPayloadText(p, |bytes|)
    ensures forall i :: 0 <= i < |bytes| ==> p[3 * i..3 * i + 2] == HexByte(bytes[i])
    ensures DecodePayload(p) == Some(bytes)
  {
    PayloadFormat(bytes);
    PayloadRoundTrip(bytes);
    Join(HexGroups(bytes), ' ')
  }

  // ---------------------------------------------------------------------
  // spawn_threat
  // ---------------------------------------------------------------------

  /** The threat record `spawn_threat` returns (a dict in the source;
      its `type` key is the field `threatType`). */
  datatype Threat = Threat(
    id: string,
    name: string,
    threatType: string,
    score: int,
    src: string,
    dst: string,
    payload: string,
    timestamp: real,
    status: string)

  /** The text of `str(uuid.uuid4())`: 8-4-4-4-12 lower-case hex digits
      separated by hyphens, version digit 4 and variant digit 8, 9, a or b. */
  predicate IsUuidText(u: string)
  {
    |u| == 36 &&
    (forall i :: 0 <= i < 36 ==> if i == 8 || i == 13 || i == 18 || i == 23 then u[i] == '-' else IsLowerHexChar(u[i])) &&
    u[14] == '4' && u[19] in "89ab"
  }

  /** The draws one call of `spawn_threat` consumes, in the order it
      consumes them; `clock` is the value of `time.time()`. */
  datatype ThreatDraws = ThreatDraws(
    uuidText: string,
    typePick: nat,
    namePick: nat,
    score: int,
    octets: seq<int>,
    payloadBytes: seq<Byte>,
    clock: real)

  /** What each draw can produce: a UUID text, an index into each list for
      `random.choice`, `randint(10, 98)`, the octets of `generate_ip` and the
      default 32 payload bytes. */
  predicate ValidDraws(d: ThreatDraws)
  {
    IsUuidText(d.uuidText) &&
    d.typePick < |ThreatTypes| && d.namePick < |Codenames| &&
    10 <= d.score <= 98 &&
    ValidOctets(d.octets) &&
    |d.payloadBytes| == DefaultPayloadLength
  }

  /** `spawn_threat`: a fresh record with an 8-character upper-case id,
      a listed type and codename, a score in [10, 98], a generated source
      address, the fixed destination, a 32-byte payload and status active. */
  function SpawnThreat(d: ThreatDraws): (t: Threat)
    requires ValidDraws(d)
    ensures t.status == ActiveStatus && t.dst == ProtectedNode
    ensures 10 <= t.score <= 98
    ensures t.threatType in ThreatTypes && t.name in Codenames
    ensures |t.id| == 8 && IsUpperHex(t.id)
    ensures |t.payload| == 95 && IsPayloadText(t.payload, DefaultPayloadLength)
    ensures DecodePayload(t.payload) == Some(d.payloadBytes)
    ensures IsDottedQuad(t.src) && DecodeIp(t.src) == Some(d.octets)
  {
    UpperOfLowerHex(d.uuidText[..8]);
    Threat(
      id := Upper(d.uuidText[..8]),
      name := Codenames[d.namePick],
      threatType := ThreatTypes[d.typePick],
      score := d.score,
      src := GenerateIp(d.octets),
      dst := ProtectedNode,
      payload := GeneratePayload(d.payloadBytes),
      timestamp := d.clock,
      status := ActiveStatus)
  }

  // ---------------------------------------------------------------------
  // analyze_entropy
  // ---------------------------------------------------------------------

  /** `set(s)`: the distinct characters of `s`. */
  function CharSet(s: string): (cs: set<char>)
    ensures forall c :: c in cs <==> c in s
  {
    set c | c in s
  }

  predicate AllDistinct(s: string)
  {
    forall i, j :: 0 <= i < j < |s| ==> s[i] != s[j]
  }

  lemma CharSetCons(s: string)
    requires s != []
    ensures CharSet(s) == {s[0]} + CharSet(s[1..])
  {
  }

  lemma DistinctCons(s: string)
    requires s != []
    ensures AllDistinct(s) <==> s[0] !in s[1..] && AllDistinct(s[1..])
  {
  }

  /** A non-empty string has between one and `|s|` distinct characters, and
      exactly `|s|` of them when no character repeats. */
  lemma {:induction false} CharSetSize(s: string)
    ensures |CharSet(s)| <= |s|
    ensures s != [] ==> 1 <= |CharSet(s)|
    ensures |CharSet(s)| == |s| <==> AllDistinct(s)
    decreases |s|
  {
    if s != [] {
      CharSetSize(s[1..]);
      CharSetCons(s);
      DistinctCons(s);
      if s[0] in s[1..] {
        assert CharSet(s) == CharSet(s[1..]);
      } else {
        assert |CharSet(s)| == |CharSet(s[1..])| + 1;
      }
    }
  }

  /** `analyze_entropy`: the distinct characters as a percentage of the
      length (a real here, where the source computes a float). */
  function AnalyzeEntropy(payload: string): (r: real)
    requires |payload| > 0
    ensures 0.0 < r <= 100.0
    ensures r == 100.0 <==> AllDistinct(payload)
  {
    CharSetSize(payload);
    var distinct := |CharSet(payload)| as real;
    var total := |payload| as real;
    PercentOfWhole(distinct, total);
    (distinct / total) * 100.0
  }

  /** A part `a` of a whole `b` is a percentage in (0, 100], and exactly 100
      when the part is the whole. */
  lemma PercentOfWhole(a: real, b: real)
    requires 0.0 < a <= b
    ensures 0.0 < (a / b) * 100.0 <= 100.0
    ensures (a / b) * 100.0 == 100.0 <==> a == b
  {
  }

  /** Two distinct characters in four give 50. */
  lemma EntropyOfAabb()
    ensures AnalyzeEntropy("aabb") == 50.0
  {
    assert CharSet("aabb") == {'a', 'b'} by {
      assert "aabb"[0] == 'a' && "aabb"[2] == 'b';
    }
  }
}
