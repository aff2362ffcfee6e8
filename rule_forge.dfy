/** The rule compiler: class `RuleForge` of
    RESEARCHHHH/frontend/rule_forge.py. It owns one mutable list, the
    ledger `rules_db`, to which `compile_rule` appends the rule it derives
    from a threat dict; `export_rules_json` hands the ledger back. The two
    `uuid.uuid4()` draws and the priority draw are parameters.

    The file imports `uuid` only, yet line 24 calls `random.randint`: as
    written every call that gets past the key lookups raises NameError
    before the append at line 28 (`DeriveRuleAsWritten`,
    `RuleForge.CompileRuleAsWritten`). The rest of the model follows the
    evident intent, `priority` drawn from `randint(100, 999)`
    (`DeriveRule`, `RuleForge.CompileRule`). */
module Forge {
  import opened Text
  import opened ThreatEngine

  /** The values a threat dict holds: `spawn_threat` stores strings, an
      integer score and a float timestamp. */
  datatype Value = Str(text: string) | Int(number: int) | Real(quantity: real)

  /** `threat_data`, the dict `compile_rule` receives. */
  type ThreatData = map<string, Value>

  /** The exceptions `compile_rule` can raise. */
  datatype Error =
    | KeyError(key: string)   // `threat_data[key]` with the key absent
    | TypeError(key: string)  // slicing a payload that is not a string
    | NameError(name: string) // a name the module never imported

  datatype Result<T> = Ok(value: T) | Err(error: Error)

  /** The `match` part of a rule (`type` is the field `threatType`). */
  datatype MatchClause = MatchClause(threatType: Value, signature: string, sourceIp: Value)

  /** A compiled firewall rule; `match` is the field `matchOn`. */
  datatype Rule = Rule(ruleId: string, matchOn: MatchClause, action: string, priority: int, createdAt: string)

  const DropAction: string := "DROP"
  const CreatedAtMarker: string := "timestamp_now"
  const MinPriority: int := 100
  const MaxPriority: int := 999

  /** How many payload characters the signature is cut from (`[:12]`). */
  const FragmentWidth: nat := 12

  // ---------------------------------------------------------------------
  // Signature derivation (lines 13-14, 17)
  // ---------------------------------------------------------------------

  /** The text of `uuid.uuid4().hex`: 32 lower-case hex digits with version
      digit 4 and variant digit 8, 9, a or b. */
  predicate IsUuidHex(h: string)
  {
    |h| == 32 && IsLowerHex(h) && h[12] == '4' && h[16] in "89ab"
  }

  /** `uuid.uuid4().hex[:4].upper()`: four upper-case hex digits. */
  function ShortId(h: string): (s: string)
    requires IsUuidHex(h)
    ensures |s| == 4 && IsUpperHex(s)
  {
    UpperOfLowerHex(h[..4]);
    Upper(h[..4])
  }

  /** `payload[:12].replace(' ', '').upper()`. The slice comes first, so
      the spaces inside the first twelve characters still count towards
      the twelve; a shorter payload is taken whole. */
  function Fragment(payload: string): (f: string)
    ensures |f| <= FragmentWidth
    ensures ' ' !in f
    ensures forall i :: 0 <= i < |f| ==> !('a' <= f[i] <= 'z')
  {
    var cut := if |payload| <= FragmentWidth then payload else payload[..FragmentWidth];
    var stripped := RemoveAll(cut, ' ');
    UpperShape(stripped);
    Upper(stripped)
  }

  /** A payload of at most twelve characters does not fail and is taken
      whole: every one of its non-space characters reaches the fragment. */
  lemma FragmentOfShortPayload(payload: string)
    requires |payload| <= FragmentWidth
    ensures |Fragment(payload)| == |payload| - Count(payload, ' ')
  {
    RemoveAllLength(payload, ' ');
  }

  /** `f"SIG_{sig_fragment}_{uuid.uuid4().hex[:4].upper()}"`. */
  function Signature(payload: string, sigHex: string): (sig: string)
    requires IsUuidHex(sigHex)
    ensures IsSignature(sig)
    ensures |sig| == 9 + |Fragment(payload)|
    ensures sig[4..4 + |Fragment(payload)|] == Fragment(payload)
    ensures sig[|sig| - 4..] == ShortId(sigHex)
  {
    "SIG_" + Fragment(payload) + "_" + ShortId(sigHex)
  }

  /** The shape of every signature: `SIG_`, at most twelve characters
      without spaces, `_`, four upper-case hex digits. */
  predicate IsSignature(sig: string)
  {
    9 <= |sig| <= 9 + FragmentWidth &&
    sig[..4] == "SIG_" &&
    ' ' !in sig[4..|sig| - 5] &&
    sig[|sig| - 5] == '_' &&
    IsUpperHex(sig[|sig| - 4..])
  }

  /** `R-` and four upper-case hex digits. */
  predicate IsRuleId(id: string)
  {
    |id| == 6 && id[..2] == "R-" && IsUpperHex(id[2..])
  }

  /** What holds of every rule `compile_rule` builds. */
  predicate WellFormedRule(r: Rule)
  {
    IsRuleId(r.ruleId) &&
    IsSignature(r.matchOn.signature) &&
    r.action == DropAction &&
    MinPriority <= r.priority <= MaxPriority &&
    r.createdAt == CreatedAtMarker
  }

  // ---------------------------------------------------------------------
  // compile_rule as a function of its inputs and draws
  // ---------------------------------------------------------------------

  /** The keys and value kinds `compile_rule` needs to get past its lookups. */
  predicate HasRuleFields(threat: ThreatData)
  {
    "payload" in threat && threat["payload"].Str? && "type" in threat && "src" in threat
  }

  /** The lookups of lines 13, 19 and 21 in the order the source makes
      them: the payload (which must be a string to be sliced), the type,
      the source address. */
  function ThreatFields(threat: ThreatData): Result<(string, Value, Value)>
  {
    if "payload" !in threat then Err(KeyError("payload"))
    else if !threat["payload"].Str? then Err(TypeError("payload"))
    else if "type" !in threat then Err(KeyError("type"))
    else if "src" !in threat then Err(KeyError("src"))
    else Ok((threat["payload"].text, threat["type"], threat["src"]))
  }

  /** The rule `compile_rule` builds (lines 13-26), or the exception it
      raises first. `sigHex` and `idHex` are the two `uuid4().hex` draws,
      `priority` the intended `randint(100, 999)` draw. */
  function DeriveRule(threat: ThreatData, sigHex: string, idHex: string, priority: int): (r: Result<Rule>)
    requires IsUuidHex(sigHex) && IsUuidHex(idHex) && MinPriority <= priority <= MaxPriority
    ensures r.Ok? <==> HasRuleFields(threat)
    ensures "payload" !in threat ==> r == Err(KeyError("payload"))
    ensures "payload" in threat && !threat["payload"].Str? ==> r == Err(TypeError("payload"))
    ensures "payload" in threat && threat["payload"].Str? && "type" !in threat ==> r == Err(KeyError("type"))
    ensures "payload" in threat && threat["payload"].Str? && "type" in threat && "src" !in threat ==>
              r == Err(KeyError("src"))
    ensures r.Ok? ==> WellFormedRule(r.value) && r.value.priority == priority
    ensures r.Ok? ==> r.value.matchOn.threatType == threat["type"] && r.value.matchOn.sourceIp == threat["src"]
    ensures r.Ok? ==> r.value.matchOn.signature == Signature(threat["payload"].text, sigHex)
    ensures r.Ok? ==> r.value.ruleId[2..] == ShortId(idHex)
  {
    match ThreatFields(threat)
    case Err(e) => Err(e)
    case Ok((payload, threatType, src)) =>
      var ruleId := "R-" + ShortId(idHex);
      assert ruleId[2..] == ShortId(idHex);
      Ok(Rule(ruleId, MatchClause(threatType, Signature(payload, sigHex), src), DropAction, priority, CreatedAtMarker))
  }

  /** `compile_rule` as written: the lookups happen, then `random.randint`
      at line 24 raises NameError because `random` is never imported. */
  function DeriveRuleAsWritten(threat: ThreatData): (r: Result<Rule>)
    ensures r.Err?
    ensures r == Err(NameError("random")) <==> HasRuleFields(threat)
  {
    match ThreatFields(threat)
    case Err(e) => Err(e)
    case Ok(_) => Err(NameError("random"))
  }

  /** As written, no threat ever yields a rule: a threat the intended code
      compiles fails with NameError instead, and any other fails with the
      same exception as the intended code. */
  lemma AsWrittenNeverCompiles(threat: ThreatData, sigHex: string, idHex: string, priority: int)
    requires IsUuidHex(sigHex) && IsUuidHex(idHex) && MinPriority <= priority <= MaxPriority
    ensures DeriveRuleAsWritten(threat).Err?
    ensures DeriveRule(threat, sigHex, idHex, priority).Ok? ==> DeriveRuleAsWritten(threat) == Err(NameError("random"))
    ensures DeriveRule(threat, sigHex, idHex, priority).Err? ==>
              DeriveRuleAsWritten(threat) == DeriveRule(threat, sigHex, idHex, priority)
  {
  }

  /** Two compilations of the same threat agree on everything the threat
      determines (type, source address and the signature up to its random
      suffix) whatever the draws. */
  lemma SameThreatSamePrefix(threat: ThreatData, sig1: string, id1: string, p1: int, sig2: string, id2: string, p2: int)
    requires IsUuidHex(sig1) && IsUuidHex(id1) && MinPriority <= p1 <= MaxPriority
    requires IsUuidHex(sig2) && IsUuidHex(id2) && MinPriority <= p2 <= MaxPriority
    requires HasRuleFields(threat)
    ensures var r1 := DeriveRule(threat, sig1, id1, p1).value;
            var r2 := DeriveRule(threat, sig2, id2, p2).value;
            var n := |r1.matchOn.signature| - 4;
            r1.matchOn.threatType == r2.matchOn.threatType &&
            r1.matchOn.sourceIp == r2.matchOn.sourceIp &&
            |r2.matchOn.signature| == n + 4 &&
            r1.matchOn.signature[..n] == r2.matchOn.signature[..n]
  {
  }

  // ---------------------------------------------------------------------
  // The ledger
  // ---------------------------------------------------------------------

  class RuleForge {
    /** `rules_db`: every rule compiled so far, in compile order. */
    var rulesDb: seq<Rule>

    /** Only `compile_rule` adds to the ledger, so every entry is well formed. */
    ghost predicate Valid()
      reads this
    {
      forall i :: 0 <= i < |rulesDb| ==> WellFormedRule(rulesDb[i])
    }

    /** `__init__`: a fresh forge has an empty ledger. */
    constructor ()
      ensures Valid() && rulesDb == []
    {
      rulesDb := [];
    }

    /** `compile_rule` with the intended priority draw: on success the new
        rule is appended and returned, and nothing else in the ledger
        changes; on an exception the ledger is untouched. */
    method CompileRule(threat: ThreatData, sigHex: string, idHex: string, priority: int) returns (result: Result<Rule>)
      requires Valid()
      requires IsUuidHex(sigHex) && IsUuidHex(idHex) && MinPriority <= priority <= MaxPriority
      modifies this
      ensures Valid()
      ensures result == DeriveRule(threat, sigHex, idHex, priority)
      ensures result.Ok? ==> rulesDb == old(rulesDb) + [result.value]
      ensures result.Err? ==> rulesDb == old(rulesDb)
    {
      if "payload" !in threat {
        return Err(KeyError("payload"));
      }
      if !threat["payload"].Str? {
        return Err(TypeError("payload"));
      }
      var fragment := Fragment(threat["payload"].text);
      var signature := "SIG_" + fragment + "_" + ShortId(sigHex);
      var ruleId := "R-" + ShortId(idHex);
      if "type" !in threat {
        return Err(KeyError("type"));
      }
      if "src" !in threat {
        return Err(KeyError("src"));
      }
      var rule := Rule(ruleId, MatchClause(threat["type"], signature, threat["src"]), DropAction, priority, CreatedAtMarker);
      rulesDb := rulesDb + [rule];
      result := Ok(rule);
    }

    /** `compile_rule` as written: it always raises, so it never reaches the
        append and the ledger (outside its frame) stays as it was. */
    method CompileRuleAsWritten(threat: ThreatData) returns (result: Result<Rule>)
      ensures result.Err?
      ensures result == DeriveRuleAsWritten(threat)
      ensures HasRuleFields(threat) ==> result.error == NameError("random")
    {
      if "payload" !in threat {
        return Err(KeyError("payload"));
      }
      if !threat["payload"].Str? {
        return Err(TypeError("payload"));
      }
      if "type" !in threat {
        return Err(KeyError("type"));
      }
      if "src" !in threat {
        return Err(KeyError("src"));
      }
      result := Err(NameError("random"));
    }

    /** `export_rules_json`: the ledger, in insertion order, unchanged. */
    method ExportRulesJson() returns (rules: seq<Rule>)
      requires Valid()
      ensures rules == rulesDb
      ensures forall i :: 0 <= i < |rules| ==> WellFormedRule(rules[i])
    {
      rules := rulesDb;
    }
  }

  /** A fresh forge that compiles the same threat twice holds two rules,
      in call order: the ledger is never deduplicated, and the two rules
      share the type, the source address and the signature up to its
      random suffix. */
  method CompileTwice(threat: ThreatData, sig1: string, id1: string, p1: int, sig2: string, id2: string, p2: int)
    returns (ledger: seq<Rule>)
    requires IsUuidHex(sig1) && IsUuidHex(id1) && MinPriority <= p1 <= MaxPriority
    requires IsUuidHex(sig2) && IsUuidHex(id2) && MinPriority <= p2 <= MaxPriority
    requires HasRuleFields(threat)
    ensures |ledger| == 2
    ensures ledger[0] == DeriveRule(threat, sig1, id1, p1).value
    ensures ledger[1] == DeriveRule(threat, sig2, id2, p2).value
    ensures ledger[0].matchOn.threatType == ledger[1].matchOn.threatType == threat["type"]
    ensures ledger[0].matchOn.sourceIp == ledger[1].matchOn.sourceIp == threat["src"]
    ensures ledger[0].matchOn.signature[..|ledger[0].matchOn.signature| - 4] ==
            ledger[1].matchOn.signature[..|ledger[1].matchOn.signature| - 4]
  {
    var forge := new RuleForge();
    var first := forge.CompileRule(threat, sig1, id1, p1);
    var second := forge.CompileRule(threat, sig2, id2, p2);
    ledger := forge.ExportRulesJson();
    SameThreatSamePrefix(threat, sig1, id1, p1, sig2, id2, p2);
  }

  // ---------------------------------------------------------------------
  // Rules compiled from synthesised threats
  // ---------------------------------------------------------------------

  /** The dict `spawn_threat` returns. */
  function ThreatDict(t: Threat): ThreatData
  {
    map[
      "id" := Str(t.id),
      "name" := Str(t.name),
      "type" := Str(t.threatType),
      "score" := Int(t.score),
      "src" := Str(t.src),
      "dst" := Str(t.dst),
      "payload" := Str(t.payload),
      "timestamp" := Real(t.timestamp),
      "status" := Str(t.status)]
  }

  lemma StripSpaced(g: string, rest: string)
    requires ' ' !in g
    ensures RemoveAll(g + " " + rest, ' ') == g + RemoveAll(rest, ' ')
  {
    RemoveAllConcat(g + " ", rest, ' ');
    RemoveAllConcat(g, " ", ' ');
  }

  /** Stripping the spaces from four space-separated groups, optionally
      followed by one more space, leaves the groups side by side. */
  lemma StripFourGroups(h0: string, h1: string, h2: string, h3: string, tail: string)
    requires ' ' !in h0 && ' ' !in h1 && ' ' !in h2 && ' ' !in h3
    requires tail == "" || tail == " "
    ensures RemoveAll(h0 + " " + (h1 + " " + (h2 + " " + (h3 + tail))), ' ') == h0 + (h1 + (h2 + h3))
  {
    RemoveAllConcat(h3, tail, ' ');
    StripSpaced(h2, h3 + tail);
    StripSpaced(h1, h2 + " " + (h3 + tail));
    StripSpaced(h0, h1 + " " + (h2 + " " + (h3 + tail)));
  }

  /** The first twelve characters of a payload of four or more bytes: four
      groups and the spaces between them, then a space when a fifth byte
      follows. */
  lemma PayloadHead(bytes: seq<Byte>)
    requires |bytes| >= 4
    ensures var p := GeneratePayload(bytes);
            var tail := if |bytes| == 4 then "" else " ";
            (if |p| <= FragmentWidth then p else p[..FragmentWidth]) ==
              HexByte(bytes[0]) + " " + (HexByte(bytes[1]) + " " + (HexByte(bytes[2]) + " " + (HexByte(bytes[3]) + tail)))
  {
    var p := GeneratePayload(bytes);
    var tail := if |bytes| == 4 then "" else " ";
    var cut := if |p| <= FragmentWidth then p else p[..FragmentWidth];
    var h0, h1, h2, h3 := HexByte(bytes[0]), HexByte(bytes[1]), HexByte(bytes[2]), HexByte(bytes[3]);
    var target := h0 + " " + (h1 + " " + (h2 + " " + (h3 + tail)));
    PayloadFormat(bytes);
    assert |cut| == |target| == 11 + |tail|;
    forall k | 0 <= k < |cut| ensures cut[k] == target[k] {
      if k % 3 == 2 {
        assert cut[k] == ' ';
      } else {
        assert p[3 * (k / 3)..3 * (k / 3) + 2] == HexByte(bytes[k / 3]);
        assert cut[k] == p[3 * (k / 3)..3 * (k / 3) + 2][k % 3];
      }
    }
  }

  /** Because the slice is taken before the spaces are removed, the first
      twelve characters of a generated payload of four or more bytes hold
      only four bytes: the fragment is their eight hex digits, upper-cased. */
  lemma FragmentOfGeneratedPayload(bytes: seq<Byte>)
    requires |bytes| >= 4
    ensures Fragment(GeneratePayload(bytes)) ==
            Upper(HexByte(bytes[0]) + (HexByte(bytes[1]) + (HexByte(bytes[2]) + HexByte(bytes[3]))))
    ensures |Fragment(GeneratePayload(bytes))| == 8 && IsUpperHex(Fragment(GeneratePayload(bytes)))
  {
    var h0, h1, h2, h3 := HexByte(bytes[0]), HexByte(bytes[1]), HexByte(bytes[2]), HexByte(bytes[3]);
    assert ' ' !in h0 && ' ' !in h1 && ' ' !in h2 && ' ' !in h3 by {
      assert IsLowerHex(h0) && IsLowerHex(h1) && IsLowerHex(h2) && IsLowerHex(h3);
    }
    PayloadHead(bytes);
    StripFourGroups(h0, h1, h2, h3, if |bytes| == 4 then "" else " ");
    UpperOfLowerHex(h0 + (h1 + (h2 + h3)));
  }

  /** A rule compiled from a synthesised threat: it always succeeds, copies
      the threat's type and source address, and its signature is `SIG_`,
      the first four payload bytes in upper-case hex, `_` and the suffix. */
  lemma RuleOfSpawnedThreat(d: ThreatDraws, sigHex: string, idHex: string, priority: int)
    requires ValidDraws(d)
    requires IsUuidHex(sigHex) && IsUuidHex(idHex) && MinPriority <= priority <= MaxPriority
    ensures var t := SpawnThreat(d);
            var r := DeriveRule(ThreatDict(t), sigHex, idHex, priority);
            r.Ok? &&
            r.value.matchOn.threatType == Str(t.threatType) &&
            r.value.matchOn.sourceIp == Str(t.src) &&
            r.value.matchOn.signature ==
              "SIG_" + Upper(HexByte(d.payloadBytes[0]) + (HexByte(d.payloadBytes[1]) +
                             (HexByte(d.payloadBytes[2]) + HexByte(d.payloadBytes[3])))) + "_" + ShortId(sigHex) &&
            |r.value.matchOn.signature| == 17
  {
    var t := SpawnThreat(d);
    var threat := ThreatDict(t);
    assert t.payload == GeneratePayload(d.payloadBytes);
    assert threat["payload"] == Str(t.payload) && threat["type"] == Str(t.threatType) && threat["src"] == Str(t.src);
    assert HasRuleFields(threat);
    FragmentOfGeneratedPayload(d.payloadBytes);
    var r := DeriveRule(threat, sigHex, idHex, priority);
    assert r.value.matchOn.signature == "SIG_" + Fragment(t.payload) + "_" + ShortId(sigHex);
  }

  /** For the payload "aa bb cc dd ee ff 00 11", `[:12]` comes before the
      strip, so the fragment is "AABBCCDD"; stripping first would give
      "AABBCCDDEEFF". */
  lemma ExampleFragment()
    ensures Fragment("aa bb cc dd ee ff 00 11") == "AABBCCDD"
  {
    var payload := "aa bb cc dd ee ff 00 11";
    assert payload[..FragmentWidth] == "aa" + " " + ("bb" + " " + ("cc" + " " + ("dd" + " ")));
    StripFourGroups("aa", "bb", "cc", "dd", " ");
    assert "aa" + ("bb" + ("cc" + "dd")) == "aabbccdd";
    assert Upper("aabbccdd") == "AABBCCDD";
  }

  /** A threat whose payload is "aa bb cc dd ee ff 00 11" and which has a
      `type` and a `src` compiles to signature `SIG_AABBCCDD_` and the
      suffix, with its type and source copied. */
  lemma ExampleSignature(threat: ThreatData, sigHex: string, idHex: string, priority: int)
    requires IsUuidHex(sigHex) && IsUuidHex(idHex) && MinPriority <= priority <= MaxPriority
    requires "type" in threat && "src" in threat
    requires "payload" in threat && threat["payload"] == Str("aa bb cc dd ee ff 00 11")
    ensures var r := DeriveRule(threat, sigHex, idHex, priority);
            r.Ok? &&
            r.value.matchOn.signature == "SIG_AABBCCDD_" + ShortId(sigHex) &&
            r.value.matchOn.sourceIp == threat["src"] &&
            r.value.matchOn.threatType == threat["type"]
  {
    var payload := "aa bb cc dd ee ff 00 11";
    assert HasRuleFields(threat) && threat["payload"].text == payload;
    ExampleFragment();
    assert Signature(payload, sigHex) == "SIG_AABBCCDD_" + ShortId(sigHex);
  }

  /** As written, the threat `{type: "Virus", payload: "aa bb cc dd ee ff 00 11",
      src: "10.0.0.1"}` raises NameError instead of compiling. */
  lemma ExampleAsWritten()
    ensures DeriveRuleAsWritten(map["type" := Str("Virus"), "payload" := Str("aa bb cc dd ee ff 00 11"), "src" := Str("10.0.0.1")])
            == Err(NameError("random"))
  {
  }
}
