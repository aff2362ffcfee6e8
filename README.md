# Verified model of the threat synthesiser and the rule forge

This project models the two generators of a simulated security dashboard.

- **Threat synthesiser.** This is `ThreatEngine` in `RESEARCHHHH/backend/threat_engine.py`. It builds random IPv4 addresses and hex payloads, assembles threat records and computes a distinct-character "entropy" ratio.
- **Rule forge.** This is `RuleForge` in `RESEARCHHHH/frontend/rule_forge.py`. It derives a firewall rule from a threat dict, appends it to its in-memory ledger `rules_db`, and returns that ledger on export.

Every random draw is a parameter, with a precondition that matches the range or list it is drawn from:

- `random.randint` draws have their inclusive bounds.
- `random.choice` draws are an index into the list.
- `uuid.uuid4()` draws are their text form: `str(uuid4())` for the threat id, `uuid4().hex` in the forge.
- `time.time()` is an opaque `real`.

With the draws given, every operation is a deterministic function.

Files:

- `text.dfy` (module `Text`): the Python string primitives the core uses: `format(b, '02x')`, `str(n)`, `str.upper`, `str.replace(' ', '')` and `' '.join`. The module also holds reference definitions that the source never calls: `Split` (as `str.split`), `Count` (as `str.count`), `DecimalValue` and `HexDigitValue` (as `int`). They exist only to state the round-trip and count laws of the primitives.
- `threat_engine.dfy` (module `ThreatEngine`): `GenerateIp`, `GeneratePayload`, `SpawnThreat` and `AnalyzeEntropy`, as pure functions, with the lists `ThreatTypes` and `Codenames`. `DecodeIp` and `DecodePayload` are reference inverses written for the proofs. They are not operations of the source.
- `rule_forge.dfy` (module `Forge`): the threat dict (`map<string, Value>`), the rule record and the pure `DeriveRule`. It also holds the class `RuleForge`, whose field `rulesDb: seq<Rule>` is the ledger that `CompileRule` appends to in place.

Python field names that are Dafny keywords are renamed:

- a threat's `type` is `threatType`;
- a rule's `match` is `matchOn`;
- `match.type` is `matchOn.threatType`.

## Model

| member | source | states |
|---|---|---|
| `Text.DecimalString` | RESEARCHHHH/backend/threat_engine.py:12 | `str(n)` of an octet is a non-empty run of decimal digits; it starts with `0` exactly when `n` is 0, and then it is `"0"` |
| `Text.DecimalRoundTrip` | RESEARCHHHH/backend/threat_engine.py:12 | reading the decimal text of `n` gives `n` back |
| `Text.DecimalWidth` | RESEARCHHHH/backend/threat_engine.py:12 | an octet below 1000 prints as at most three digits |
| `Text.Split` | RESEARCHHHH/backend/threat_engine.py:17 | the reference splitter that inverts `' '.join` (the source never splits): `str.split` yields at least one piece, and no piece holds the separator |
| `Text.SplitJoin` | RESEARCHHHH/backend/threat_engine.py:17 | splitting `sep.join(parts)` on `sep` gives `parts` back when no part holds `sep` |
| `Text.JoinSplit` | RESEARCHHHH/backend/threat_engine.py:17 | joining the pieces of a split gives the string back, so split and join are inverse |
| `Text.Join` | RESEARCHHHH/backend/threat_engine.py:17 | `' '.join` of no parts is empty and otherwise starts with the first part; `Text.SplitJoin`, `Text.JoinSplit`, `Text.CountJoin` and `Text.JoinPairsAt` give the rest of its meaning |
| `Text.JoinPairsAt` | RESEARCHHHH/backend/threat_engine.py:17 | a join of two-character groups has length `3n - 1`; position `k` holds the separator when `k % 3 == 2`, else character `k % 3` of group `k / 3` |
| `Text.CountJoin` | RESEARCHHHH/backend/threat_engine.py:12 | a join of `n` separator-free parts holds exactly `n - 1` separators |
| `Text.RemoveAll` | RESEARCHHHH/frontend/rule_forge.py:13 | `replace(' ', '')` leaves no space, never lengthens, adds no character, and is the identity on space-free text |
| `Text.RemoveAllLength` | RESEARCHHHH/frontend/rule_forge.py:13 | `replace(' ', '')` removes exactly the spaces: the result is as long as the input minus its count of spaces |
| `Text.RemoveAllConcat` | RESEARCHHHH/frontend/rule_forge.py:13 | deleting spaces distributes over concatenation |
| `Text.UpperChar` | RESEARCHHHH/frontend/rule_forge.py:13 | `c.upper()` moves an ASCII lower-case letter 32 code points down to its upper-case letter and keeps every other character; a lower-case hex digit becomes an upper-case one of the same value |
| `Text.Upper` | RESEARCHHHH/frontend/rule_forge.py:13 | `upper()` keeps the length and upper-cases each character independently |
| `Text.UpperOfLowerHex` | RESEARCHHHH/backend/threat_engine.py:21 | upper-casing lower-case hex gives upper-case hex with the same digit values |
| `ThreatEngine.QuadOfOctets` | RESEARCHHHH/backend/threat_engine.py:12 | the decimal texts of four octets joined by dots are four groups of 1-3 digits with exactly three dots, and decoding them gives back the octets |
| `ThreatEngine.GenerateIp` | RESEARCHHHH/backend/threat_engine.py:10-12 | the address is four groups of 1-3 digits with exactly three dots, and decoding it gives back the drawn octets: first in [1,255], middle two in [0,255], last in [1,254] |
| `ThreatEngine.HexByte` | RESEARCHHHH/backend/threat_engine.py:17 | `:02x` of a byte is exactly two lower-case hex digits whose value is the byte |
| `ThreatEngine.PayloadFormat` | RESEARCHHHH/backend/threat_engine.py:15-17 | the space-join of the `:02x` groups of `n` bytes has length `3n - 1` (0 for `n = 0`), a space at every third position and lower-case hex elsewhere; group `i` is the `:02x` form of byte `i` |
| `ThreatEngine.PayloadRoundTrip` | RESEARCHHHH/backend/threat_engine.py:15-17 | splitting the space-join of the `:02x` groups on single spaces and parsing each group gives back exactly the drawn bytes, in order |
| `ThreatEngine.GeneratePayload` | RESEARCHHHH/backend/threat_engine.py:15-17 | the payload of `n` drawn bytes has length `3n - 1` (0 for `n = 0`), a space at every third position and lower-case hex elsewhere; group `i` is the `:02x` form of byte `i`, and decoding the payload gives back exactly the drawn bytes, in order |
| `ThreatEngine.SpawnThreat` | RESEARCHHHH/backend/threat_engine.py:19-38 | the record has status "active" and dst "192.168.1.100", a score in [10,98], a type from `THREAT_TYPES` and a name from `CODENAMES`, an id of 8 upper-case hex digits, a 95-character payload that decodes to the 32 drawn bytes, and a source that is a dotted quad decoding to the drawn octets |
| `ThreatEngine.CharSet` | RESEARCHHHH/backend/threat_engine.py:42 | `set(payload)` holds exactly the characters that occur in the payload |
| `ThreatEngine.CharSetSize` | RESEARCHHHH/backend/threat_engine.py:42 | a non-empty string has between 1 and `len` distinct characters, and exactly `len` of them iff no character repeats |
| `ThreatEngine.PercentOfWhole` | RESEARCHHHH/backend/threat_engine.py:43 | a part of a whole, times 100, is in (0,100], and is 100 iff the part is the whole |
| `ThreatEngine.AnalyzeEntropy` | RESEARCHHHH/backend/threat_engine.py:40-43 | for a non-empty payload the ratio is in (0,100], and it is 100 exactly when all characters are distinct |
| `ThreatEngine.EntropyOfAabb` | RESEARCHHHH/backend/threat_engine.py:40-43 | "aabb" scores 50 |
| `Forge.ShortId` | RESEARCHHHH/frontend/rule_forge.py:14 | `uuid4().hex[:4].upper()` is four upper-case hex digits |
| `Forge.Fragment` | RESEARCHHHH/frontend/rule_forge.py:13 | the fragment holds no space, no lower-case letter and at most 12 characters, for any payload (no failure when it is short) |
| `Forge.FragmentOfShortPayload` | RESEARCHHHH/frontend/rule_forge.py:13 | a payload of at most 12 characters is taken whole without failing: the fragment's length is the payload's length minus its spaces, so every non-space character is kept |
| `Forge.Signature` | RESEARCHHHH/frontend/rule_forge.py:13-14 | the signature is `SIG_`, the fragment, `_` and four upper-case hex digits: 9 characters more than the fragment, with the fragment at offset 4 and the short id of the draw as its last four characters |
| `Forge.DeriveRule` | RESEARCHHHH/frontend/rule_forge.py:13-26 | succeeds iff the threat has a string `payload`, a `type` and a `src`; otherwise it fails with the first failing lookup, in the order payload (KeyError, then TypeError), type, src; a rule copies `type` and `src` unchanged and has a well-formed id, signature, action "DROP", priority in [100,999] and `created_at` "timestamp_now" |
| `Forge.DeriveRuleAsWritten` | RESEARCHHHH/frontend/rule_forge.py:13-24 | as written, compilation always raises; it raises NameError for `random` exactly when the threat has a string `payload`, a `type` and a `src` |
| `Forge.AsWrittenNeverCompiles` | RESEARCHHHH/frontend/rule_forge.py:24 | as written, compilation never yields a rule: where the intended code succeeds it raises NameError for `random`, and otherwise it raises the same exception as the intended code |
| `Forge.SameThreatSamePrefix` | RESEARCHHHH/frontend/rule_forge.py:13-21 | two compilations of one threat agree on type, source and the whole signature except its random 4-digit suffix |
| `Forge.RuleForge.constructor` | RESEARCHHHH/frontend/rule_forge.py:4-5 | a fresh forge has an empty ledger |
| `Forge.RuleForge.CompileRule` | RESEARCHHHH/frontend/rule_forge.py:7-29 | on success the ledger grows by exactly one, the old prefix is unchanged, and the returned rule is the new last element; on an exception the ledger is unchanged; every ledger entry stays well formed |
| `Forge.RuleForge.CompileRuleAsWritten` | RESEARCHHHH/frontend/rule_forge.py:24 | the code as written always raises, with NameError for `random` once the lookups succeed, and it does not touch the ledger |
| `Forge.RuleForge.ExportRulesJson` | RESEARCHHHH/frontend/rule_forge.py:31-33 | returns the ledger's contents, in insertion order, without changing it; every entry is well formed |
| `Forge.CompileTwice` | RESEARCHHHH/frontend/rule_forge.py:28 | compiling one threat twice on a fresh forge leaves two entries in call order (no deduplication), sharing type, source and signature prefix |
| `Forge.PayloadHead` | RESEARCHHHH/frontend/rule_forge.py:13 | the first 12 characters of a generated payload of 4 or more bytes are four groups with spaces between them, plus a trailing space when a fifth byte follows |
| `Forge.FragmentOfGeneratedPayload` | RESEARCHHHH/frontend/rule_forge.py:13 | because the slice comes before the strip, a generated payload of 4 or more bytes gives exactly 8 upper-case hex digits: the first four bytes |
| `Forge.RuleOfSpawnedThreat` | RESEARCHHHH/frontend/rule_forge.py:13-21 | compiling a spawned threat always succeeds and copies its type and source; the signature is `SIG_`, the first four payload bytes in upper-case hex, `_` and the suffix, 17 characters in all |
| `Forge.ExampleFragment` | RESEARCHHHH/frontend/rule_forge.py:13 | the payload "aa bb cc dd ee ff 00 11" gives the fragment "AABBCCDD" |
| `Forge.ExampleSignature` | RESEARCHHHH/frontend/rule_forge.py:13-21 | that payload compiles to signature `SIG_AABBCCDD_` plus the suffix, with its type and source copied |
| `Forge.ExampleAsWritten` | RESEARCHHHH/frontend/rule_forge.py:24 | as written, the threat with that payload, type "Virus" and source "10.0.0.1" raises NameError for `random` |

## Findings

| source | as written | input that shows it | evidently intended | confidence | as-written member | corrected member |
|---|---|---|---|---|---|---|
| RESEARCHHHH/frontend/rule_forge.py:24 | `random.randint(100, 999)` is called, but the module imports only `uuid` (line 1), so the name `random` is unbound and NameError is raised before the append at line 28 | any threat dict with a string `payload`, a `type` and a `src`, e.g. `{type: "Virus", payload: "aa bb cc dd ee ff 00 11", src: "10.0.0.1"}` or any threat `spawn_threat` returns | `import random`, so the priority is drawn from [100, 999] and the rule is appended and returned | high (not executed) | `Forge.AsWrittenNeverCompiles` | `Forge.RuleForge.CompileRule` |

For the payload "aa bb cc dd ee ff 00 11", `[:12]` comes before the strip, so the fragment is `AABBCCDD`. Stripping first would give `AABBCCDDEEFF` (`Forge.ExampleFragment`, `Forge.ExampleSignature`).

## Left out

- `RESEARCHHHH/frontend/app.py`: the Flask routes, `render_template` and `jsonify` are web plumbing and are not part of this model. `Forge.RuleOfSpawnedThreat` covers the one piece of wiring that matters: the compile endpoint compiles a freshly spawned threat.
- Randomness: there is no random number generator. Each draw is a parameter restricted to its range or list.
- UUID uniqueness: an id is unique only with high probability, and the model does not capture that. The UUID text shape, including the version and variant digits, is a precondition.
- `time.time()`: the timestamp is an opaque `real` that the record carries unchanged.
- `ThreatEngine.AnalyzeEntropy`: the ratio is computed exactly, as a `real`. IEEE-754 float rounding is not modelled. An empty payload raises ZeroDivisionError at threat_engine.py:43; the model requires a non-empty payload.
- `ThreatEngine.GeneratePayload`: the `length` argument is the length of the drawn byte sequence. A negative `length`, which Python treats as 0, is not a separate case.
- `Text.Upper`: only ASCII letters are case-mapped. Python's full Unicode case mapping is not modelled. Payloads and UUID text are ASCII.
- `Forge.DeriveRule`: dict values are only strings, integers and floats, which is what `spawn_threat` produces. A `None` payload, which `Value` does not represent, raises the same TypeError as an integer or a float. A list payload slices, then raises AttributeError at `.replace`, which is not modelled.
- `Forge.RuleForge.ExportRulesJson`: Python returns the live list object, so the caller can alias the ledger. The model returns a `seq` snapshot.
- The threat `status` moving from active to killed happens in the presentation layer, not in this core.
- Concurrency around the ledger: the source has none.
