# Drill-hole intercept engine

This project is a Dafny model of the calculation core of a tool that turns
drill-hole assay records into mining intercepts. An intercept is a stretch
of a hole where an element's grade stays at or above a cutoff, allowing a
bounded number of lower readings inside it.

The model covers:

- the data model (`Hole.py`): assay units; assay types, whose identity is
  element plus base unit; depth intervals with their assay values; and the
  per-hole interval container;
- the container's start-ordered, stable sort and its split into maximal
  physically adjacent runs;
- the cutoff scan of one run (`library.py`, `calculate_intercepts_from_group`):
  the gap counter, the collecting flag, and missing values;
- the trimming of each closed group's trailing low tail;
- the length-weighted aggregation of a group into an intercept, with its
  co-analyte sums;
- unit conversion, and parsing of unit text and assay types;
- the element-name lexer rule and the two-token header check
  (`ElementParser.py`).

Modules, one file each:

- `Wrappers` (`wrappers.dfy`): `Option` and `Result`.
- `Sequences` (`sequences.dfy`): flattening a list of groups, and ascending
  order.
- `Hole` (`hole.dfy`): units, assay identity, `IntervalData`, sorting, run
  partition, and the `HoleData` class.
- `Units` (`units.dfy`): the conversion table, `convert_unit`,
  `unit_text_to_type` and `try_parse_to_assay_type`.
- `Engine` (`engine.dfy`): trimming, aggregation, and the scan.
  - The source's loops are methods.
  - Each method is proved equal to a specification function:
    `KeptLength`, `Aggregate`, `CutoffGroups` and `InterceptsOf`.
  - The scan is specified by run positions: `Step` is one loop iteration;
    `ScanPrefix` folds it over the first n positions; `IndexGroups` adds the
    final close.
- `EngineProperties` (`engine_properties.dfy`): what the emitted groups
  satisfy (order, coverage, partition, shape) and worked examples.
- `InterceptProperties` (`intercept_properties.dfy`): what an intercept
  reports, and when a whole run aggregates without an error.
- `ElementParser` (`element_parser.dfy`): the character stream, the
  element-name rule and `TryParse`.

Python exceptions are modelled as `Failure` values:

- `KeyError` for an interval without the primary assay becomes
  `MissingAssay`.
- `ZeroDivisionError` for a zero-length or empty group becomes
  `ZeroDivision`.
- `ValueError` from the unit functions becomes `InvalidUnits` or
  `UnsupportedUnit`.

Floating-point numbers are modelled as `real`.

## Model

| member | source | states |
|---|---|---|
| Hole.EqualsIsIdentity | Hole.py:11-17 | Two assay types are equal exactly when element and base unit agree; the reported unit plays no part, and equal types have equal hash strings. |
| Hole.HashAgreesWithEquality | Hole.py:16-17 | Two assay types have the same hash string (element followed by unit name) if and only if they are equal: no element/unit concatenation collides with another. |
| Hole.SpanEnds | Hole.py:33-37 | `start` and `end` are the span's first and second entries: an interval is rebuilt exactly from its start, its end and its assay data. |
| Hole.IntervalData.Length | Hole.py:39-40 | start + length = end. |
| Hole.IntervalData.GetAssay | Hole.py:42-47 | A value comes back iff the type's identity is recorded, and it is the recorded value; every assay type equal to the requested one finds the same value. |
| Hole.IntervalData.ConcentrationMetres | Hole.py:55-56 | Defined exactly when the assay is recorded (otherwise the lookup raises); then it is value × (end − start). |
| Hole.SortByStart | Hole.py:74 | The sort `get_intervals` returns is ascending by start and is a permutation of the stored intervals. |
| Hole.SortByStartStable | Hole.py:74 | The sort is stable: the intervals sharing any one start keep their stored order. |
| Hole.GroupContiguous | Hole.py:76-94 | The groups concatenate to the sorted input, none is empty, each interval in a group starts exactly where the previous one ends, and at every group boundary it does not; empty input gives no groups. |
| Hole.RunPartitionUnique | Hole.py:76-94 | Only one list of groups has those properties, so the grouping is the maximal-run partition and nothing else. |
| Hole.HoleData.constructor | Hole.py:58-61 | A new hole has its ID and no interval list. |
| Hole.HoleData.WithIntervals | Hole.py:58-61 | A hole built with the optional interval list given has that ID and exactly that list, absent or not. |
| Hole.HoleData.Add | Hole.py:63-68 | The interval is appended after the stored ones, creating the list when it is absent; earlier intervals are unchanged. |
| Hole.HoleData.GetIntervals | Hole.py:70-74 | Creates the list when absent, leaves the stored order alone and returns a start-ascending, stable permutation of it. |
| Hole.HoleData.GroupContiguousIntervals | Hole.py:76-94 | Returns the maximal contiguous-run partition of the sorted intervals; a hole without intervals gives no groups. |
| Units.Factor | library.py:175-180 | Every unit except PPT has a positive factor; PPT has none. |
| Units.ConvertUnit | library.py:173-192 | Fails with "invalid units" exactly when either unit is PPT; otherwise the result y satisfies y × factor(to) = value × factor(from). |
| Units.ConvertSameUnit | library.py:186-190 | Converting a value to its own unit returns it unchanged. |
| Units.ConvertRoundTrip | library.py:173-192 | Converting from a to b and back gives the value back. |
| Units.PpbFactorInverted | library.py:175-180 | The table as written: 1 % converts to 10000 ppm, which keeps the mass fraction, but 1000 ppb converts to 1 000 000 ppm, which does not. |
| Units.IntendedFactor | library.py:175-180 | The corrected table: every factor times the ppm mass fraction is the unit's own mass fraction. |
| Units.ConvertUnitIntended | library.py:173-192 | The corrected conversion has the same error cases and scaling relation as `convert_unit`, over the corrected table. |
| Units.ConvertUnitIntendedPreservesMassFraction | library.py:173-192 | Every corrected conversion keeps the mass fraction the value stands for; 1000 ppb becomes 1 ppm. |
| Units.UnitTextToType | library.py:194-208 | Succeeds iff the lower-cased text is "%", "ppm", "ppb" or "g/t"; the unit it returns is written as that text and is never PPT; otherwise it fails naming the lower-cased text. |
| Units.UnitTextCaseInsensitive | library.py:196 | Parsing any spelling gives the same outcome as parsing its lower-cased form. |
| Units.UnitTextRoundTrip | library.py:194-208 | Every unit except PPT parses back from its own text, and "ppt" is refused. |
| Units.TryParseToAssayType | library.py:210-215 | Succeeds iff both unit texts parse; then it keeps the element, with both units as the texts name them; otherwise the base unit's error is reported first, then the reported unit's. |
| Engine.KeptLength | library.py:60-73 | The kept prefix ends on a value not below the threshold; every entry after it is missing, zero or below the threshold. |
| Engine.KeptLengthUnique | library.py:60-73 | Any cut point with those two properties is the one trimming chooses. |
| Engine.RemoveTailBelowThreshold | library.py:60-73 | Returns a prefix of the group: the dropped tail is all missing, zero or below the threshold, the last kept interval is not, and its length is `KeptLength` of the group's values. |
| Engine.CalculateIntercept | library.py:75-98 | The result equals `Aggregate`: MissingAssay if any interval lacks the primary assay, ZeroDivision if the total length is zero, otherwise the weighted concentration, the total length, the first span and the co-analyte sums. |
| Engine.CutoffScan | library.py:102-144 | The loop's closed groups, plus the final trimmed open group, equal `CutoffGroups`: the scan specification applied to the run's values and mapped back to intervals. |
| Engine.CalculateInterceptsFromGroup | library.py:101-146 | The result equals `InterceptsOf(CutoffGroups(...))`: the groups' intercepts in scan order, or the error of the first group that fails to aggregate. |
| EngineProperties.BelowIffNotQualifies | library.py:116-121 | For a positive cutoff, the trimming test (missing, zero or below) is exactly the negation of the scan's membership test (missing reads as −1). |
| EngineProperties.KeptLengthIdempotent | library.py:60-73 | Trimming an already trimmed list removes nothing. |
| EngineProperties.TrimKeepsQualifying | library.py:60-73 | For a positive cutoff, trimming never drops an interval at or above the cutoff. |
| EngineProperties.IndexGroupsOrdered | library.py:101-146 | The emitted groups list run positions in increasing order across and within groups, so no interval is in two groups or twice in one. |
| EngineProperties.IndexGroupsGood | library.py:120-144 | For a positive cutoff, every emitted group is non-empty, starts and ends at or above the cutoff, holds at most two sub-cutoff intervals, and has no missing value. |
| EngineProperties.IndexGroupsCover | library.py:101-146 | For a positive cutoff, every interval at or above the cutoff lands in some emitted group. |
| EngineProperties.IndexGroupsPartition | library.py:101-146 | For a positive cutoff, every interval at or above the cutoff appears in exactly one group, at exactly one place. |
| EngineProperties.IndexGroupsNoMissing | library.py:116-121 | For a positive cutoff, every position in an emitted group lies in the run and carries a value. |
| EngineProperties.SkippedInNoGroup | library.py:116-140 | An interval below the cutoff that the scan meets while not collecting, or whose value is missing, is skipped: no emitted group holds it, for any cutoff. |
| EngineProperties.MissingValueStep | library.py:116-118 | A missing value only clears the collecting flag; it neither joins nor closes the open group. |
| EngineProperties.ScanExampleThreeGaps | library.py:124-133 | Values 5,5,0,0,0,5 at cutoff 3 give groups [0,1] and [5]: the third gap closes the group and the trailing zeros are trimmed. |
| EngineProperties.ScanExampleTwoGaps | library.py:124-139 | Values 5,1,1,5 at cutoff 3 form one group of all four intervals. |
| EngineProperties.ScanExampleMissing | library.py:116-140 | Values 5, missing, 1, 5 at cutoff 3 give the single group [0,3]: the missing value does not split the group, and the value after it is skipped. |
| EngineProperties.ScanExampleZeroCutoff | library.py:143-144 | With cutoff 0, a single zero reading opens a group that trimming empties, and its aggregation raises a division by zero. |
| InterceptProperties.ConcentrationWithinRange | library.py:83-98 | For a successful aggregation over forward intervals, the distance is the positive total length and the concentration lies between the least and greatest primary value. |
| InterceptProperties.UniformConcentration | library.py:83-98 | A group with one value throughout reports that value. |
| InterceptProperties.CoAnalyteKeys | library.py:85-87 | The co-analyte dictionary has a key exactly for each requested co-analyte identity. |
| InterceptProperties.CoAnalyteEntry | library.py:93-96 | An entry is the group's value × length sum multiplied by the number of times its identity was requested. |
| InterceptProperties.CoAnalyteAbsent | library.py:93-96 | If no interval records a co-analyte, its entry is 0. |
| InterceptProperties.InterceptsSucceed | library.py:101-146 | With a positive cutoff and intervals of positive length, no emitted group raises, and one intercept comes back per group. |
| ElementParser.NameRunEnd | ElementParser.py:16-20 | The end of the run of name characters (alphanumeric, '(' or ')') that starts at a position: all characters before it continue a name, and the one at it does not, or the input has ended. |
| ElementParser.CharacterStream.Peek | ElementParser.py:8 | The next character, or None at the end of the input. |
| ElementParser.CharacterStream.Pop | ElementParser.py:13 | Returns the next character and advances by one. |
| ElementParser.Match | ElementParser.py:6-22 | Raises at the end of the input; consumes nothing and matches nothing unless the next character is alphanumeric or '('; otherwise consumes the longest run of name characters and returns it as a "symbol" token. |
| ElementParser.MatchedNameShape | ElementParser.py:6-22 | A matched name is non-empty, keeps its first character, and consists of name characters only. |
| ElementParser.TryParse | ElementParser.py:39-50 | Returns (symbol text, unit text) iff the lexer succeeds with exactly two tokens, a "symbol" followed by a "UNIT"; a lexer error or any other token list gives None. |
| ElementParser.TryParseShape | ElementParser.py:44-50 | A symbol then a unit parses; the swapped order, or a third token, does not. |

## Left out

The version of `Hole.py` modelled here is older than the code that uses it:
- Its `AssayUnit` has no `GPT` member. `library.py:179` and `library.py:204` use `AssayUnit.GPT`, so the model includes it.
- Its `AssayType` has no reported unit. `library.py:215` passes one, so the model's `AssayType` carries `reportedUnit`. It is display-only and excluded from equality and hashing.
- It has no `get_unique_id`. The model keys assay dictionaries by `AssayType.Id()`, which is element plus base unit; that is what equality and hashing use.
- It defines no `Intercept` class. The model's `Engine.Intercept` holds the five values `calculate_intercept` passes.

A missing value does not split a group: in `library.py:116-140` it only clears the collecting flag and compares as −1, and `EngineProperties.ScanExampleMissing` shows a group that continues across one. `convert_unit` has no same-unit shortcut, and `GPT` is in its factor table; the model follows the code in both cases.

- Engine.CalculateInterceptsFromGroup: aggregates each group after the scan rather than at the moment the group closes. The scan cannot fail, so the outcome, including which error comes first, is the same.
- Engine.CalculateInterceptsFromGroup: the `co_analytes = None` default is not modelled. With `None` the first aggregation raises a `TypeError`, and with no groups the result is empty. The model takes a sequence of co-analytes.
- Hole.HoleData.WithIntervals: the list passed in is held as a value. In Python the hole would share the caller's list, so appends made through either reference would show in both; that aliasing is not modelled.
- The negative-value branch (`library.py:112-114`) has no effect and is not modelled.
- `CharacterStream` belongs to the external lexer library. Only its `peek` and `pop` are modelled, as the rule uses them. `pop` at the end of the input is never reached by the rule and is excluded by precondition.
- ElementParser.TryParse: the lexer (`DefaultLexer` with the `WordRule`, `CharacterRule` and `IgnoreRule` rules) is an external library, not part of this model. Its outcome is a parameter: a token list, or None for an exception.
- ElementParser.Match: `str.isalnum` is modelled for ASCII letters and digits only, and `lower` is ASCII lower-casing; non-ASCII characters are not modelled.
- Floating point is modelled by reals: rounding in the sums, the division and the conversion factors is not modelled.
- Hole.HashAgreesWithEquality: states its property for the string that is hashed; Python's string hash function and its collisions are not modelled.
- CSV ingestion, header caching, the configuration editor, file hashing, logging and the GUI are I/O and presentation, and are not modelled.

## Findings

| source | as written | input that shows it | evidently intended | confidence | as-written member | corrected member |
|---|---|---|---|---|---|---|
| library.py:177 | PPB factor is 1000, so `ppm_value = value * 1000` multiplies parts per billion up instead of down | `convert_unit(1000, PPB, PPM)` gives 1 000 000, while 1000 ppb is 1 ppm | factor 1/1000 (ppm per ppb), as the Percent factor 10000 is ppm per percent | not executed | Units.PpbFactorInverted | Units.ConvertUnitIntendedPreservesMassFraction |
