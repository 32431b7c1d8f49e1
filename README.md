# fs2open: target box state, script type descriptors, pilot-file clamping, random ranges

A Dafny model of four small pieces of sequential logic from the FreeSpace 2
Open engine, with the properties each one promises proved about the model.

- **HUD target box** (`code/hud/hudtargetbox.cpp`).
  - `HudTargetBox` covers the non-drawing state of the gauge:
    - the target status classifier and its "flash on change" memory (`Current_ts`, `Last_ts`);
    - the per-item flash timers and the blink bits of `maybeFlashElement`;
    - the dock-status blink of the extra-target-data gauge;
    - the wireframe mode cycle;
    - how hull and subsystem fractions become the percentages shown.
  - `HudSubsysName` covers the subsystem name line:
    - the per-language abbreviation chain of `hud_targetbox_truncate_subsys_name`, as an ordered first-match rewrite;
    - the `strpbrk` loop that counts `'|'` line breaks;
    - the `strtok` loop that splits the name into lines.
- **Scripting type descriptors** (`code/scripting/ade_doc.cpp`). `AdeDoc` covers:
  - `ade_type_info` as a recursive datatype;
  - its constructors as functions that fix the tag and the shape of the element list;
  - the accessors;
  - `ade_overload_list`.
- **Pilot files** (`code/pilotfile/pilotfile.h`). `PilotFile` covers:
  - the file identifiers and versions;
  - the little-endian layout of the identifiers;
  - `clamp_value_with_warn`, with the exact text of the warning line it appends.
- **Random numbers** (`code/utils/Random.cpp`). `Random` covers:
  - the engine as an abstract stream of unsigned 32-bit draws, with a seed and a position;
  - `next()` masking a draw;
  - `next(modulus)` and `next(low, high)` reducing a draw with C++'s truncating `%`;
  - `seed` and `advance` moving the stream.

Time on the HUD is the mission clock. It is seen only through `timestamp(d)` and
`timestamp_elapsed(s)`, which are kept uninterpreted: `Clock` carries the two
as functions, one value per instant.

## Model

| member | source | states |
|---|---|---|
| `HudTargetBox.TargetStatus` | code/hud/hudtargetbox.cpp:2446-2456 | exactly one status results; DIS iff disabled or engine disrupted, otherwise OK iff integrity > 0.9, DMG iff 0.2 < integrity <= 0.9, CRT iff integrity <= 0.2 |
| `HudTargetBox.StatusFlashes` | code/hud/hudtargetbox.cpp:2458-2460 | an unchanged status never flashes, and neither does the first one after a reset (`Last_ts == -1`); a change from a real status always flashes |
| `HudTargetBox.StatusMonotoneInIntegrity` | code/hud/hudtargetbox.cpp:2449-2455 | for a working ship more hull never gives a worse status |
| `HudTargetBox.TargetBox.UpdateShipStatus` | code/hud/hudtargetbox.cpp:2441-2464 | in range the status is reclassified; out of range it is kept. The status flash starts only when a previous status exists and differs, and nothing else changes. On return `Last_ts == Current_ts` always |
| `HudTargetBox.TargetBox.InitFlash` | code/hud/hudtargetbox.cpp:1416-1424 | every flash timer becomes 1 and both statuses become -1 |
| `HudTargetBox.FirstUpdateAfterInitDoesNotFlash` | code/hud/hudtargetbox.cpp:1416-1424 | after init_flash, a status update leaves every flash timer at 1 (no status flash) and levels `Last_ts` with `Current_ts` |
| `HudTargetBox.TargetBox.InitFlashTimer` | code/hud/hudtargetbox.cpp:1405-1408 | only timer `index` changes, and it becomes 1 |
| `HudTargetBox.TargetBox.StartFlash` | code/hud/hudtargetbox.cpp:2472-2475 | only timer `index` changes, to `timestamp(duration)` |
| `HudTargetBox.TargetBox.EndFlash` | code/hud/hudtargetbox.cpp:2480-2483 | only timer `index` changes, to `timestamp(0)` |
| `HudTargetBox.TargetBox.constructor` | code/hud/hudtargetbox.cpp:100-117 | the statics start zeroed |
| `HudTargetBox.NextWire` | code/hud/hudtargetbox.cpp:1395-1400 | a mode in 0..2 moves to a different mode in 0..2; a mode of 2 or more wraps only at 2 |
| `HudTargetBox.WireframeCycle` | code/hud/hudtargetbox.cpp:1395-1400 | three switches return to the start for modes 0..2; a mode of 3 or more only grows |
| `HudTargetBox.TargetBox.SwitchWireframeMode` | code/hud/hudtargetbox.cpp:1395-1400 | `CurrentWire` moves to `NextWire` of its old value and stays in 0..2 if it was |
| `HudTargetBox.BitsDisjoint` | code/hud/hudtargetbox.cpp:1437 | the bits `1 << i` of distinct items do not overlap |
| `HudTargetBox.Toggle` | code/hud/hudtargetbox.cpp:1437 | `flags ^ (1 << index)` flips bit `index` |
| `HudTargetBox.Clear` | code/hud/hudtargetbox.cpp:379-380 | `flags & ~(1 << index)` clears bit `index` |
| `HudTargetBox.ToggleKeepsOtherBits` | code/hud/hudtargetbox.cpp:1437 | toggling one item's bit leaves every other item's bit unchanged |
| `HudTargetBox.ClearKeepsOtherBits` | code/hud/hudtargetbox.cpp:379-380 | clearing one item's bit leaves every other item's bit unchanged |
| `HudTargetBox.ToggleTwice` | code/hud/hudtargetbox.cpp:1437 | two toggles restore the flags |
| `HudTargetBox.BlinkInterval` | code/hud/hudtargetbox.cpp:1432-1436 | the blink half-period is positive: `TBOX_FLASH_INTERVAL`, or half of it when flashing fast |
| `HudTargetBox.TargetBoxGauge.constructor` | code/hud/hudtargetbox.cpp:209-216 | the gauge starts with zeroed toggle timers, all blink bits clear and wireframe mode 0 (initial values taken, see Left out) |
| `HudTargetBox.TargetBoxGauge.InitGaugeWireframe` | code/hud/hudtargetbox.cpp:326-329 | sets the mode that `initialize()` later selects, and nothing else |
| `HudTargetBox.TargetBoxGauge.InitFlashTimer` | code/hud/hudtargetbox.cpp:377-381 | only the item's next-toggle timer changes (to 1), and its bit is cleared |
| `HudTargetBox.TargetBoxGauge.Initialize` | code/hud/hudtargetbox.cpp:363-375 | every next-toggle timer becomes 1 and the five item bits are cleared, other bits unchanged; `CurrentWire` becomes the gauge's mode |
| `HudTargetBox.TargetBoxGauge.MaybeFlashElement` | code/hud/hudtargetbox.cpp:1426-1450 | only while the item still flashes and its toggle stamp has passed is bit `index` toggled and its timer rescheduled; otherwise nothing changes. Returns 1 iff the item still flashes and its bit is set |
| `HudTargetBox.ExtraTargetData.constructor` | code/hud/hudtargetbox.cpp:1475-1479 | the constructor runs `initDockFlashTimer`: both dock timers start at 1 and the dock line starts dim |
| `HudTargetBox.ExtraTargetData.InitDockFlashTimer` | code/hud/hudtargetbox.cpp:1652-1657 | both dock timers become 1 and the dock line is dim |
| `HudTargetBox.ExtraTargetData.StartFlashDock` | code/hud/hudtargetbox.cpp:1659-1662 | only the end-of-flash timer changes, to `timestamp(duration)` |
| `HudTargetBox.ExtraTargetData.EndFlashDock` | code/hud/hudtargetbox.cpp:1694-1697 | only the end-of-flash timer changes, to `timestamp(0)` |
| `HudTargetBox.ExtraTargetData.MaybeFlashDock` | code/hud/hudtargetbox.cpp:1664-1692 | the boolean twin of `maybeFlashElement`: toggles and reschedules only while flashing with the toggle stamp passed; returns 1 iff flashing and bright |
| `HudTargetBox.ExtraTargetData.DockStatusFrame` | code/hud/hudtargetbox.cpp:1617-1641 | a target change ends the dock flash; while docked the flash is restarted for 2000 ms and the blink advances; when not docked nothing is drawn bright |
| `HudTargetBox.LRound` | code/hud/hudtargetbox.cpp:1770 | `std::lround`: within one half of the argument, with the argument's sign |
| `HudTargetBox.HullPercentShown` | code/hud/hudtargetbox.cpp:1766-1775 | for x = integrity × 100: from 0.5 up, the integer `lround` gives (within a half, halves up); below 0.5 but positive, exactly 1; for x <= 0, the rounded value (halves away from zero), never positive |
| `HudTargetBox.LRoundMonotone` | code/hud/hudtargetbox.cpp:1770 | `lround` never decreases as its argument grows |
| `HudTargetBox.HullPercentMonotone` | code/hud/hudtargetbox.cpp:1766-1775 | more hull never shows a smaller percentage |
| `HudTargetBox.SubsysPercentShown` | code/hud/hudtargetbox.cpp:1800-1811 | never negative; 0 exactly when the raw percentage is <= 0; exactly 1 when it is positive but below 0.5; from 0.5 up, the nearest integer with halves rounded up |
| `HudTargetBox.SubsysPercentMonotone` | code/hud/hudtargetbox.cpp:1800-1811 | a stronger subsystem never shows a smaller percentage |
| `HudSubsysName.LowerChar` | code/hud/hudtargetbox.cpp:125 | `tolower` as used by `stricmp`: ASCII capitals move down by 32, nothing else changes |
| `HudSubsysName.Lower` | code/hud/hudtargetbox.cpp:125 | lower-cases each character, keeping the length |
| `HudSubsysName.EqualsIgnoreCase` | code/hud/hudtargetbox.cpp:125 | `stricmp(a, b) == 0`: equal lengths, and each pair of characters equal after `tolower` |
| `HudSubsysName.Contains` | code/hud/hudtargetbox.cpp:124 | `strstr(s, key) != NULL`: a key at the front always occurs, and in the empty name only the empty key does |
| `HudSubsysName.OccursAtContains` | code/hud/hudtargetbox.cpp:124 | a key found at some offset satisfies the `strstr` test |
| `HudSubsysName.ContainsAtOffset` | code/hud/hudtargetbox.cpp:124 | the `strstr` test holds iff the key sits at some offset of the name |
| `HudSubsysName.MissingCharRulesOut` | code/hud/hudtargetbox.cpp:124 | a key holding a character the name lacks never matches |
| `HudSubsysName.ContainsNeedsRoom` | code/hud/hudtargetbox.cpp:124 | a key longer than the name never matches |
| `HudSubsysName.IsNeedsLength` | code/hud/hudtargetbox.cpp:125 | `stricmp` equality needs equal lengths |
| `HudSubsysName.ActiveBranch` | code/hud/hudtargetbox.cpp:123-196 | German, French, Polish in that priority when built-in translations are on; the English branch otherwise |
| `HudSubsysName.Rewrite` | code/hud/hudtargetbox.cpp:122-207 | the result is the name or the replacement of one of the rules |
| `HudSubsysName.RewriteTakesFirstMatch` | code/hud/hudtargetbox.cpp:122-207 | the first matching rule of the chain decides the result |
| `HudSubsysName.RewriteKeepsUnmatched` | code/hud/hudtargetbox.cpp:122-207 | when no rule matches, the name is kept |
| `HudSubsysName.RewriteStopsBy` | code/hud/hudtargetbox.cpp:122-207 | once rule k matches, only rules 0..k can give the result |
| `HudSubsysName.SingleTestRule` | code/hud/hudtargetbox.cpp:124-127 | a link with one test fires iff that test holds |
| `HudSubsysName.Table` | code/hud/hudtargetbox.cpp:123-206 | the chain of the active branch: 3 links for the English branch, at least 8 for a translation |
| `HudSubsysName.GermanTable` | code/hud/hudtargetbox.cpp:124-151 | the 13 German links, in the order of the `if`/`else if` chain |
| `HudSubsysName.FrenchTable` | code/hud/hudtargetbox.cpp:152-169 | the 8 French links, in chain order |
| `HudSubsysName.PolishTable` | code/hud/hudtargetbox.cpp:170-197 | the 13 Polish links, in chain order |
| `HudSubsysName.DefaultTable` | code/hud/hudtargetbox.cpp:198-206 | the 3 English links, in chain order |
| `HudSubsysName.TruncateSubsysName` | code/hud/hudtargetbox.cpp:122-207 | the name comes back unchanged or as one abbreviation of the active branch |
| `HudSubsysName.TranslationsOpenAlike` | code/hud/hudtargetbox.cpp:124-127 | each built-in translation starts with the "communication" substring test and then the "weapons" whole-name test |
| `HudSubsysName.WeaponsRuleSecond` | code/hud/hudtargetbox.cpp:124-127 | a chain opening that way sends every spelling of "weapons" to its second rule |
| `HudSubsysName.WeaponsAbbreviated` | code/hud/hudtargetbox.cpp:126-127 | "weapons" in any letter case becomes the translation's weapons abbreviation ("Waffen" in German) |
| `HudSubsysName.FrenchMissileNeverTurret` | code/hud/hudtargetbox.cpp:162-168 | a French name mentioning "missile" is never called "tourelle", because the missile rule comes first |
| `HudSubsysName.FrenchEarlyRulesMiss` | code/hud/hudtargetbox.cpp:152-161 | a name without 'c' or 'n' and not of length 7 escapes the five French rules before the missile rule |
| `HudSubsysName.FrenchMissileRuleFirst` | code/hud/hudtargetbox.cpp:152-163 | such a name mentioning "missile" matches the missile rule and none before it |
| `HudSubsysName.FrenchMissileRuleDecides` | code/hud/hudtargetbox.cpp:162-163 | then the missile rule decides: "lanceur de missiles" |
| `HudSubsysName.FrenchMissileLauncher` | code/hud/hudtargetbox.cpp:152-163 | such a name becomes "lanceur de missiles" |
| `HudSubsysName.MissileTurretShape` | code/hud/hudtargetbox.cpp:162 | "missile turret" contains "missile", has no 'c' or 'n', and has 14 characters |
| `HudSubsysName.FrenchMissileTurret` | code/hud/hudtargetbox.cpp:162-168 | French "missile turret" becomes "lanceur de missiles", not "tourelle" |
| `HudSubsysName.FindBar` | code/hud/hudtargetbox.cpp:1821 | `strpbrk` for '\|': the first bar at or after the start, or the end when there is none |
| `HudSubsysName.NoBarsBetween` | code/hud/hudtargetbox.cpp:1824-1827 | a stretch without bars adds nothing to the bar count |
| `HudSubsysName.CountLinebreaks` | code/hud/hudtargetbox.cpp:1817-1828 | the loop counts exactly the '\|' characters of the name |
| `HudSubsysName.SplitOn` | code/hud/hudtargetbox.cpp:1840-1846 | the pieces between separators hold no separator, and there is at least one |
| `HudSubsysName.SplitOnCount` | code/hud/hudtargetbox.cpp:1840-1846 | there is one piece more than there are separators |
| `HudSubsysName.SplitCons` | code/hud/hudtargetbox.cpp:1840-1846 | a leading non-separator joins the first piece |
| `HudSubsysName.JoinPrepend` | code/hud/hudtargetbox.cpp:1840-1846 | growing the first piece grows the joined text at its front |
| `HudSubsysName.JoinSplit` | code/hud/hudtargetbox.cpp:1840-1846 | joining the pieces with the separator gives the name back |
| `HudSubsysName.NoSeparatorOnePiece` | code/hud/hudtargetbox.cpp:1847-1849 | a name without the separator is a single piece |
| `HudSubsysName.NonEmpty` | code/hud/hudtargetbox.cpp:1840-1846 | keeps only non-empty pieces, never more than there were |
| `HudSubsysName.NonEmptyKeepsPieces` | code/hud/hudtargetbox.cpp:1840-1846 | only pieces that were there are kept |
| `HudSubsysName.NonEmptyConcat` | code/hud/hudtargetbox.cpp:1840-1846 | dropping empty pieces distributes over concatenation |
| `HudSubsysName.Tokens` | code/hud/hudtargetbox.cpp:1840-1846 | what `strtok` yields: non-empty, bar-free lines, at most one more than the bars |
| `HudSubsysName.Strip` | code/hud/hudtargetbox.cpp:1840-1846 | the name without its bars holds no bar |
| `HudSubsysName.ConcatNonEmpty` | code/hud/hudtargetbox.cpp:1840-1846 | dropping empty pieces loses no character |
| `HudSubsysName.ConcatSplit` | code/hud/hudtargetbox.cpp:1840-1846 | the pieces hold exactly the non-bar characters, in order |
| `HudSubsysName.TokensKeepEveryCharacter` | code/hud/hudtargetbox.cpp:1840-1846 | the lines shown are the name's non-bar characters, none lost, duplicated or reordered |
| `HudSubsysName.SplitPrefix` | code/hud/hudtargetbox.cpp:1840-1846 | a bar-free prefix glues onto the first piece of what follows |
| `HudSubsysName.LeadingBarSkipped` | code/hud/hudtargetbox.cpp:1840-1846 | `strtok` skips a leading bar |
| `HudSubsysName.TokenThenRest` | code/hud/hudtargetbox.cpp:1840-1846 | a run of non-bars up to a bar or the end is the next token |
| `HudSubsysName.SplitLines` | code/hud/hudtargetbox.cpp:1840-1846 | the `strtok` loop emits exactly the tokens in order; the k-th line is lifted by `n_linebreaks - k` |
| `HudSubsysName.SubsysNameLines` | code/hud/hudtargetbox.cpp:1813-1850 | with bars: the tokens, lifted by the bars still to come, and no abbreviation; without: the one abbreviated line |
| `AdeDoc.TupleOf` | code/scripting/ade_doc.cpp:7-11 | a tuple of at least one element, with exactly the given elements |
| `AdeDoc.FromCString` | code/scripting/ade_doc.cpp:12-29 | null gives Empty; any other string gives Simple with that identifier and no elements |
| `AdeDoc.FromString` | code/scripting/ade_doc.cpp:30-42 | "" gives Empty; a non-empty string gives Simple with that identifier |
| `AdeDoc.FromArray` | code/scripting/ade_doc.cpp:43-46 | an array with exactly one element, the element type, which `arrayType()` returns |
| `AdeDoc.FromMap` | code/scripting/ade_doc.cpp:47-50 | a map whose elements are exactly `[key, value]` |
| `AdeDoc.FromIterator` | code/scripting/ade_doc.cpp:51-54 | an iterator with exactly one element, the element type |
| `AdeDoc.FromAlternative` | code/scripting/ade_doc.cpp:55-58 | an alternative whose elements are exactly the alternatives |
| `AdeDoc.FromFunction` | code/scripting/ade_doc.cpp:59-66 | element 0 is the return type and elements 1.. the arguments in order; length is arguments + 1 |
| `AdeDoc.FunctionRoundTrip` | code/scripting/ade_doc.cpp:59-66 | the function record can be read back from the elements |
| `AdeDoc.TypeInfo.IsEmpty` | code/scripting/ade_doc.cpp:71 | a well-formed empty type has no identifier and no elements |
| `AdeDoc.TypeInfo.IsTuple` | code/scripting/ade_doc.cpp:72 | a well-formed tuple has no identifier and at least one element |
| `AdeDoc.TypeInfo.IsSimple` | code/scripting/ade_doc.cpp:73 | a well-formed simple type has no elements and no comma in its identifier |
| `AdeDoc.TypeInfo.IsArray` | code/scripting/ade_doc.cpp:74 | a well-formed array has no identifier and exactly one element, so `arrayType()` applies |
| `AdeDoc.TypeInfo.IsAlternative` | code/scripting/ade_doc.cpp:75 | a well-formed alternative has no identifier |
| `AdeDoc.TypeInfo.Elements` | code/scripting/ade_doc.cpp:76 | every element of a well-formed descriptor is well formed |
| `AdeDoc.TypeInfo.GetIdentifier` | code/scripting/ade_doc.cpp:77 | holds no comma, and is empty unless the type is simple |
| `AdeDoc.TypeInfo.GetType` | code/scripting/ade_doc.cpp:78 | the empty and simple kinds carry no elements |
| `AdeDoc.TypeInfo.GetName` | code/scripting/ade_doc.cpp:81 | renaming to the current name changes nothing |
| `AdeDoc.TypeInfo.ArrayType` | code/scripting/ade_doc.cpp:79 | `arrayType()` is the first element |
| `AdeDoc.TypeInfo.SetName` | code/scripting/ade_doc.cpp:82 | only the name changes |
| `AdeDoc.SetNameKeepsWellFormed` | code/scripting/ade_doc.cpp:81-82 | renaming keeps every shape invariant |
| `AdeDoc.KindTestsAreExclusive` | code/scripting/ade_doc.cpp:71-75 | each `is*` test holds iff the tag is its own; at most one holds |
| `AdeDoc.StringConstructorsDifferOnlyOnEmpty` | code/scripting/ade_doc.cpp:12-42 | the two string constructors agree except on "", which `const char*` keeps Simple |
| `AdeDoc.OverloadsOf` | code/scripting/ade_doc.cpp:107 | one overload, the given argument list |
| `AdeDoc.OverloadsFromList` | code/scripting/ade_doc.cpp:108 | the overloads in the given order |
| `AdeDoc.NoOverloads` | code/scripting/ade_doc.cpp:109-110 | a single null overload |
| `PilotFile.LittleEndian` | code/pilotfile/pilotfile.h:17-18 | four bytes per identifier |
| `PilotFile.LittleEndianRoundTrip` | code/pilotfile/pilotfile.h:17-18 | reading back the written bytes gives the identifier |
| `PilotFile.FromLittleEndianRoundTrip` | code/pilotfile/pilotfile.h:17-18 | writing a read identifier gives the bytes back |
| `PilotFile.AsText` | code/pilotfile/pilotfile.h:17-18 | bytes read as characters, one for one |
| `PilotFile.FileIdsSpellTags` | code/pilotfile/pilotfile.h:17-18 | on disk `PLR_FILE_ID` spells "PLR_" and `CSG_FILE_ID` spells "CSG_" |
| `PilotFile.InvalidVersionIsDistinct` | code/pilotfile/pilotfile.h:29-43 | `PLR_VERSION_INVALID` differs from both current versions |
| `PilotFile.DigitChar` | code/pilotfile/pilotfile.h:178 | a decimal digit character for each value 0..9 |
| `PilotFile.NatToString` | code/pilotfile/pilotfile.h:178 | only digits, no leading zero |
| `PilotFile.IntToString` | code/pilotfile/pilotfile.h:178 | `std::to_string`: digits and a minus sign, never a newline |
| `PilotFile.NatToStringRoundTrip` | code/pilotfile/pilotfile.h:178 | the digits read back as the number |
| `PilotFile.IntToStringRoundTrip` | code/pilotfile/pilotfile.h:178 | the numbers in a warning read back exactly |
| `PilotFile.Clamped` | code/pilotfile/pilotfile.h:176-184 | below min gives min; otherwise above max gives max; otherwise the value is kept; with min <= max the result is in range |
| `PilotFile.NewlineFreeConcat` | code/pilotfile/pilotfile.h:178 | gluing newline-free texts gives a newline-free text |
| `PilotFile.WarningHead` | code/pilotfile/pilotfile.h:178-181 | `: too <how> (`: the word `how` sits at offset 6 and eight characters surround it; no newline unless `how` has one |
| `PilotFile.WarningTail` | code/pilotfile/pilotfile.h:178-181 | starts with the offending value as `std::to_string` writes it; no newline unless the bound's name has one |
| `PilotFile.TailHasNoNewline` | code/pilotfile/pilotfile.h:178-181 | the fixed words and the two numbers of a warning's tail add no newline |
| `PilotFile.LineShape` | code/pilotfile/pilotfile.h:178-181 | name, head, tail and "\n" make exactly one line starting with the name and head |
| `PilotFile.WarningLine` | code/pilotfile/pilotfile.h:178-181 | starts with the name and ": too <how> (", ends with the only newline |
| `PilotFile.ClampWarning` | code/pilotfile/pilotfile.h:176-184 | empty iff in range; otherwise one line, "too low" when below min, "too high" when above max |
| `PilotFile.ClampIdempotent` | code/pilotfile/pilotfile.h:176-184 | with min <= max a second clamp keeps the value and adds no warning |
| `PilotFile.InvertedBoundsAreNotIdempotent` | code/pilotfile/pilotfile.h:176-184 | with min > max a low value is reset to min and a second clamp moves it to max |
| `PilotFile.Pilotfile.constructor` | code/pilotfile/pilotfile.h:174 | the warnings start empty |
| `PilotFile.Pilotfile.ClampValueWithWarn` | code/pilotfile/pilotfile.h:176-184 | the value written back is `Clamped`; the warnings grow by exactly `ClampWarning`, so old text is a prefix; in range nothing changes |
| `Random.CRem` | code/utils/Random.cpp:54 | C++ `%`: the remainder takes the dividend's sign and its magnitude is the magnitudes' remainder |
| `Random.Masked` | code/utils/Random.cpp:22-25 | `& MAX_VALUE` keeps the draw in [0, MAX_VALUE]: a small draw unchanged, a large one less 2^31 |
| `Random.ReduceModulus` | code/utils/Random.cpp:50-55 | in [0, modulus), the draw's remainder, the draw itself when smaller |
| `Random.SmallRemainder` | code/utils/Random.cpp:54 | a value below the modulus is its own remainder |
| `Random.ReduceRange` | code/utils/Random.cpp:57-63 | in [low, high], offset from low by the draw's remainder, low when low == high |
| `Random.RandomImpl.Peek` | code/utils/Random.cpp:22-25 | the k-th upcoming value, as `next()` would return it, is in [0, MAX_VALUE] |
| `Random.RandomImpl.constructor` | code/utils/Random.cpp:33-36 | a fresh engine starts at the default seed, position 0 |
| `Random.RandomImpl.Seed` | code/utils/Random.cpp:15-20 | restarts the stream from the seed |
| `Random.RandomImpl.Next` | code/utils/Random.cpp:22-25 | returns the masked current draw and consumes exactly one |
| `Random.RandomImpl.Advance` | code/utils/Random.cpp:27-30 | skips exactly `distance` draws |
| `Random.Seed` | code/utils/Random.cpp:39-43 | a positive seed restarts the stream: the upcoming values are the seed's stream from its start |
| `Random.Next` | code/utils/Random.cpp:45-48 | one masked draw in [0, MAX_VALUE], one draw consumed |
| `Random.NextModulus` | code/utils/Random.cpp:50-55 | in [0, modulus), `ReduceModulus` of the next value, one draw consumed |
| `Random.NextRange` | code/utils/Random.cpp:57-63 | in [low, high], `ReduceRange` of the next value, one draw consumed |
| `Random.Advance` | code/utils/Random.cpp:65-68 | skips exactly `distance` draws |
| `Random.SeedAdvanceNext` | code/utils/Random.cpp:39-68 | equal seeds give equal draws; after `advance(d)` the next draw is draw d of the fresh stream, the one reached by d single draws |

## Left out

- Everything the target box draws is left out: bitmaps, models, text placement, colours (`setGaugeColor`), the target static and its sounds, the debug overlay, cargo-scan geometry and time-to-impact arithmetic. Only the state and the text behind them are modelled.
- The line positions on screen are left out: the model gives each subsystem-name line only its lift, the number of bars still to come. With empty pieces, as in `a||b`, fewer lines than `n_linebreaks + 1` are printed, and the bottom line is then not at lift 0.
- `timestamp` and `timestamp_elapsed` (the io timer) are uninterpreted functions of a `Clock` value. Their arithmetic and wrap-around are left out.
- Floating point is modelled as exact reals: `Pl_target_integrity`, the hull and subsystem percentages, and `std::lround` (halves away from zero). `fl2i(TBOX_FLASH_INTERVAL/2.0f)` is the integer half of 200.
- The header `hud/hudtargetbox.h` is not part of this model. Its values are taken as:
  - five flash items, numbered 0..4;
  - `TBOX_FLASH_DURATION` = 1400;
  - `TBOX_FLASH_INTERVAL` = 200;
  - a default `flash_fast` of 0.
- `MAX_SHIPS` and the `Ships[]` table are not part of this model. `UpdateShipStatus` takes the slot, the table size and the ship's flags as parameters. `ship_subsys_get_name_on_hud`, `object_is_docked` and the docking queries become inputs.
- `HudSubsysName.TruncateSubsysName`: the `strcpy` into the caller's fixed-size buffer is modelled as returning the new text. Buffer sizes and `sprintf` truncation are left out, as is `XSTR` translation of the English keys, which are taken as written.
- `HudTargetBox.TargetBoxGauge.constructor`: the constructor (code/hud/hudtargetbox.cpp:209-216) sets no blink state and no wireframe mode. Their initial values come from `hud/hudtargetbox.h`, which is not part of this model, so they are taken as zero.
- `HudTargetBox.ExtraTargetData.DockStatusFrame`: only the first toggle after a restart is stated in its contract. Later frames follow from `MaybeFlashDock`.
- The docked text (`Docked: %s`), `force_fit_string` and the bracket bitmap are left out.
- `Random.RandomImpl`: the Mersenne Twister itself is an abstract function from (seed, index) to an unsigned 32-bit draw. `MAX_VALUE` is taken as `INT_MAX`, because `utils/Random.h` is not part of this model. The default seed 5489 is the standard engine's.
- `Random.NextRange`: `high - low + 1` is computed exactly. The 32-bit overflow of that `int` subtraction for extreme bounds is not modelled.
- `Random` global state: the single global engine is passed as an object; the unsigned wrap of `seed(unsigned int)` is a precondition of the value range.
- `PilotFile.Pilotfile.ClampValueWithWarn`: the template is modelled for `int` only, and the write through `*value` becomes the returned value. Floating-point instantiations are left out.
- Pilot and campaign file reading, writing and verification are left out (file I/O, declared only).
- `code/ai/ai.h` and `code/scripting/api/objs/luaaisexp.cpp` are not part of this model. They hold declarations and Lua binding glue whose implementations are not visible.
- The `ade_type_info` move constructor and move assignment (code/scripting/ade_doc.cpp:68-69) are value copies in Dafny and need no model. `getIdentifier()` returns the identifier as a string, not a C pointer.
- The `Assertion`s of `ade_doc.cpp` become preconditions (no comma in a simple type's identifier, at least one tuple element).
- The `Assert`s of `Random.cpp` likewise become preconditions (positive seed, modulus > 1, positive range).

## Notes on the source

- The `const char*` constructor of `ade_type_info` (code/scripting/ade_doc.cpp:12-29) gives the Empty type only for a null pointer. An empty but non-null string gives a Simple type with an empty identifier. The `SCP_string` constructor (lines 30-42) gives Empty for "". The model follows the code here, which differs from a reading in which both constructors treat "" as Empty. `StringConstructorsDifferOnlyOnEmpty` states the difference.
- `hud_targetbox_init_flash` (code/hud/hudtargetbox.cpp:1416-1424) resets only the module-level timers and statuses. The per-gauge blink state has its own reset (`initFlashTimer`, `initDockFlashTimer`).
