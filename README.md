# ValtriaPyTools core, modelled in Dafny

ValtriaPyTools is a pyRevit extension for Autodesk Revit. This project models the parts of it
that compute something instead of only calling into Revit:

- **ClashCheck**, the MEP/structure interference check (`analyze_clashes`). Every MEP element
  is paired with every structural element. The MEP bounding box is grown by the tolerance and
  tested against the structural box with six strict comparisons. Each hit goes into the
  *critical*, *warning* or *check* bucket by the distance between the two box centres, with
  limits of 25 mm and 50 mm. The CSV export then numbers the rows `CLASH_00001`, `CLASH_00002`,
  … across the three buckets in turn (`export_clashes_to_csv`).
- **Unit conversions**: millimetres to feet, feet to metres and feet to millimetres. Each
  returns 0.0 when its input is not a number. ClashCheck has its own fallbacks without that
  guard.
- **The union of visible bounding boxes** (`get_all_visible_model_boundingbox`), kept
  coordinate by coordinate.
- **`_RevitContext`**, the lazily resolved and cached Revit handles: UI application, active
  UI document, document and application. The accessors `refresh_revit_context` and
  `get_uiapp`/`get_app`/`get_uidoc`/`get_doc` are modelled with it.
- **Three text helpers**:
  - `_collect_columns`: the column order of exported tables;
  - `_log_file_path`: the log file name made from a tool name;
  - the character limit on the element details that `build_context_for_elements` builds.

The `_RevitContext` class, the box union and the unit conversions appear in two copies of the
shared library, `lib/valtria_lib.py` and `_lib/valtria_lib.py`. The two copies have the same
code. Each is modelled once, and the rows below cite one copy or the other.

Modules:

| module | file | models |
|---|---|---|
| `Wrappers` | `wrappers.dfy` | `Option` and `Result` |
| `Geometry` | `geometry.dfy` | points, boxes, box centres, squared distance |
| `Units` | `units.dfy` | the conversions and their fallbacks |
| `ClashCheck` | `clash_check.dfy` | `analyze_clashes` |
| `ClashExport` | `clash_export.dfy` | the row numbering and status column of `export_clashes_to_csv` |
| `BoxUnion` | `box_union.dfy` | `get_all_visible_model_boundingbox` |
| `RevitContext` | `revit_context.dfy` | `_RevitContext` and its public accessors |
| `TableText` | `table_text.dfy` | `_collect_columns`, `_log_file_path`, the detail character limit |

How Python features are modelled:

- **Lists that a loop builds** are loops in Dafny methods. Each method's `ensures` gives its
  result in terms of its inputs. For `analyze_clashes` and `_collect_columns` that is a
  recursive specification function, and the properties are proved about that function.
- **A row dictionary** is the sequence of its keys, in the order `keys()` yields them.
- **The Revit context object** is a class whose four slots the methods update. Each method
  follows a pure step function. The host environment (RevitServices' `DocumentManager`,
  `pyrevit.revit`, the `__revit__` global, and the attributes they answer) is a parameter.
- **Python floats** are Dafny reals. Where rounding matters, see "Left out" below.
- **`_CONTEXT`**, the module-level singleton, is the `Context` object passed to the accessors.

## Model

| member | source | states |
|---|---|---|
| ClashCheck.AnalyzeClashes | ValtriaPyTools.tab/07.Model.Panel/Model.pulldown/ClashCheck.pushbutton/script.py:108-187 | each of the three returned buckets is exactly the hits of that severity, in the order the nested loops find them |
| ClashCheck.Expand | ValtriaPyTools.tab/07.Model.Panel/Model.pulldown/ClashCheck.pushbutton/script.py:128-139 | the grown box contains the original for a non-negative tolerance, equals it for tolerance 0, and is 2·t wider on each axis |
| ClashCheck.Overlaps | ValtriaPyTools.tab/07.Model.Panel/Model.pulldown/ClashCheck.pushbutton/script.py:142-147 | the six strict comparisons hold when the common part of the boxes has positive extent, and for boxes of positive extent only then: touching faces do not overlap |
| ClashCheck.IsHit | ValtriaPyTools.tab/07.Model.Panel/Model.pulldown/ClashCheck.pushbutton/script.py:119-147 | a pair is a hit iff both elements have a box and the boxes are less than the tolerance apart on every axis |
| ClashCheck.DistanceSqMm | ValtriaPyTools.tab/07.Model.Panel/Model.pulldown/ClashCheck.pushbutton/script.py:150-152 | the squared centre distance in mm² is never negative and is 0 for identical boxes |
| ClashCheck.SeverityOfDistance | ValtriaPyTools.tab/07.Model.Panel/Model.pulldown/ClashCheck.pushbutton/script.py:180-185 | critical below 25 mm, warning from 25 up to 50 mm, check from 50 mm |
| ClashCheck.Classify | ValtriaPyTools.tab/07.Model.Panel/Model.pulldown/ClashCheck.pushbutton/script.py:180-185 | the same bands on the squared distance: below 625, from 625 up to 2500, from 2500 |
| ClashCheck.ReportedIffHit | ValtriaPyTools.tab/07.Model.Panel/Model.pulldown/ClashCheck.pushbutton/script.py:118-147 | a pair is reported exactly when both elements have a box and the grown MEP box overlaps the structural box; the entry records that pair's positions, elements and distance |
| ClashCheck.InHits | ValtriaPyTools.tab/07.Model.Panel/Model.pulldown/ClashCheck.pushbutton/script.py:118-147 | an entry is among the hits of the first n MEP elements iff its MEP position is below n and it is the hit of its pair |
| ClashCheck.InRowHits | ValtriaPyTools.tab/07.Model.Panel/Model.pulldown/ClashCheck.pushbutton/script.py:124-147 | an entry is among one MEP element's hits against the first k structural elements iff it is the hit of that MEP element with one of them |
| ClashCheck.MissingBoxNeverPaired | ValtriaPyTools.tab/07.Model.Panel/Model.pulldown/ClashCheck.pushbutton/script.py:118-126 | an element whose bounding box is missing is skipped on either side and appears in no reported pair |
| ClashCheck.RowWithoutBox | ValtriaPyTools.tab/07.Model.Panel/Model.pulldown/ClashCheck.pushbutton/script.py:119-121 | an MEP element without a box produces no hits at all |
| ClashCheck.NoStructuralNoHits | ValtriaPyTools.tab/07.Model.Panel/Model.pulldown/ClashCheck.pushbutton/script.py:123-126 | with no structural elements nothing is found |
| ClashCheck.EmptyInputEmptyBuckets | ValtriaPyTools.tab/07.Model.Panel/Model.pulldown/ClashCheck.pushbutton/script.py:115-118 | no MEP elements, or no structural elements, give three empty buckets |
| ClashCheck.InBucket | ValtriaPyTools.tab/07.Model.Panel/Model.pulldown/ClashCheck.pushbutton/script.py:180-185 | an entry is in a bucket iff it is a hit and its distance classifies into that bucket |
| ClashCheck.ExactlyOneBucket | ValtriaPyTools.tab/07.Model.Panel/Model.pulldown/ClashCheck.pushbutton/script.py:180-185 | every hit lands in the bucket of its classification and in no other |
| ClashCheck.BucketAppend | ValtriaPyTools.tab/07.Model.Panel/Model.pulldown/ClashCheck.pushbutton/script.py:180-185 | appending one hit appends it to its own bucket only |
| ClashCheck.BucketSizesAddUp | ValtriaPyTools.tab/07.Model.Panel/Model.pulldown/ClashCheck.pushbutton/script.py:180-185 | the three bucket sizes add up to the number of hits: nothing is dropped or duplicated |
| ClashCheck.BucketBands | ValtriaPyTools.tab/07.Model.Panel/Model.pulldown/ClashCheck.pushbutton/script.py:45-46 | critical entries are below 25 mm, warnings in [25, 50) mm, checks at 50 mm or more (compared squared) |
| ClashCheck.ClassifyByDistance | ValtriaPyTools.tab/07.Model.Panel/Model.pulldown/ClashCheck.pushbutton/script.py:180-185 | comparing the squared distance with the squared limits picks the same bucket as the source's comparison of the distance with 25 and 50 mm |
| ClashCheck.SquareBelow | ValtriaPyTools.tab/07.Model.Panel/Model.pulldown/ClashCheck.pushbutton/script.py:180-182 | for non-negative values, d² < t² iff d < t |
| ClashCheck.ClassifyMatchesSource | ValtriaPyTools.tab/07.Model.Panel/Model.pulldown/ClashCheck.pushbutton/script.py:150-185 | for the feet distance between the box centres, the bucket of the squared mm distance is the bucket of `feet_to_mm(distance)` |
| ClashCheck.RowHitsOrdered | ValtriaPyTools.tab/07.Model.Panel/Model.pulldown/ClashCheck.pushbutton/script.py:123-185 | one MEP element's hits are ordered by structural position and all carry its MEP position |
| ClashCheck.HitsOrdered | ValtriaPyTools.tab/07.Model.Panel/Model.pulldown/ClashCheck.pushbutton/script.py:118-185 | all hits are ordered by MEP position, then structural position |
| ClashCheck.BucketKeepsOrder | ValtriaPyTools.tab/07.Model.Panel/Model.pulldown/ClashCheck.pushbutton/script.py:180-185 | taking one severity out of an ordered list keeps the order |
| ClashCheck.BucketsInDiscoveryOrder | ValtriaPyTools.tab/07.Model.Panel/Model.pulldown/ClashCheck.pushbutton/script.py:118-185 | within each bucket, entries appear by MEP position first, then structural position |
| ClashCheck.TouchingIsNotClash | ValtriaPyTools.tab/07.Model.Panel/Model.pulldown/ClashCheck.pushbutton/script.py:142-147 | with tolerance 0, boxes that only touch or are apart on some axis do not clash (strict comparisons) |
| ClashCheck.LargerToleranceKeepsHit | ValtriaPyTools.tab/07.Model.Panel/Model.pulldown/ClashCheck.pushbutton/script.py:128-147 | a pair that clashes at one tolerance clashes at every larger one |
| ClashCheck.IdenticalBoxesAreCritical | ValtriaPyTools.tab/07.Model.Panel/Model.pulldown/ClashCheck.pushbutton/script.py:128-185 | two identical boxes clash at any positive tolerance and are critical |
| ClashCheck.IdenticalBoxesHitWithoutTolerance | ValtriaPyTools.tab/07.Model.Panel/Model.pulldown/ClashCheck.pushbutton/script.py:128-185 | two identical boxes of positive extent clash even at tolerance 0, and are critical |
| ClashCheck.MainReportsPairsWithinCheckTolerance | ValtriaPyTools.tab/07.Model.Panel/Model.pulldown/ClashCheck.pushbutton/script.py:360 | with `TOLERANCE_CHECK` (100 mm), as `main` runs it, a pair is reported iff both boxes exist and are less than 100/304.8 ft apart on every axis |
| ClashExport.ExportClashRows | ValtriaPyTools.tab/07.Model.Panel/Model.pulldown/ClashCheck.pushbutton/script.py:216-269 | the rows are the critical, then warning, then check entries with their status tags, numbered from 1 without gaps across the three buckets |
| ClashExport.WriteBucket | ValtriaPyTools.tab/07.Model.Panel/Model.pulldown/ClashCheck.pushbutton/script.py:219-235 | one bucket's loop appends one row per entry, numbered on from the current id, and returns the next id |
| ClashExport.NumberedRowsHaveDistinctIds | ValtriaPyTools.tab/07.Model.Panel/Model.pulldown/ClashCheck.pushbutton/script.py:216-269 | rows numbered from 1 carry pairwise distinct `Clash_ID`s |
| ClashExport.RowFor | ValtriaPyTools.tab/07.Model.Panel/Model.pulldown/ClashCheck.pushbutton/script.py:222-234 | one row: its identifier reads back as the counter, its status is the tag of its bucket, and its ids and distance are the entry's |
| ClashExport.ClashLabel | ValtriaPyTools.tab/07.Model.Panel/Model.pulldown/ClashCheck.pushbutton/script.py:223 | `CLASH_{:05d}` is at least 11 characters and starts with "CLASH_" |
| ClashExport.ClashLabelShape | ValtriaPyTools.tab/07.Model.Panel/Model.pulldown/ClashCheck.pushbutton/script.py:223 | `CLASH_{:05d}` is "CLASH_" followed by at least five digits |
| ClashExport.LabelRoundTrip | ValtriaPyTools.tab/07.Model.Panel/Model.pulldown/ClashCheck.pushbutton/script.py:223 | the number can be read back from its label |
| ClashExport.LabelInjective | ValtriaPyTools.tab/07.Model.Panel/Model.pulldown/ClashCheck.pushbutton/script.py:223 | different numbers give different labels |
| ClashExport.FirstLabel | ValtriaPyTools.tab/07.Model.Panel/Model.pulldown/ClashCheck.pushbutton/script.py:216-223 | the first row is labelled "CLASH_00001" |
| ClashExport.DecimalValue | ValtriaPyTools.tab/07.Model.Panel/Model.pulldown/ClashCheck.pushbutton/script.py:223 | the decimal digits of n read back as n |
| ClashExport.LeadingZerosValue | ValtriaPyTools.tab/07.Model.Panel/Model.pulldown/ClashCheck.pushbutton/script.py:223 | zero padding does not change the value read back |
| ClashExport.ZeroPad | ValtriaPyTools.tab/07.Model.Panel/Model.pulldown/ClashCheck.pushbutton/script.py:223 | padding to a width keeps the digits as a suffix and gives length max(width, digits) |
| ClashExport.Decimal | ValtriaPyTools.tab/07.Model.Panel/Model.pulldown/ClashCheck.pushbutton/script.py:223 | the decimal form is a non-empty run of digits |
| ClashExport.StatusTag | ValtriaPyTools.tab/07.Model.Panel/Model.pulldown/ClashCheck.pushbutton/script.py:224-258 | the status column is one of CRITICAL, WARNING, CHECK |
| ClashExport.StatusTagInjective | ValtriaPyTools.tab/07.Model.Panel/Model.pulldown/ClashCheck.pushbutton/script.py:224-258 | different buckets get different status tags |
| Units.ClashMmToFeet | ValtriaPyTools.tab/07.Model.Panel/Model.pulldown/ClashCheck.pushbutton/script.py:31-32 | the ClashCheck fallback: feet · 304.8 = mm |
| Units.ClashFeetToMm | ValtriaPyTools.tab/07.Model.Panel/Model.pulldown/ClashCheck.pushbutton/script.py:34-35 | the ClashCheck fallback: mm / 304.8 = feet |
| Units.MmToInternal | lib/valtria_lib.py:276-281 | a number converts to feet with feet · 304.8 = mm; input that is not a number gives 0.0 |
| Units.FeetToM | _lib/valtria_lib.py:234-239 | a number converts to metres with metres · 3.28083989501312 = feet; input that is not a number gives 0.0 |
| Units.FeetToMm | lib/valtria_core/units.py:4-11 | a number converts to mm with mm / 304.8 = feet; input that is not a number gives 0.0 |
| Units.FeetToMmAfterMmToInternal | lib/valtria_core/units.py:7-11 | converting mm to feet and back gives the input |
| Units.MmToInternalAfterFeetToMm | _lib/valtria_lib.py:226-231 | converting feet to mm and back gives the input |
| Units.FeetToMmStrictlyIncreasing | lib/valtria_core/units.py:7-11 | the conversion is strictly increasing and maps 0 to 0 |
| Units.FeetToMmAgreesWithClashFallback | ValtriaPyTools.tab/07.Model.Panel/Model.pulldown/ClashCheck.pushbutton/script.py:22-35 | the library conversions and ClashCheck's fallbacks agree on every number |
| Units.FeetToMNearMetersPerFoot | lib/valtria_lib.py:284-289 | dividing by 3.28083989501312 stays within 4·10⁻¹⁶·x of multiplying by 0.3048 |
| Geometry.Center | ValtriaPyTools.tab/07.Model.Panel/Model.pulldown/ClashCheck.pushbutton/script.py:150-151 | the centre of a well-formed box lies inside it |
| Geometry.SquaredDistance | ValtriaPyTools.tab/07.Model.Panel/Model.pulldown/ClashCheck.pushbutton/script.py:152 | a squared distance is never negative and is 0 between equal points |
| BoxUnion.UnionBoundingBox | lib/valtria_lib.py:337-378 | the result is None iff no element has a usable box; otherwise it encloses every usable box and each of its six bounds is attained by one of them |
| BoxUnion.UsableBox | lib/valtria_lib.py:343-351 | an entry gives a box iff it is an element whose box lookup did not raise and returned a box with both corners; that box has those corners |
| BoxUnion.UnionIsSmallest | lib/valtria_lib.py:360-378 | every box enclosing all usable boxes encloses the union |
| BoxUnion.UnionIsUnique | lib/valtria_lib.py:337-378 | the method's postcondition determines the union |
| BoxUnion.UnionGrowsWithElements | lib/valtria_lib.py:343-372 | the union of the first n elements lies inside any box that encloses all of them |
| RevitContext.SafeGetAttr | _lib/valtria_lib.py:40-46 | a None source, or an attribute that is missing, None or raises, gives None; otherwise the attribute |
| RevitContext.FirstFound | _lib/valtria_lib.py:90-105 | the first candidate that is not None; None iff every candidate is None |
| RevitContext.ResolveUiApp | _lib/valtria_lib.py:90-105 | `_resolve_uiapp` returns the first of DocumentManager, `revit.uiapp` and `__revit__.Application` that yields a handle |
| RevitContext.ResolveUiDocFrom | _lib/valtria_lib.py:112-126 | `_resolve_uidoc` returns the first of `uiapp.ActiveUIDocument`, `revit.uidoc` and `__revit__.ActiveUIDocument` that yields a handle |
| RevitContext.UiAppStep | _lib/valtria_lib.py:107-110 | `uiapp()` leaves the slot holding the value it returns and changes no other slot |
| RevitContext.UiDocStep | _lib/valtria_lib.py:128-131 | `uidoc()` leaves its slot holding its value, changes only it and the UI application slot, and fills the latter whenever it resolves |
| RevitContext.ResolveDoc | _lib/valtria_lib.py:133-153 | `_resolve_doc` never touches the document or application slots |
| RevitContext.DocStep | _lib/valtria_lib.py:155-158 | `doc()` leaves its slot holding its value and does not touch the application slot |
| RevitContext.ResolveApp | _lib/valtria_lib.py:160-174 | `_resolve_app` always resolves the UI application and does not touch the application slot |
| RevitContext.AppStep | _lib/valtria_lib.py:176-179 | `app()` leaves its slot holding its value |
| RevitContext.UiAppStepSound | _lib/valtria_lib.py:90-110 | on a cache filled from the same host, `uiapp()` returns the fresh resolution and keeps the cache consistent |
| RevitContext.UiDocStepSound | _lib/valtria_lib.py:112-131 | the same for `uidoc()` |
| RevitContext.DocStepSound | _lib/valtria_lib.py:133-158 | the same for `doc()`, whose lazy call of `uidoc()` gives the third-priority source |
| RevitContext.AppStepSound | _lib/valtria_lib.py:160-179 | the same for `app()`, through `uiapp()` and `doc()` |
| RevitContext.StepsExtendAndStayCoherent | _lib/valtria_lib.py:107-179 | an access never changes a filled slot, and the UI document and application slots are filled only after the UI application slot |
| RevitContext.SecondAccessIsCached | _lib/valtria_lib.py:107-179 | a second access returns the cached value, even when it is None and whatever the host then offers, and changes nothing |
| RevitContext.StaleUntilReset | _lib/valtria_lib.py:188-191 | a handle read from one host is still returned after the host changes, until a reset; after it the current host is consulted |
| RevitContext.NoHostResolvesNothing | _lib/valtria_lib.py:90-179 | with no DocumentManager, no pyRevit module and no `__revit__`, every handle resolves to None |
| RevitContext.Context.constructor | _lib/valtria_lib.py:81-82 | a new context has all four slots unresolved |
| RevitContext.Context.Reset | _lib/valtria_lib.py:84-88 | all four slots go back to the sentinel |
| RevitContext.Context.UiApp | _lib/valtria_lib.py:107-110 | result and new slots are those of `UiAppStep` |
| RevitContext.Context.UiDoc | _lib/valtria_lib.py:128-131 | result and new slots are those of `UiDocStep` |
| RevitContext.Context.ResolveDocument | _lib/valtria_lib.py:133-153 | result and new slots are those of `ResolveDoc` |
| RevitContext.Context.Doc | _lib/valtria_lib.py:155-158 | result and new slots are those of `DocStep` |
| RevitContext.Context.ResolveApplication | _lib/valtria_lib.py:160-174 | result and new slots are those of `ResolveApp` |
| RevitContext.Context.App | _lib/valtria_lib.py:176-179 | result and new slots are those of `AppStep` |
| RevitContext.Require | _lib/valtria_lib.py:194-199 | success with the handle iff there is one; otherwise failure with the given message |
| RevitContext.RefreshRevitContext | lib/valtria_lib.py:238-241 | the same context comes back with every slot unresolved |
| RevitContext.GetUiApp | _lib/valtria_lib.py:194-199 | the UI application, or "Unable to resolve Revit UIApplication." when there is none |
| RevitContext.GetApp | _lib/valtria_lib.py:202-207 | the application, or "Unable to resolve Revit application object." |
| RevitContext.GetUiDoc | _lib/valtria_lib.py:210-215 | the UI document, or "Unable to resolve active UIDocument." |
| RevitContext.GetDoc | _lib/valtria_lib.py:218-223 | the document, or "Unable to resolve active Revit document." |
| RevitContext.AccessorsAfterRefresh | _lib/valtria_lib.py:188-223 | after a refresh, each accessor fails with its message iff no source yields the handle, and otherwise returns the first source that does |
| TableText.CollectColumns | lib/valtria_lib.py:964-993 | the columns are the preferred names some row has, then every other key in first-seen order; no duplicates, and exactly the keys of the rows |
| TableText.PreferredPass | lib/valtria_lib.py:982-987 | the first pass keeps each preferred name that some row has, in preferred order, once |
| TableText.OfferPreferred | lib/valtria_lib.py:983-987 | one preferred name is appended iff some row has it and it was not yet seen |
| TableText.KeyPass | lib/valtria_lib.py:988-992 | the second pass appends every key not yet seen, in first-seen order |
| TableText.OfferKeys | lib/valtria_lib.py:989-992 | one row's keys extend the first-seen list |
| TableText.CollectedColumnsCoverKeys | lib/valtria_lib.py:964-993 | no column is listed twice; a column appears iff some row has that key |
| TableText.PreferredColumnsFirst | lib/valtria_lib.py:967-987 | the leading columns are the preferred names some row has, in the preferred order; no later column is a preferred name |
| TableText.OtherColumnsInFirstSeenOrder | lib/valtria_lib.py:988-992 | the remaining columns are ordered by where the rows first show them |
| TableText.InFlatten | lib/valtria_lib.py:988-989 | a key is among all keys iff some row has it |
| TableText.InPresent | lib/valtria_lib.py:982-984 | a name is kept by the preferred filter iff it is preferred and some row has it |
| TableText.InNewKeys | lib/valtria_lib.py:988-992 | the first-seen list holds exactly the keys not in the initial seen set |
| TableText.NewKeysDistinct | lib/valtria_lib.py:990-992 | the first-seen list has no duplicates |
| TableText.NewKeysConcat | lib/valtria_lib.py:982-992 | running the second pass after the first is the first-seen list of the preferred names followed by all keys |
| TableText.NewKeysFirstSeenOrder | lib/valtria_lib.py:988-992 | the first-seen list is ordered by first occurrence |
| TableText.FirstIndex | lib/valtria_lib.py:988-992 | the first position holding a key |
| TableText.LogFileName | lib/valtria_lib.py:1004-1013 | the name is the tool name, or "general" when none or empty, with every character that is not a letter, digit, '-' or '_' replaced by '_', then ".log" |
| TableText.ToolStem | lib/valtria_lib.py:1005 | `tool_name or 'general'`: "general" for a missing or empty name, otherwise the name itself |
| TableText.Sanitize | lib/valtria_lib.py:1008-1012 | a letter, digit, '-' or '_' is kept; anything else becomes '_' |
| TableText.IsAlnum | lib/valtria_lib.py:1008 | digits, ASCII letters and the Latin-1 letters are alphanumeric; control characters, the space, ASCII punctuation and the × and ÷ signs are not, and nothing beyond Latin-1 is accepted |
| TableText.SanitizeKeepsCleanNames | lib/valtria_lib.py:1007-1012 | a tool name made only of file-name characters is kept as it is |
| TableText.PrefixSlice | lib/valtria_lib.py:929 | `s[:k]` is a prefix of length min(k, len) for k ≥ 0 and drops the last -k characters for k < 0 |
| TableText.RFind | lib/valtria_lib.py:930 | `rfind` gives -1 iff the character is absent, otherwise its last position |
| TableText.LimitDetail | lib/valtria_lib.py:928-934 | the text is kept, without a note, when within the limit; otherwise the note is added and the result is a prefix: no longer than a non-negative limit, and for a negative limit at least that many characters shorter, as Python slicing does |
| TableText.LimitEndsAtLineBreak | lib/valtria_lib.py:929-932 | a cut text that holds a line break after its first character ends just before its last line break; otherwise the cut stays |

## Left out

- The Revit API calls are not modelled: element collectors, `get_BoundingBox`, `BoundingBoxXYZ`/`XYZ` construction, `doc.GetElement`. Elements enter as values: id plus optional box.
- The collector that `get_all_visible_model_boundingbox` runs when `elements is None` is not modelled. It is a Revit query, and the model starts from the element list.
- File and user I/O are not modelled: the CSV writer, the `wb`/BOM encodings, `print_clash_report`, the output window and the forms dialogs.
- Six of the eleven CSV columns are not modelled: MEP_Category, MEP_System, Struct_Category, Level, View and Timestamp. They come from Revit lookups and the clock. The model keeps Clash_ID, Status, MEP_ID, Struct_ID and the distance.
- ClashCheck.DistanceSqMm: the distance is kept squared, so `sqrt` and the `{:.1f}` formatting of the `Distance_mm` column are not modelled.
- Units.FeetToM: IEEE-754 rounding is not modelled, because reals are exact. `FeetToMNearMetersPerFoot` bounds the gap between the divisor and 0.3048 instead.
- ClashCheck prefers `mm_to_feet`/`feet_to_mm` from `valtria_utils` when that module imports. `valtria_utils` is not part of this model, and the fallback definitions are used.
- TableText.IsAlnum: the model follows CPython's `str.isalnum` for ASCII and Latin-1 only, including the superscript digits and vulgar fractions. Letters and digits of other scripts become '_' in the model but are kept by Python. A runtime whose `isalnum` follows .NET's `Char.IsLetterOrDigit` rejects the superscripts and fractions, which the model keeps.
- TableText.LimitDetail: strings are modelled as code-point sequences, as CPython 3 holds them. Under IronPython, `len`, `[:char_limit]` and `rfind` count UTF-16 code units. So a detail text with characters outside the Basic Multilingual Plane is cut at a different point there, and the cut can split a surrogate pair. The model does neither.
- TableText.LogFileName: a character outside the Basic Multilingual Plane is one character in the model and becomes one '_'. IronPython's UTF-16 strings hold it as two code units, which become two '_'.
- TableText.LogFileName: joining the file name onto the `_logs` directory (`os.path.join`) is not modelled.
- `_ensure_text` (coercion to text) is not modelled. The inputs are already strings.
- The rest of `build_context_for_elements` (rows, summary and note wording) is not modelled. Only its character limit is.
- RevitContext: the host is a value passed to each access, so concurrent changes to the Revit session inside one access are not modelled.
