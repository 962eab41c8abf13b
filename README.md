# CrystFEL geometry templates, in Dafny

A model of the part of CrystFEL that reads a geometry description and turns
it into a data template. The template lists the detector panels, the bad
regions, the rigid groups and the rigid-group collections. The model also
covers the mapping between raw-file pixel coordinates and per-panel
coordinates, plus several smaller cores that work on templates, images and
reflection lists. All of it is proved against specification functions.

The modules follow the program's structure:

- `Text`: the string and number helpers the parser relies on.
  - Trimming spaces and tabs, `strchr`, cutting at a character, counting.
  - Splitting on a separator while dropping empty tokens.
  - `atof`/`strtod` for decimal numbers, with the sign of a zero, and `strtoul` for a dimension index.
  - The truncating `(int)` cast.
- `Geometry`: the value types of a template.
  - `panel_template`, `dt_badregion` with its three-state frame, rigid groups, collections and `DataTemplate`.
  - `new_panel` and `new_bad_region`.
- `Direction`: `assplode_algebraic` and `dir_conv`, which read expressions such as `-0.5x+2y`.
  - Each has a loop method proved equal to a reference definition.
  - Lemmas give acceptance exactly, concatenation, the implicit leading `+`, and worked examples.
- `Fields`: `atob`, `parse_field_for_panel`, `check_badr_fsss` and `parse_field_bad`.
  - Each is a pure update of one record that also says whether the template must be rejected.
- `Template`: the specification of `data_template_new_from_string`.
  - Line normalisation and splitting, and line classification (comment, blank, no `=`, top level, `panel/key`, `bad*/key`).
  - The fold over the lines, and `parse_toplevel`.
  - The checks after parsing: placeholders, dim structures, completeness of panels and bad regions.
  - Resolution of the rigid-group and collection definitions, and synthesis of the default groups and collection.
- `TemplateProps`, `TemplateValid`: what the builder guarantees.
  - Names stay unique.
  - Every group member is a panel and every collection member is a group.
  - Once `reject` is set it stays set, and the result is then "no template".
  - Each panel starts as the defaults as they stand at its first mention.
  - A template that is returned passed every check.
  - As written, the check that a panel has a gain never fires (see "## Findings").
- `Builder`: the imperative builder.
  - A class `TemplateBuilder` with the fields the C function updates in place.
  - Its methods (line loop, lookups, find-or-add, the validation loops, group resolution) are each proved to realise the matching specification function on the builder's state.
  - `NewFromString` returns exactly `Template.Build`.
- `Mapper`: `data_template_find_panel`, the file↔panel coordinate conversions and the panel name↔number lookups, with their round trips.
- `Image`: parts of `image.c`.
  - The feature list: a class over an array that grows by 128.
  - The crystal list and `remove_flagged_crystals`.
  - `in_bad_region_dtempl`, the bad-pixel mask fill of `image_read`, `unit_string_to_unit` and `get_length`.
- `H5`: parts of `libcrystfel/src/hdf5-file.c`.
  - `split_group_and_object`, and the copy-field list (a class over an array that grows by 32).
  - The grouping of panels by write location in `hdf5_write_image`.
  - The pixel-badness rule of `unpack_panels`, and the panel stacking of `hdf5_read2`.
- `Partialator`: the reflection-selection loops of `partialator`, over a class `RefList`, plus the partiality-model option and the early-outs of `refine_all`.
- `Fom`: parts of `fom.c`.
  - The figure-of-merit names, and the counters of `init_fom`/`add_to_fom`.
  - `get_bin`, and the two selection loops of `fom_select_reflections`.

Modelling conventions:

- Every `double` and every `float` is an exact `real`: no rounding to double or single precision is modelled.
- A NaN or "unset" value is `None`, and so is an infinite default.
- The pixel pitch, the reciprocal of `res`, is an `Extended` real: finite, or an infinity whose sign is that of the zero `atof` read.
- A pointer into a growing array is an index.
- A reflection list is a sequence of entries keyed by Miller indices.
- Helpers whose source is not part of this model become parameters of the operations that call them:
  - the dim-structure routines `initialize_dim_structure`, `default_dim_structure` and `set_dim_structure_entry` (the `DimHelpers` record);
  - resolution, centricity and symmetric equivalents of a reflection;
  - the value lookup of `get_length`.

The key of a `panel/key` line is split at the first `/`, where `strchr` finds it (datatemplate.c:836).

## Model

| member | source | states |
|---|---|---|
| Text.DropLeading | libcrystfel/src/datatemplate.c:796-802 | The result is a suffix of the line, every dropped character is a space or tab, and the result does not start with one |
| Text.NoTrail | libcrystfel/src/datatemplate.c:827-833 | The result is a prefix, every dropped character is a space or tab, and the result does not end with one |
| Text.IndexOf | libcrystfel/src/datatemplate.c:785-794 | `strchr`: none exactly when the character is absent, otherwise the position of its first occurrence |
| Text.IndexOfFirst | libcrystfel/src/datatemplate.c:816-825 | A position holding the character with no earlier occurrence is the one found |
| Text.CutAt | libcrystfel/src/datatemplate.c:804-806 | Cutting at `;` or `\n` yields a prefix free of that character, followed in the input by the character when shorter |
| Text.Count | libcrystfel/src/datatemplate.c:887-910 | The number of occurrences is zero exactly when the value is absent |
| Text.SplitNonEmpty | libcrystfel/src/datatemplate.c:1126-1128 | `assplode` of a definition on `,`: every token is non-empty and holds no separator |
| Text.Strtod | libcrystfel/src/datatemplate.c:621-637 | The conversion reads at most the input; it reads something exactly when a digit follows the blanks, an optional sign and an optional `.`; a digit string is read whole as its decimal value |
| Text.ScanConverts | libcrystfel/src/datatemplate.c:621-637 | The character scan reads nothing unless a digit follows the blanks, the sign and the `.`, and reads something when one does |
| Text.AtoiDigits | libcrystfel/src/datatemplate.c:297-302 | `atoi` reads a digit string as its decimal value |
| Text.StrtodMinus | libcrystfel/src/datatemplate.c:512-513 | A `-` before a number negates the value read and is consumed with it; the result is a negative zero exactly when the number is zero |
| Text.Strtoul | libcrystfel/src/datatemplate.c:539-540 | `strtoul` in base 10 returns at most ULONG_MAX, reads something exactly when a digit follows the blanks and an optional sign, and then stops after a digit |
| Text.StrtoulDigits | libcrystfel/src/datatemplate.c:539-540 | A digit string is read whole, as its value when it fits an unsigned long |
| Text.StrtoulPlus | libcrystfel/src/datatemplate.c:539-540 | A `+` before the digits is read and changes nothing else |
| Text.StrtoulMinus | libcrystfel/src/datatemplate.c:539-540 | A `-` before the digits is read and negates their value modulo 2^64 |
| Text.ToInt32 | libcrystfel/src/datatemplate.c:539-540 | Storing an unsigned long in an `int` gives the int in range that is congruent to it modulo 2^32 |
| Text.Trunc | libcrystfel/src/datatemplate.c:457-463 | The C cast to int truncates towards zero: the result lies within one of the value, on the side of zero, for positive and negative values alike |
| Text.AtofNegativeHalf | libcrystfel/src/datatemplate.c:408-424 | `atof("-0.5")` is -0.5 |
| Text.AtofPlusTwo | libcrystfel/src/datatemplate.c:408-424 | `atof("+2")` is 2 |
| Geometry.NewPanel | libcrystfel/src/datatemplate.c:62-97 | A new panel carries the given name; that every other field is copied from the defaults is proved in TemplateProps.NewPanelCopiesDefaults |
| Geometry.NewBadRegion | libcrystfel/src/datatemplate.c:100-121 | A new bad region has the name, an unassigned frame, no panel, unset x/y bounds and zero fs/ss bounds |
| Direction.WithSign | libcrystfel/src/datatemplate.c:315-324 | After the implicit `+` is added, the expression starts with a sign |
| Direction.RemoveSpaces | libcrystfel/src/datatemplate.c:336-364 | The split loop sees no spaces and never more characters than the input |
| Direction.SplitAtSigns | libcrystfel/src/datatemplate.c:336-364 | Splitting at signs yields no terms exactly for empty input |
| Direction.SplitAtSignsNonEmpty | libcrystfel/src/datatemplate.c:336-364 | Every term produced by the split is non-empty |
| Direction.Terms | libcrystfel/src/datatemplate.c:305-371 | Every term that `assplode_algebraic` returns is non-empty |
| Direction.AssplodeAlgebraic | libcrystfel/src/datatemplate.c:305-371 | The loop succeeds exactly when the reference split succeeds, and then returns its terms |
| Direction.SplitLoop | libcrystfel/src/datatemplate.c:336-364 | The character loop fails exactly on a character outside digits, `.`, signs and x/y/z, and otherwise splits at every sign |
| Direction.SplitStep | libcrystfel/src/datatemplate.c:336-364 | One more character either starts a new term (a sign) or extends the last one |
| Direction.SplitAtSignsAppend | libcrystfel/src/datatemplate.c:336-364 | Splitting a concatenation whose second part starts with a sign gives the two splits joined |
| Direction.DirConvLoop | libcrystfel/src/datatemplate.c:375-448 | The accumulating loop of `dir_conv` computes exactly the reference result |
| Direction.SumTerms | libcrystfel/src/datatemplate.c:388-441 | Summing the terms per axis in a loop agrees with the reference sum |
| Direction.SumTermsStops | libcrystfel/src/datatemplate.c:392-403 | A term not ending in an axis stops with failure, keeping the sum so far |
| Direction.SumTermsShift | libcrystfel/src/datatemplate.c:425-439 | Summing from a partial sum adds that partial sum to the sum from zero |
| Direction.SumTermsAppend | libcrystfel/src/datatemplate.c:425-439 | Summing two runs of terms in turn equals summing their concatenation |
| Direction.DirConvEmptyFails | libcrystfel/src/datatemplate.c:384-387 | The empty expression fails, because its only term is a bare `+` |
| Direction.DirConvInvalidCharacter | libcrystfel/src/datatemplate.c:336-364 | Any character outside the allowed set, spaces aside, makes `dir_conv` fail |
| Direction.DirConvOkIff | libcrystfel/src/datatemplate.c:375-448 | `dir_conv` succeeds exactly when the split succeeds and every term ends in x, y or z |
| Direction.SumTermsOkIff | libcrystfel/src/datatemplate.c:392-403 | Summing succeeds exactly when every term ends in an axis |
| Direction.DirConvImplicitPlus | libcrystfel/src/datatemplate.c:315-324 | An expression without a leading sign reads as if `+` were prepended |
| Direction.SumTermsConcat | libcrystfel/src/datatemplate.c:425-439 | Two runs of terms succeed together exactly when each does, and their vectors add |
| Direction.TermsConcat | libcrystfel/src/datatemplate.c:305-371 | Two signed expressions split together exactly when each does, into the joined terms |
| Direction.DirConvConcat | libcrystfel/src/datatemplate.c:375-448 | Two signed expressions side by side are read as the vector sum of their values |
| Direction.SingleTerm | libcrystfel/src/datatemplate.c:408-424 | A single signed term gives its coefficient on its axis, or ±1 for a bare sign |
| Direction.DirConvPlusX | libcrystfel/src/datatemplate.c:375-448 | `+x` is (1, 0, 0) |
| Direction.DirConvRejectsQ | libcrystfel/src/datatemplate.c:336-364 | `qx` is refused |
| Direction.DirConvNegativeHalfX | libcrystfel/src/datatemplate.c:375-448 | `-0.5x` is (-0.5, 0, 0) |
| Direction.DirConvPlusTwoY | libcrystfel/src/datatemplate.c:375-448 | `+2y` is (0, 2, 0) |
| Direction.DirConvTwoAxes | libcrystfel/src/datatemplate.c:375-448 | `-0.5x+2y` is (-0.5, 2, 0) |
| Fields.AtobExamples | libcrystfel/src/datatemplate.c:297-302 | For example, `True` reads as 1 and `FALSE` as 0, and `1` and `0` fall back to their integer values |
| Fields.AtobCases | libcrystfel/src/datatemplate.c:297-302 | Any string equal to `true` or `false` ignoring letter case reads as 1 or 0, and every other string as `atoi` reads it |
| Fields.AtobDigits | libcrystfel/src/datatemplate.c:297-302 | A digit string, which is neither `true` nor `false`, is read as its decimal value |
| Fields.RigidGroupKeyIff | libcrystfel/src/datatemplate.c:482-483 | The `rigid_group` key is recognised exactly by its name |
| Fields.DimKeyIff | libcrystfel/src/datatemplate.c:532-551 | A key starting with `dim` that is not a named field is a dimension key, indexed by what follows `dim` |
| Fields.UnknownKeyIff | libcrystfel/src/datatemplate.c:552-554 | A key is unrecognised exactly when it is no named field and does not start with `dim` |
| Fields.DimField | libcrystfel/src/datatemplate.c:532-551 | A `dim` field changes only the dim structure; an empty index changes nothing, and an index that `strtoul` does not read whole changes nothing on an existing structure |
| Fields.DimFieldNumber | libcrystfel/src/datatemplate.c:536-546 | A decimal index sets the entry of that number |
| Fields.DimFieldPlus | libcrystfel/src/datatemplate.c:539-546 | `dim+N` sets the same entry as `dimN` |
| Fields.DimFieldMinus | libcrystfel/src/datatemplate.c:539-546 | `dim-N` sets entry -N, as the negated unsigned value wraps into an int |
| Fields.DimFieldRefused | libcrystfel/src/datatemplate.c:536-542 | An index `strtoul` does not read whole sets no entry, though an absent structure is still created |
| Fields.PanelField | libcrystfel/src/datatemplate.c:451-557 | A panel field keeps the panel's name, asks for a group join exactly for `rigid_group` (and then changes nothing else), and leaves an unknown field quietly ignored |
| Fields.PanelFieldRejects | libcrystfel/src/datatemplate.c:464-531 | A panel field rejects exactly for a data or mask path without a leading `/` or an invalid `fs`, `ss` or `rail_direction` |
| Fields.UnrecognisedPanelField | libcrystfel/src/datatemplate.c:552-554 | An unrecognised panel field changes nothing and does not reject |
| Fields.LocationStored | libcrystfel/src/datatemplate.c:488-501 | A `data` or `mask` value is stored even when it rejects, and rejects exactly without a leading `/` |
| Fields.ResolutionField | libcrystfel/src/datatemplate.c:512-513 | `res` sets the pixel pitch to its reciprocal; a zero resolution gives an infinite pitch, negative exactly when `atof` read a negative zero |
| Fields.SignedZeroResolution | libcrystfel/src/datatemplate.c:512-513 | `res = 0` gives a positive infinite pitch, `res = -0` a negative one |
| Geometry.Reciprocal | libcrystfel/src/datatemplate.c:512-513 | `1.0/x` is the finite reciprocal of a non-zero x, and for a zero the infinity of the zero's sign |
| Fields.FrameOfKeyIff | libcrystfel/src/datatemplate.c:577-613 | The x/y bound keys select the x/y frame and the fs/ss bound keys the fs/ss frame, and no other key selects one |
| Fields.BadField | libcrystfel/src/datatemplate.c:560-613 | A bad-region field keeps the name; the first bound fixes the frame, which then never changes; it rejects exactly for a bound of the other frame; `panel` only sets the panel and other keys change nothing |
| Fields.FrameSticks | libcrystfel/src/datatemplate.c:560-574 | Once assigned, a region's frame survives any further fields |
| Fields.MixedFramesReject | libcrystfel/src/datatemplate.c:560-574 | Bounds of both frames on one region always reject |
| Fields.PrefixFrame | libcrystfel/src/datatemplate.c:560-574 | The frame fixed by the first fields is the frame after all later fields |
| Fields.RejectPersists | libcrystfel/src/datatemplate.c:577-613 | A rejection by an earlier field of a region is never cleared |
| Template.FindOrAddPanel | libcrystfel/src/datatemplate.c:854-863 | The returned index holds a panel of that name, and at most one panel is added |
| Template.FindOrAddBad | libcrystfel/src/datatemplate.c:854-863 | The returned index holds a region of that name, and at most one region is added |
| Template.FindOrAddGroup | libcrystfel/src/datatemplate.c:153-185 | The returned index holds a group of that name, and at most one group is added |
| Template.FindOrAddCollection | libcrystfel/src/datatemplate.c:187-218 | The returned index holds a collection of that name, and at most one collection is added |
| Template.AddToGroup | libcrystfel/src/datatemplate.c:220-233 | The panel index is appended to the group's members, even when already present |
| Template.AddToGroupNames | libcrystfel/src/datatemplate.c:220-233 | Adding a member leaves every group name unchanged |
| Template.AddToCollection | libcrystfel/src/datatemplate.c:235-251 | The group index is appended to the collection's members |
| Template.AddToCollectionNames | libcrystfel/src/datatemplate.c:235-251 | Adding a member leaves every collection name unchanged |
| Template.JoinGroup | libcrystfel/src/datatemplate.c:482-483 | A `rigid_group` field adds at most one group |
| Template.After | libcrystfel/src/datatemplate.c:662-691 | The text after a prefix of known length is the rest of the key, and empty for a shorter key |
| Template.NotFixedTopKey | libcrystfel/src/datatemplate.c:615-661 | No fixed top-level key starts with `r`, so `rigid_group…` keys never reach them |
| Template.GroupDefinitionKey | libcrystfel/src/datatemplate.c:662-677 | `rigid_group_<name>` (the name not starting with `collection`) is the definition of group `<name>` |
| Template.CollectionDefinitionKey | libcrystfel/src/datatemplate.c:679-691 | `rigid_group_collection_<name>` is the definition of collection `<name>` |
| Template.TopLevel | libcrystfel/src/datatemplate.c:615-694 | A top-level line never rejects, never touches panels, regions, groups or collections, records a group or collection definition in order, and passes any other key to the defaults as a panel field |
| Template.Content | libcrystfel/src/datatemplate.c:796-806 | What is left of a line holds no `;` and starts with neither space nor tab |
| Template.ClassifyLine | libcrystfel/src/datatemplate.c:796-850 | A line is blank exactly when nothing is left, has no `=` exactly when that is so of what is left, and in top-level or `object/key` form has a key without `/` and a trimmed value |
| Template.ApplyBadUpdate | libcrystfel/src/datatemplate.c:865-871 | Updating a region changes only the regions and `reject`, keeps the names, and sets `reject` exactly when the field rejects |
| Template.BadLine | libcrystfel/src/datatemplate.c:853-871 | A `bad*/key` line changes only the regions, names them as the find-or-add does, and rejects exactly when the field rejects |
| Template.ApplyPanelUpdate | libcrystfel/src/datatemplate.c:865-871 | Updating a panel changes only panels, groups and `reject`, keeps the panel names, and touches groups only for `rigid_group` |
| Template.FieldAt | libcrystfel/src/datatemplate.c:865-871 | The panel field is applied to the panel at the index, keeping names, with `reject` set exactly when the field rejects |
| Template.PanelLine | libcrystfel/src/datatemplate.c:853-871 | A `panel/key` line changes only panels (and groups for `rigid_group`), names them as the find-or-add does, and rejects exactly when the field rejects |
| Template.Normalise | libcrystfel/src/datatemplate.c:768-773 | Every `\r` becomes a newline and nothing else changes |
| Template.Lines | libcrystfel/src/datatemplate.c:778-794 | The text is cut into at least one line, none holding a newline |
| Template.AgreeFacts | libcrystfel/src/datatemplate.c:884-910 | The running check keeps the first count, or -1 when there is none, and flags a difference exactly when some count differs from the first |
| Template.MaskCounts | libcrystfel/src/datatemplate.c:912-939 | Only panels with a mask contribute a count |
| Template.SettleAllFacts | libcrystfel/src/datatemplate.c:958-1108 | After the checks each panel keeps its name and paths, holds its own or the default dim structure, and has a rail and a clen_for_centering, (0,0,1) and 0 when unset |
| Template.SettleAllNames | libcrystfel/src/datatemplate.c:958-1108 | The checks keep the panel names |
| Template.SomeIncompleteWithDims | libcrystfel/src/datatemplate.c:1029-1098 | The completeness checks do not look at the dim structure |
| Template.ValidateFacts | libcrystfel/src/datatemplate.c:884-1116 | The checks reject exactly when a placeholder, dim-structure, panel or bad-region check fails, and change nothing but the panels, path_dim, dim_dim and `reject` |
| Template.AddMembers | libcrystfel/src/datatemplate.c:1122-1149 | A group definition resolves exactly when every listed name is a panel, and then adds one member per name, keeping names and bounds |
| Template.AddGroups | libcrystfel/src/datatemplate.c:1151-1179 | A collection definition resolves exactly when every listed name is a group, and then adds one member per name |
| Template.ResolveGroupsStep | libcrystfel/src/datatemplate.c:1122-1149 | Definitions are resolved one after another, in order |
| Template.ResolveGroupsFails | libcrystfel/src/datatemplate.c:1139-1141 | An unknown panel name fails the whole resolution at once |
| Template.ResolveCollectionsStep | libcrystfel/src/datatemplate.c:1151-1179 | Collection definitions are resolved one after another, in order |
| Template.ResolveCollectionsFails | libcrystfel/src/datatemplate.c:1166-1170 | An unknown group name fails the whole resolution at once |
| Template.Range | libcrystfel/src/datatemplate.c:1202-1206 | The default collection lists the groups 0, 1, …, n-1 in order |
| TemplateProps.StartInv | libcrystfel/src/datatemplate.c:717-766 | The starting state has unique names and in-range members |
| TemplateProps.FindOrAddPanelFacts | libcrystfel/src/datatemplate.c:854-863 | Lookup comes before creation: an existing name is found at its first occurrence and nothing is added; a new name appends a copy of the defaults |
| TemplateProps.FindOrAddBadFacts | libcrystfel/src/datatemplate.c:854-863 | An existing region is found at its first occurrence; a new name appends a fresh region |
| TemplateProps.FindOrAddGroupFacts | libcrystfel/src/datatemplate.c:153-185 | An existing group is found; a new name appends an empty group |
| TemplateProps.FindOrAddCollectionFacts | libcrystfel/src/datatemplate.c:187-218 | An existing collection is found; a new name appends an empty collection |
| TemplateProps.FindOrAddPanelDistinct | libcrystfel/src/datatemplate.c:854-863 | Find-or-add keeps panel names unique |
| TemplateProps.FindOrAddBadDistinct | libcrystfel/src/datatemplate.c:854-863 | Find-or-add keeps region names unique |
| TemplateProps.FindOrAddGroupDistinct | libcrystfel/src/datatemplate.c:153-185 | Find-or-add keeps group names unique |
| TemplateProps.FindOrAddCollectionDistinct | libcrystfel/src/datatemplate.c:187-218 | Find-or-add keeps collection names unique |
| TemplateProps.FindOrAddGroupIdempotent | libcrystfel/src/datatemplate.c:153-185 | Finding or adding the same group twice is the same as once |
| TemplateProps.FindOrAddCollectionIdempotent | libcrystfel/src/datatemplate.c:187-218 | Finding or adding the same collection twice is the same as once |
| TemplateProps.JoinGroupInv | libcrystfel/src/datatemplate.c:482-483 | Joining a group keeps group names unique and members in range |
| TemplateProps.BadLineInv | libcrystfel/src/datatemplate.c:853-871 | A bad-region line keeps the parse invariant |
| TemplateProps.PanelLineInv | libcrystfel/src/datatemplate.c:853-871 | A panel line keeps the parse invariant |
| TemplateProps.ApplyLineInv | libcrystfel/src/datatemplate.c:778-876 | Every line keeps the parse invariant |
| TemplateProps.ParseAllInv | libcrystfel/src/datatemplate.c:778-876 | The whole line loop keeps the parse invariant |
| TemplateProps.ApplyLineKeepsReject | libcrystfel/src/datatemplate.c:865-871 | No line clears `reject` |
| TemplateProps.ParseAllKeepsReject | libcrystfel/src/datatemplate.c:778-876 | Once `reject` is set the rest of the file never clears it |
| TemplateProps.ParseAllSplit | libcrystfel/src/datatemplate.c:778-876 | Parsing a file is parsing its first lines and then the rest from that state |
| TemplateProps.TopLevelNeverRejects | libcrystfel/src/datatemplate.c:808-846 | Top-level, blank and `=`-less lines never set `reject`; blank and `=`-less lines change nothing |
| TemplateProps.PanelLineRejects | libcrystfel/src/datatemplate.c:865-868 | A panel line rejects exactly when its field rejects |
| TemplateProps.RejectedStateFails | libcrystfel/src/datatemplate.c:1212 | A rejected state yields no template |
| TemplateProps.ParsedRejectFailsBuild | libcrystfel/src/datatemplate.c:1212 | A line that rejects means no template is returned |
| TemplateProps.PrefixRejectPersists | libcrystfel/src/datatemplate.c:778-876 | A rejection within the first lines survives the whole loop |
| TemplateProps.RejectedPrefixFailsBuild | libcrystfel/src/datatemplate.c:1212 | A rejection anywhere in the file means no template |
| TemplateProps.NewPanelCopiesDefaults | libcrystfel/src/datatemplate.c:62-97 | A newly mentioned panel is appended as a copy of the defaults as they stand at that line, with the field applied |
| TemplateProps.NegativeZeroResolutionRejected | libcrystfel/src/datatemplate.c:1065-1069 | A panel with `res = -0` fails the pixel-size check |
| TemplateProps.PanelFieldKeepsGain | libcrystfel/src/datatemplate.c:451-557 | No panel field unsets adu_per_eV |
| TemplateProps.PanelFieldKeepsGains | libcrystfel/src/datatemplate.c:451-557 | A field other than the two gains leaves both gains as they were |
| TemplateProps.FirstPanelLine | libcrystfel/src/datatemplate.c:62-97 | The first panel line makes one panel from the defaults, with the field applied |
| TemplateProps.GainCheckNeverFires | libcrystfel/src/datatemplate.c:717-765 | As written, every panel leaves the line loop with a gain, so the check at line 1078 never fires |
| TemplateProps.GainlessPanelHasZeroGains | libcrystfel/src/datatemplate.c:717-765 | As written, a panel named in no gain line has both gains zero |
| TemplateProps.IntendedGainlessPanel | libcrystfel/src/datatemplate.c:1078-1083 | With the gains unset at the start, a panel named in no gain line has neither gain |
| TemplateProps.IntendedGainlessFails | libcrystfel/src/datatemplate.c:1078-1083 | With the gains unset at the start, a panel left without a gain makes the build fail |
| TemplateProps.LinesJoin | libcrystfel/src/datatemplate.c:778-794 | Joining the lines with newlines gives back the text |
| TemplateProps.LinesOfNormalised | libcrystfel/src/datatemplate.c:768-794 | After normalisation no line holds `\r` or `\n` |
| TemplateProps.ResolveGroupsInv | libcrystfel/src/datatemplate.c:1122-1149 | Resolving group definitions keeps group names unique and members valid panel indices |
| TemplateProps.ResolveCollectionsInv | libcrystfel/src/datatemplate.c:1151-1179 | Resolving collection definitions keeps names unique and members valid group indices, and leaves at least one collection |
| TemplateProps.SynthGroupsInv | libcrystfel/src/datatemplate.c:1181-1193 | Synthesised groups keep names unique and members in range |
| TemplateProps.OwnGroups | libcrystfel/src/datatemplate.c:1181-1193 | The groups of one panel each, named after it, in panel order |
| TemplateProps.JoinOwnGroup | libcrystfel/src/datatemplate.c:1181-1193 | With unique panel names, each panel joining its own name adds exactly its singleton group |
| TemplateProps.SynthGroupsSingletons | libcrystfel/src/datatemplate.c:1181-1193 | Synthesis continues the singleton groups to the end |
| TemplateProps.SynthGroupsFromNone | libcrystfel/src/datatemplate.c:1181-1193 | Without definitions or `rigid_group` fields, each panel has a group named after itself holding just it |
| TemplateProps.DefaultCollectionInv | libcrystfel/src/datatemplate.c:1195-1208 | The default collection keeps names unique and members in range, and there is then at least one collection |
| TemplateProps.DefaultCollectionAlone | libcrystfel/src/datatemplate.c:1195-1208 | Without collections, the result is the single collection `default` holding all groups in order |
| TemplateValid.MaskCountsHas | libcrystfel/src/datatemplate.c:912-939 | Any panel with a mask contributes its count |
| TemplateValid.AgreedValues | libcrystfel/src/datatemplate.c:884-910 | When the check flags no difference, every value equals the recorded first one |
| TemplateValid.ChecksPassed | libcrystfel/src/datatemplate.c:884-1116 | Passed checks mean every panel is complete and has a well-formed dim structure of the agreed placeholder count, data paths agree with path_dim, and every region has a frame |
| TemplateValid.SynthGroupsGrow | libcrystfel/src/datatemplate.c:1181-1193 | Synthesis never removes groups |
| TemplateValid.ResolveValid | libcrystfel/src/datatemplate.c:1122-1214 | A resolved template keeps panels and regions, has unique group and collection names, members in range and at least one collection |
| TemplateValid.BuildValid | libcrystfel/src/datatemplate.c:697-1215 | Every template that is returned satisfies the full validity predicate |
| Builder.NormaliseReturns | libcrystfel/src/datatemplate.c:768-773 | The in-place `\r` loop computes the normalised text |
| Builder.CountPlaceholders | libcrystfel/src/datatemplate.c:887-910 | The `strstr` loop counts the `%` placeholders, 0 for no path |
| Builder.CountRoles | libcrystfel/src/datatemplate.c:962-1011 | The role loop counts fs, ss and placeholder roles and finds an undefined one, which decides well-formedness exactly |
| Builder.SettleDims | libcrystfel/src/datatemplate.c:958-1021 | One panel of the dim loop gets the default structure if it has none, with its placeholder count and verdict |
| Builder.CheckPanel | libcrystfel/src/datatemplate.c:1029-1098 | The checks of one panel pass exactly when the panel is complete |
| Builder.AgreeAppend | libcrystfel/src/datatemplate.c:901-907 | The running agreement check is a left fold |
| Builder.AgreePrefix | libcrystfel/src/datatemplate.c:901-907 | One more panel is one more step of the agreement check |
| Builder.LinesHead | libcrystfel/src/datatemplate.c:785-794 | The first line is the text before the first newline, and the others are the lines of what follows it |
| Builder.ParseAllCons | libcrystfel/src/datatemplate.c:778-876 | Parsing lines is applying the first and parsing the rest |
| Builder.ParseTextStep | libcrystfel/src/datatemplate.c:778-876 | One turn of the do-while loop consumes one line and moves past its newline, ending at the last line |
| Builder.AddMembersStep | libcrystfel/src/datatemplate.c:1130-1146 | An unknown panel name fails the definition; a known one appends its index |
| Builder.AddGroupsStep | libcrystfel/src/datatemplate.c:1160-1175 | An unknown group name fails the definition; a known one appends its index |
| Builder.TemplateBuilder.constructor | libcrystfel/src/datatemplate.c:717-766 | The builder starts with no objects and the default defaults, whose gains keep the zero of `calloc` |
| Builder.TemplateBuilder.FindPanelByName | libcrystfel/src/datatemplate.c:124-135 | The first panel with the name, or none |
| Builder.TemplateBuilder.FindBadRegionByName | libcrystfel/src/datatemplate.c:138-150 | The first bad region with the name, or none |
| Builder.TemplateBuilder.FindRigidGroupByName | libcrystfel/src/datatemplate.c:282-294 | The first rigid group with the name, or none |
| Builder.TemplateBuilder.NewPanel | libcrystfel/src/datatemplate.c:62-97 | Appends a copy of the current defaults under the new name and returns its index |
| Builder.TemplateBuilder.NewBadRegion | libcrystfel/src/datatemplate.c:100-121 | Appends a fresh unassigned region and returns its index |
| Builder.TemplateBuilder.FindOrAddRg | libcrystfel/src/datatemplate.c:153-185 | Realises the find-or-add of groups on the builder |
| Builder.TemplateBuilder.FindOrAddRgColl | libcrystfel/src/datatemplate.c:187-218 | Realises the find-or-add of collections on the builder |
| Builder.TemplateBuilder.AddToRigidGroup | libcrystfel/src/datatemplate.c:220-233 | Appends the panel to the group |
| Builder.TemplateBuilder.AddToRigidGroupColl | libcrystfel/src/datatemplate.c:235-251 | Appends the group to the collection |
| Builder.TemplateBuilder.UpdatePanel | libcrystfel/src/datatemplate.c:865-868 | Stores one panel's field update, joins its group, and records a rejection |
| Builder.TemplateBuilder.UpdateBadRegion | libcrystfel/src/datatemplate.c:869-871 | Stores one region's field update and records a rejection |
| Builder.TemplateBuilder.ParseTopLevel | libcrystfel/src/datatemplate.c:615-694 | A top-level line changes the builder as the specification of `parse_toplevel` says |
| Builder.TemplateBuilder.ParseTopNumber | libcrystfel/src/datatemplate.c:621-657 | The `mask_bad`, `mask_good` and bandwidth branches, checked by `strtod` |
| Builder.TemplateBuilder.ParseTopOther | libcrystfel/src/datatemplate.c:639-691 | The other top-level branches and the group and collection definitions |
| Builder.TemplateBuilder.FindOrNewBadRegion | libcrystfel/src/datatemplate.c:854-858 | Looks up the region and creates it when missing |
| Builder.TemplateBuilder.FindOrNewPanel | libcrystfel/src/datatemplate.c:859-863 | Looks up the panel and creates it from the defaults when missing |
| Builder.TemplateBuilder.BadRegionLine | libcrystfel/src/datatemplate.c:853-871 | A `bad*/key` line changes the builder as its specification says |
| Builder.TemplateBuilder.PanelFieldLine | libcrystfel/src/datatemplate.c:853-871 | A `panel/key` line changes the builder as its specification says |
| Builder.TemplateBuilder.ProcessLine | libcrystfel/src/datatemplate.c:796-874 | One line of the loop changes the builder as the line specification says |
| Builder.TemplateBuilder.DataPathDim | libcrystfel/src/datatemplate.c:884-910 | The data-path loop computes path_dim and whether counts differ |
| Builder.TemplateBuilder.MaskPathDim | libcrystfel/src/datatemplate.c:912-939 | The mask-path loop computes mask_path_dim and whether counts differ |
| Builder.TemplateBuilder.CheckDimStructures | libcrystfel/src/datatemplate.c:955-1027 | The dim loop gives each panel a structure, computes dim_dim and fails exactly on a bad structure or differing counts |
| Builder.TemplateBuilder.CheckPanels | libcrystfel/src/datatemplate.c:1029-1108 | Fails exactly when some panel is incomplete, and sets the rail and clen_for_centering defaults |
| Builder.TemplateBuilder.CheckBadRegions | libcrystfel/src/datatemplate.c:1110-1116 | Fails exactly when some region is still unassigned |
| Builder.TemplateBuilder.CheckPaths | libcrystfel/src/datatemplate.c:884-953 | The placeholder checks change the builder as specified |
| Builder.TemplateBuilder.CheckPanelsAndRegions | libcrystfel/src/datatemplate.c:1029-1116 | The panel and region checks change the builder as specified |
| Builder.TemplateBuilder.Validate | libcrystfel/src/datatemplate.c:884-1116 | All checks after the loop change the builder as the specification of validation says |
| Builder.TemplateBuilder.ResolveGroupDef | libcrystfel/src/datatemplate.c:1122-1149 | One group definition succeeds exactly when the specification resolves it, with the same groups |
| Builder.TemplateBuilder.ResolveCollectionDef | libcrystfel/src/datatemplate.c:1151-1179 | One collection definition succeeds exactly when the specification resolves it, with the same collections |
| Builder.TemplateBuilder.ResolveAllGroups | libcrystfel/src/datatemplate.c:1122-1149 | All group definitions in order, stopping at the first failure |
| Builder.TemplateBuilder.ResolveAllCollections | libcrystfel/src/datatemplate.c:1151-1179 | All collection definitions in order, stopping at the first failure |
| Builder.TemplateBuilder.SynthesiseGroups | libcrystfel/src/datatemplate.c:1181-1193 | Each panel joins the group named after itself |
| Builder.TemplateBuilder.FillDefaultCollection | libcrystfel/src/datatemplate.c:1195-1208 | The `default` collection receives every group in order |
| Builder.TemplateBuilder.ParseText | libcrystfel/src/datatemplate.c:778-876 | The do-while loop over the text leaves the builder in the state the fold over its lines gives |
| Builder.TemplateBuilder.ResolveDefinitions | libcrystfel/src/datatemplate.c:1122-1179 | Both resolution loops together succeed exactly when the specification does, with the same groups and collections |
| Builder.TemplateBuilder.SynthesiseMissing | libcrystfel/src/datatemplate.c:1181-1208 | The default groups and collection are added exactly when no definitions were given |
| Builder.TemplateBuilder.Finish | libcrystfel/src/datatemplate.c:1122-1214 | The tail of the builder returns the resolved template, or none on a failed definition or a set `reject` |
| Builder.NewFromString | libcrystfel/src/datatemplate.c:697-1215 | The whole imperative builder returns exactly the specified template |
| Mapper.FindPanel | libcrystfel/src/datatemplate.c:1253-1269 | The first panel covering the pixel, or none exactly when no panel covers it |
| Mapper.FindPanelLoop | libcrystfel/src/datatemplate.c:1253-1269 | The search loop finds exactly that panel |
| Mapper.FirstCover | libcrystfel/src/datatemplate.c:1253-1269 | A covering panel with no covering panel before it is the one found |
| Mapper.FileToPanel | libcrystfel/src/datatemplate.c:1272-1286 | Fails exactly when no panel covers the truncated pixel; otherwise the panel is the first one covering it, as `data_template_find_panel` returns, and its origin is subtracted |
| Mapper.PanelToFile | libcrystfel/src/datatemplate.c:1289-1296 | For a non-negative panel number: fails exactly when it is at or past the panel count, and otherwise adds the panel's origin |
| Mapper.FileToPanelToFile | libcrystfel/src/datatemplate.c:1272-1296 | In exact real arithmetic, converting to panel coordinates and back gives the original file coordinates |
| Mapper.PanelToFileToPanel | libcrystfel/src/datatemplate.c:1272-1296 | In exact real arithmetic, for non-overlapping panels, a point inside a panel converted to file coordinates and back gives the same panel and point |
| Mapper.PanelName | libcrystfel/src/datatemplate.c:1299-1303 | For a non-negative pn: the name of panel pn, none when pn is at or past the panel count |
| Mapper.PanelNumber | libcrystfel/src/datatemplate.c:1306-1320 | The first panel with the name, none for a missing name or no name |
| Mapper.PanelNumberLoop | libcrystfel/src/datatemplate.c:1306-1320 | The linear search computes exactly that number |
| Mapper.NameNumberRoundTrip | libcrystfel/src/datatemplate.c:1299-1320 | With unique names, a panel's name leads back to its number |
| Mapper.NumberNameRoundTrip | libcrystfel/src/datatemplate.c:1299-1320 | A name that is found is the name of the number found |
| Image.FeatureList.constructor | libcrystfel/src/image.c:81-91 | A new feature list is empty with no capacity |
| Image.FeatureList.AddFeature | libcrystfel/src/image.c:57-78 | Appends the feature, keeps earlier ones, grows the capacity by 128 when full, keeps the count within the capacity |
| Image.FeatureList.RemoveFeature | libcrystfel/src/image.c:215-220 | Removes the feature at idx, shifting the later ones left |
| Image.FeatureCount | libcrystfel/src/image.c:187-191 | The number of features, 0 for no list |
| Image.GetFeature | libcrystfel/src/image.c:194-212 | For a non-negative index: none exactly for no list or an index at or past the count, otherwise the feature at the index |
| Image.CopyFeatureList | libcrystfel/src/image.c:103-129 | The copy holds the same features in the same order, in storage sized to the count |
| Image.CopyThenAddOverflows | libcrystfel/src/image.c:103-129 | As written, the first feature added to a non-empty copy is written one past its storage |
| Image.AddSlotInBounds | libcrystfel/src/image.c:57-78 | With the capacity recorded correctly, every add writes inside the storage |
| Image.CopyThenAddsInBounds | libcrystfel/src/image.c:57-129 | With the copy's capacity set to its size, any number of adds stays within the storage |
| Image.UnflaggedFacts | libcrystfel/src/image.c:241-262 | The kept crystals are exactly the unflagged ones, and none are removed exactly when none is flagged |
| Image.UnflaggedCount | libcrystfel/src/image.c:241-262 | Kept plus removed is the original count |
| Image.UnflaggedIdempotent | libcrystfel/src/image.c:241-262 | Removing flagged crystals twice is the same as once |
| Image.UnflaggedNone | libcrystfel/src/image.c:241-262 | Without flagged crystals the list is unchanged |
| Image.CrystalList.constructor | libcrystfel/src/image.c:615-616 | A new image has no crystals |
| Image.CrystalList.AddCrystal | libcrystfel/src/image.c:223-238 | Appends one crystal |
| Image.CrystalList.RemoveFlagged | libcrystfel/src/image.c:241-262 | The shift loop keeps exactly the unflagged crystals in order and returns how many it removed |
| Image.InBadRegion | libcrystfel/src/image.c:407-457 | True exactly when some region, on this panel or on any panel, holds the pixel in its frame: fs/ss shifted by the origin, or x/y from the panel vectors and corner, bounds inclusive |
| Image.OtherPanelRegion | libcrystfel/src/image.c:426-427 | A region scoped to another panel never holds the pixel |
| Image.PanelWidth | libcrystfel/src/image.c:383-384 | The width orig_max_fs - orig_min_fs + 1 is at least one exactly when the panel's fs extent is not empty |
| Image.PanelHeight | libcrystfel/src/image.c:385-386 | The height orig_max_ss - orig_min_ss + 1 is at least one exactly when the panel's ss extent is not empty |
| Image.PanelExtent | libcrystfel/src/image.c:383-386 | A raw-file pixel lies in the panel's original extents exactly when its offset from the origin lies inside the w by h panel, and its buffer index is then below w*h |
| Image.MaskIndexInside | libcrystfel/src/image.c:520-527 | The index fs+ss*w of a pixel inside the panel lies inside the mask |
| Image.MaskIndexDistinct | libcrystfel/src/image.c:520-527 | Different pixels have different indices |
| Image.MaskIndexCovers | libcrystfel/src/image.c:520-527 | Every mask index is the index of some pixel |
| Image.FillBadMask | libcrystfel/src/image.c:495-531 | The intended fill (as written: Image.BadPanelMaskAsWritten, see ## Findings). The mask has w*h entries and each pixel's is true exactly when the panel is bad, the pixel is in a bad region, or its value is not finite |
| Image.BadPanelMaskAsWritten | libcrystfel/src/image.c:512-516 | The byte-wise `memset` result has one entry per pixel |
| Image.BadPanelMaskAsWrittenMisses | libcrystfel/src/image.c:512-516 | As written, a bad panel's mask has pixels marked good |
| Image.BadPanelAllBad | libcrystfel/src/image.c:495-531 | As intended, every pixel of a bad panel is bad |
| Image.UnitFactor | libcrystfel/src/image.c:311-317 | `mm` gives 0.001 and `m` gives 1, and any other unit none |
| Image.GetLength | libcrystfel/src/image.c:320-344 | No source gives no length; without a space the value is in millimetres; with one, the text after the first space is the unit |
| Image.GetLengthAsWrittenCrashes | libcrystfel/src/image.c:334-339 | As written, a source without a space dereferences a null pointer |
| Image.GetLengthAgrees | libcrystfel/src/image.c:320-344 | As written it crashes exactly without a space, and otherwise agrees with the intended length |
| H5.FindFrom | libcrystfel/src/hdf5-file.c:57-82 | The first `/` at or after a position, or none |
| H5.LastSlash | libcrystfel/src/hdf5-file.c:57-82 | The last `/` after position 0, or none exactly when there is none |
| H5.SplitPath | libcrystfel/src/hdf5-file.c:57-82 | With a `/` after position 0, group + "/" + object is the path and the object has no `/`; without one, no group and the whole path as object |
| H5.SplitGroupAndObject | libcrystfel/src/hdf5-file.c:57-82 | The scanning loop computes that split |
| H5.SplitRootObject | libcrystfel/src/hdf5-file.c:64-81 | `/data` has no group and is its own object |
| H5.AddedField | libcrystfel/src/hdf5-file.c:1264-1298 | The name is in the list afterwards; an existing name leaves it unchanged, and a new name is appended |
| H5.AddedFieldIdempotent | libcrystfel/src/hdf5-file.c:1264-1298 | Adding a name twice is the same as once |
| H5.AddedFieldDistinct | libcrystfel/src/hdf5-file.c:1264-1298 | The list never holds a duplicate |
| H5.CopyFieldList.constructor | libcrystfel/src/hdf5-file.c:1235-1250 | A new list is empty with capacity 32 |
| H5.CopyFieldList.AddField | libcrystfel/src/hdf5-file.c:1264-1298 | The fields become the specified addition, the capacity grows by 32 only when a new name meets a full list, and the count stays within the capacity |
| H5.LocationNames | libcrystfel/src/hdf5-file.c:355-454 | The dataset path of each location, in order |
| H5.GroupLocations | libcrystfel/src/hdf5-file.c:355-454 | The grouping loop computes the specified locations, with `/data/data` as the default |
| H5.PlaceShape | libcrystfel/src/hdf5-file.c:355-454 | A panel joins the locations of its path, or opens a new one at the end holding just it with its extent |
| H5.GroupedDistinct | libcrystfel/src/hdf5-file.c:355-454 | Location paths are unique, and location 0 is the first panel's |
| H5.GroupedMembers | libcrystfel/src/hdf5-file.c:355-454 | Every member of a location has the location's path, and each location's extent covers its members' |
| H5.GroupedIncreasing | libcrystfel/src/hdf5-file.c:355-454 | Each location lists its panels in increasing order |
| H5.GroupedCovers | libcrystfel/src/hdf5-file.c:355-454 | Every panel is held by some location |
| H5.GroupedExactly | libcrystfel/src/hdf5-file.c:355-454 | Every panel is in exactly one location, the one of its path, whose extent covers it |
| H5.FlagsAgree | libcrystfel/src/hdf5-file.c:807-838 | With all good bits and no bad bit, a pixel is bad exactly for no_index or a bad region |
| H5.BadBitMarks | libcrystfel/src/hdf5-file.c:834-835 | Any `mask_bad` bit in the flags makes the pixel bad |
| H5.MissingGoodBitMarks | libcrystfel/src/hdf5-file.c:830-832 | Any missing `mask_good` bit makes the pixel bad |
| H5.Placed | libcrystfel/src/hdf5-file.c:914-917 | Each original extent of -1 becomes the panel's old min/max fs/ss, and any other original extent is kept; the panel is then placed as at 1023-1026, spanning the full width and its height from the current row, with its size and mask kept |
| H5.Stack | libcrystfel/src/hdf5-file.c:1023-1027 | Stacking keeps the number of panels |
| H5.StackContiguous | libcrystfel/src/hdf5-file.c:1023-1027 | The first panel starts at row 0 and each next one directly below the one before |
| H5.StackEnds | libcrystfel/src/hdf5-file.c:1023-1027 | The last panel ends at the last row of an image as tall as all panels |
| H5.StackDisjoint | libcrystfel/src/hdf5-file.c:1023-1027 | Panels of positive height never share a row |
| H5.StackPanels | libcrystfel/src/hdf5-file.c:873-887 | Fails exactly when some panel's width differs from panel 0's, and otherwise stacks the panels in an image as wide as a panel and as tall as all of them |
| H5.MaskPresentAsWrittenUndetermined | libcrystfel/src/hdf5-file.c:862-883 | As written, without panel masks the flag depends on its uninitialised value |
| H5.MaskPresent | libcrystfel/src/hdf5-file.c:883 | As intended, the flag is set exactly when some panel has a mask |
| H5.FindMaskPresent | libcrystfel/src/hdf5-file.c:876-887 | The loop computes the intended flag |
| Partialator.RefList.constructor | src/partialator.c:170-216 | The list holds the given reflections |
| Partialator.RefList.SelectScalable | src/partialator.c:170-216 | Each reflection is marked scalable by the rule and nothing else changes; the result is the number marked |
| Partialator.RefList.SelectRefinable | src/partialator.c:249-289 | Fails exactly when some reflection aborts, and otherwise sets every refinable flag by the decision |
| Partialator.MarkScalable | src/partialator.c:179-208 | Marking keeps the number of reflections |
| Partialator.CountScalableBounds | src/partialator.c:210-216 | The count is at most the list length, equals it exactly when all are scalable, and is 0 exactly when none is |
| Partialator.MarkScalableIdempotent | src/partialator.c:179-208 | Selecting twice gives the same flags, because the rule does not read the flag it sets |
| Partialator.ReferenceNarrows | src/partialator.c:202-206 | A reflection scalable against a reference is scalable without one and is in the reference |
| Partialator.Refined | src/partialator.c:249-289 | Refinement selection keeps the number of reflections |
| Partialator.AbortIff | src/partialator.c:273-285 | The selection aborts exactly for a strong scalable reflection missing from the merged list |
| Partialator.NewlyRefinable | src/partialator.c:170-289 | A reflection that became refinable is strong, was seen, has partiality at least 0.05, is in any reference, and has a merged redundancy of at least 2 when there is no reference |
| Partialator.SelectForRefinement | src/partialator.c:220-296 | Over all crystals: fails exactly when some crystal's list aborts, and otherwise every list is refined |
| Partialator.ParseModel | src/partialator.c:466-475 | The sphere model by default; a given name is accepted exactly when it is `sphere` or `unity` |
| Partialator.ModelNameRoundTrip | src/partialator.c:466-475 | A model's own name selects it, and an accepted name is the name of the model it selects |
| Partialator.RefineThreads | src/partialator.c:138-168 | No refinement exactly for the unity model; otherwise the thread count, capped at the number of crystals |
| Fom.FomTypeFromString | libcrystfel/src/fom.c:46-63 | A name is accepted exactly when it equals one of the twelve names in any case, and selects that figure of merit |
| Fom.FomTypeCaseInsensitive | libcrystfel/src/fom.c:46-63 | Names that differ only in case select the same figure of merit |
| Fom.FomNameRoundTrip | libcrystfel/src/fom.c:46-63 | Each figure of merit's own name selects it |
| Fom.OneSigmaWithinTwo | libcrystfel/src/fom.c:206-216 | Agreement within one sigma implies agreement within two |
| Fom.FomContext.constructor | libcrystfel/src/fom.c:66-140 | All per-shell counters start at zero |
| Fom.FomContext.AddToFom | libcrystfel/src/fom.c:143-220 | `cts[bin]` rises by one; the pair count rises for the correlation figures unless the bin is full, which fails; `n_within[bin]` rises once exactly for an agreeing pair under D1SIG/D2SIG; all other bins unchanged |
| Fom.FirstShell | libcrystfel/src/fom.c:478-501 | The first shell from j that holds d, or none exactly when no later shell holds it |
| Fom.GetBin | libcrystfel/src/fom.c:478-501 | The first shell holding d when there is one; otherwise shell 0 when d is at or below the lowest bound or at or above the highest; none exactly when no shell holds d and d lies strictly inside the overall range, where `get_bin` asserts |
| Fom.GetBinLoop | libcrystfel/src/fom.c:478-501 | The search loop computes that bin, -1 for none |
| Fom.ShellFrom | libcrystfel/src/fom.c:478-501 | With contiguous shells, some shell from j holds any d between its lower bound and the top |
| Fom.ContiguousAlwaysBinned | libcrystfel/src/fom.c:478-501 | With contiguous shells every resolution is binned |
| Fom.Find | libcrystfel/src/fom.c:757 | None exactly when the list lacks the index, and otherwise an entry the list holds |
| Fom.Examine | libcrystfel/src/fom.c:771-825 | The tests of one pair in their order, whether it counts as negative, and the clamped intensities of a taken pair |
| Fom.StepFacts | libcrystfel/src/fom.c:743-827 | One reflection keeps the accepted lists paired and accepted, and tallies one pair exactly when both lists have it |
| Fom.FirstLoopFacts | libcrystfel/src/fom.c:743-827 | The first loop tallies exactly the shared indices, and every accepted pair passed the tests, with the same index in both lists |
| Fom.FirstIndices | libcrystfel/src/fom.c:743-827 | Every index accepted from list 1 is also accepted from list 2 |
| Fom.AnomLoopFacts | libcrystfel/src/fom.c:829-891 | The anomalous loop keeps paired, acentric pairs with a Bijvoet partner in both lists, and every pair is counted as kept, centric or without a partner |
| Fom.SelectedAsWrittenMiscounts | libcrystfel/src/fom.c:829-891 | As written, a centric pair stays in the caller's lists while the count drops to 0 |
| Fom.SelectedCountsPairs | libcrystfel/src/fom.c:724-891 | As intended, the count equals the length of both accepted lists, which pair index by index, every copy passed the tests, and in anomalous mode none is centric |
| Fom.FirstPass | libcrystfel/src/fom.c:743-827 | The loop computes the first pass |
| Fom.AnomPass | libcrystfel/src/fom.c:829-891 | The loop computes the anomalous re-filter |
| Fom.FomSelectReflections | libcrystfel/src/fom.c:724-891 | The whole selection computes the intended result, whose count is the length of both accepted lists |

## Left out

- File input and output are not modelled: HDF5 and CBF datasets, `image_read`'s format dispatch and mask-file loading, `get_value`'s file lookup (a `value` parameter of `GetLength`), and `data_template_new_from_file`.
- Allocation failures are not modelled: every `malloc`, `realloc` and `strdup` is assumed to succeed, and memory ownership and freeing are left out. Pointers into growing arrays are indices, so the dangling panel pointers of rigid groups after `realloc` do not arise.
- `initialize_dim_structure`, `default_dim_structure` and `set_dim_structure_entry` are not part of this model. A dim structure is a sequence of roles, and these three routines are parameters (`DimHelpers`).
- `notrail` and `assplode` are not part of this model. `notrail` is taken to strip trailing spaces and tabs, and `assplode(",", ASSPLODE_NONE)` to split while dropping empty tokens.
- Text.Strtod: `atof`/`strtod` cover decimal numbers only (sign, digits, fraction, exponent); `inf`, `nan` and hexadecimal forms are left out. Values are exact reals, so overflow to infinity and underflow to a signed zero are not modelled.
- Text.Strtoul: an unsigned long is taken to be 64 bits wide, and its conversion to `int` to keep the low 32 bits, as GCC does.
- The private header declaring `panel_template` is not part of this model, so orig_min/max fs/ss and the bad-region fs/ss bounds are taken to be `int`, assigned by truncating `atof`.
- `data_template_new_from_string`'s check that `n_panels == -1` (878-882) can never fire, because the count starts at 0; it is left out.
- Direction.SumTerms: a term of length zero is not modelled, because the split never produces one; the C code asserts against it.
- `data_template_to_detgeom`, `data_template_get_slab_extents` and `data_template_in_bad_region` are left out, because they do not compile; `image.c`'s bad-region test is modelled instead. `data_template_panel_name_to_number` uses an undeclared loop counter; it is modelled as the first-match search it evidently is.
- `data_template_add_copy_header` only prints a message, so it is left out.
- Mapper.FileToPanel / Mapper.PanelToFile / Mapper.FileToPanelToFile / Mapper.PanelToFileToPanel: the coordinates are C `float`s, but single-precision rounding is not modelled; the round trips hold for exact reals only, and the panel-to-file one may fail in single precision (for example 0.1 with a panel origin of 1000).
- Mapper.PanelToFile / Mapper.PanelName / Image.GetFeature: the C code checks only the upper bound of the index, so a negative index reads before the array, which is undefined behaviour. The model gives these indices type `nat` (or requires `idx >= 0`) and says nothing about a negative index.
- Template.After: a top-level key shorter than the `rigid_group_` prefix reads past the end of the key in C; the model returns the empty remainder instead, which no fixed key reaches.
- `create_detgeom` is modelled only for its width and height. Its unit conversion and the rest of `detgeom` are floating-point set-up that is left out.
- `sort_peaks` and `image_feature_closest` are left out. The comparator of `sort_peaks` never returns a negative value, so the order is unspecified. `image_feature_closest` is a distance computation.
- The floating-point statistics of `fom.c` are left out: `fom_overall`, `fom_shell`, the `num`/`den` accumulators of `add_to_fom`, `wilson_scale`, `fom_make_resolution_shells` and `fom_shell_label`. The D1SIG/D2SIG test compares squares instead of taking a square root.
- `find_refl`'s lookup tree is not modelled: a reflection list is a sequence of entries, and a lookup takes the first entry with the index.
- The resolution, the centricity and the symmetric equivalents of a reflection are parameters, because the unit-cell and symmetry code is not part of this model.
- partialator's counters other than the scalable count (n_red, n_par, n_ref, n_weak) and its status messages are left out, and so are the messages of `fom_select_reflections`.
- Threads are not modelled: `run_threads`, `refine_image` and the crystal queue. Only the decision to refine and the thread count are modelled.
- The GPU, network, command-line and drawing code is left out. Header-only files are left out. `src/hdf5-file.c`, `src/stream.c` and `src/reflections.c` are file-handling plumbing, so they are left out too.

## Findings

| source | as written | input that shows it | evidently intended | confidence | as-written member | corrected member |
|---|---|---|---|---|---|---|
| libcrystfel/src/image.c:103-129 | `image_feature_list_copy` allocates `n_features` entries but leaves `max_features` at 0, so the next `image_add_feature` sees no full list and writes one past the storage | a list with one feature, copied, then one feature added | the copy records its capacity as the number of entries it allocated | not executed | Image.CopyThenAddOverflows | Image.CopyThenAddsInBounds |
| libcrystfel/src/image.c:512-516 | `memset(image->bad[i], 1, p_w*p_h)` sets `p_w*p_h` bytes of an `int` array, so only the first quarter of the entries become non-zero, and each of those is 0x01010101 | a bad panel of 4 pixels: entries 1 to 3 stay 0 (good) | every pixel of a bad panel is marked bad | not executed | Image.BadPanelMaskAsWrittenMisses | Image.BadPanelAllBad |
| libcrystfel/src/image.c:334-339 | when there is no space, `sp` is NULL and `sp[0] = '\0'` dereferences it, although line 334 chose millimetres for this case | `get_length` of `"clen"` | a value without a unit is read in millimetres | not executed | Image.GetLengthAsWrittenCrashes | Image.GetLengthAgrees |
| libcrystfel/src/hdf5-file.c:862-883 | `mask_is_present` is never initialised, and only a panel mask sets it | a detector whose panels have no mask | the flag starts at 0, so flags are allocated exactly when some panel has a mask | not executed | H5.MaskPresentAsWrittenUndetermined | H5.FindMaskPresent |
| libcrystfel/src/datatemplate.c:717-765 | the default defaults never set `adu_per_eV` or `adu_per_photon`, so both keep the 0.0 of `calloc`, and the check at line 1078 that a panel has one of them never fires | a panel with min/max fs and ss, corners, `clen`, `res` and `data` but no gain line: the gain check passes | the gains start as NaN, so a panel without either is rejected; the model follows the code as written, and `Template.BuildIntended` starts from the unset gains | not executed | TemplateProps.GainCheckNeverFires | TemplateProps.IntendedGainlessFails |
| libcrystfel/src/fom.c:829-891 | the anomalous re-filter builds new lists but only assigns the function's local pointers, so the caller keeps the first-pass lists while `ncom` is recounted | anomalous mode, both lists holding one centric reflection (0,0,1): the caller's lists hold 1 pair, and the result is 0 | the caller receives the re-filtered lists, whose length is the count | not executed | Fom.SelectedAsWrittenMiscounts | Fom.SelectedCountsPairs |
