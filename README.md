# Skyblocker: dungeon secrets, upgrade widget and kill-combo filter, in Dafny

This project models three pieces of the Skyblocker client mod and proves
properties of the models.

- **Dungeon secrets** (`dungeon_secrets.dfy`, module `DungeonSecrets`):
  - the block palette `NUMERIC_ID`;
  - the room catalog (dungeon -> room shape -> room name -> block data) that
    `load` and `readRooms` build from the bundled data directory;
  - `isRoomsLoaded`;
  - the `init` guard;
  - the calibration that `update` does on each tick (`mapEntrancePos`,
    `mapRoomWidth`).

  The Java class keeps its state in static fields. Here one `DungeonSecrets`
  object holds those fields. Its methods `LoadDungeon`, `Load`, `Init` and
  `Update` update the fields the way the Java code does, with loops where
  the Java code loops. Each is proved to leave the fields in the state that
  a pure transition function on the `State` snapshot gives, and the
  properties are proved about those functions. The static method
  `ReadRooms` changes no field: its loop is proved to return the room map
  (or the exception) that `ReadRoomsOf` gives. Loading is sequentialised: every
  asynchronous task runs to completion in the order it is created.
- **Upgrade widget** (`upgrade_widget.dfy`, module `UpgradeWidget`): the
  widget constructor turns the tab-list footer text into component lines.
  - `Render` specifies the result, including the exception thrown when the
    footer's split has no part 1.
  - The class `UpgradeWidget` keeps the component list as a field, and its
    loop with the early `break` is proved against `Render`.
  - `java_strings.dfy` (module `JavaStrings`) models the Java `String`
    operations the parser relies on: `indexOf`, `contains`, `split` with a
    literal separator (trailing empty strings removed), and `trim`.
- **Kill-combo chat filter** (`combo_filter.dfy`, module `ComboFilter`):
  - the filter's anchored regular expression is modelled by a hand-written
    recognizer, `IsComboMessage`;
  - it is proved to accept exactly the three message shapes, with non-empty
    runs of ASCII digits.

`wrappers.dfy` holds an `Option` type.

Java strings are sequences of UTF-16 code units, and Dafny strings are
sequences of Unicode scalar values. Where the code measures a length
(`trim().length()` in the widget, `name.length() - 9` in `readRooms`), the
model counts code units with `JavaStrings.Utf16Length`, so a character
outside the Basic Multilingual Plane counts twice. `indexOf`, `split` and
`trim` are modelled on characters: their separators are ASCII and the
characters `trim` removes are single code units, so the parts they produce
are the same either way.

Inputs the code reads from the host or the file system become parameters:
- the directory listings, which are `Option`s, with `None` where `listFiles()`
  returns null;
- what the decoder makes of each room file (`RoomBlob`);
- the result of the JSON task (`MetadataRead`);
- the configuration flags, as booleans;
- what one update tick observes (`Tick`), where `DungeonMapUtils` becomes an
  oracle (`MapOracle`).

The model follows what the code does, including where a reader might expect
otherwise:
- **No reset.** One might expect `mapEntrancePos` and `mapRoomWidth` to be
  reset when a new dungeon instance begins. Nothing in the code resets them:
  once set, they stay fixed for the life of the process
  (`CalibrationIsStable`).
- **`init` is not idempotent.** One might expect loading to happen once.
  `init` has no guard against a second call: it loads again, replaces the
  entry of every dungeon it reloads, and schedules a second cyclic update
  (`InitGuard`, `LoadDungeonsEntry`).
- **Failures can escape.** One might expect every task failure to be caught
  and treated as an absent entry. The model keeps two exceptions that escape
  `readRooms`: a room file name shorter than 9 UTF-16 code units whose
  stream opened (the key's `substring` runs after the stream is opened) and
  an object that is not an `int[]` (the cast). A third, from
  `substring(resourcePathIndex)`, is under "## Left out". Either one kept
  drops the whole room shape from its dungeon and completes `roomsLoaded` exceptionally. That
  future is still done, so `isRoomsLoaded` is true (`LoadCompletes`).

## Model

| member | source | states |
|---|---|---|
| `DungeonSecrets.NUMERIC_ID` | src/main/java/me/xmrvizzy/skyblocker/skyblock/dungeon/secrets/DungeonSecrets.java:35-57 | the 21 block identifiers and their ids; `NumericIdInjective`, `NumericIdRange`, `NumericIdCodes` and `NumericIdSize` state what it is |
| `DungeonSecrets.InjectiveCard` | src/main/java/me/xmrvizzy/skyblocker/skyblock/dungeon/secrets/DungeonSecrets.java:35-57 | an injective map has exactly as many distinct values as keys (used for the palette's size) |
| `DungeonSecrets.Codes` | src/main/java/me/xmrvizzy/skyblocker/skyblock/dungeon/secrets/DungeonSecrets.java:35-57 | the byte codes 1..n, a set of exactly n elements |
| `DungeonSecrets.NumericIdInjective` | src/main/java/me/xmrvizzy/skyblocker/skyblock/dungeon/secrets/DungeonSecrets.java:35-57 | no two block identifiers share a numeric id |
| `DungeonSecrets.NumericIdHasCode` | src/main/java/me/xmrvizzy/skyblocker/skyblock/dungeon/secrets/DungeonSecrets.java:35-57 | every code 1..21 is the id of some block identifier |
| `DungeonSecrets.NumericIdRange` | src/main/java/me/xmrvizzy/skyblocker/skyblock/dungeon/secrets/DungeonSecrets.java:35-57 | every id lies in 1..21, so no identifier maps to 0 |
| `DungeonSecrets.NumericIdCodes` | src/main/java/me/xmrvizzy/skyblocker/skyblock/dungeon/secrets/DungeonSecrets.java:35-57 | the set of ids is exactly the codes 1..21 |
| `DungeonSecrets.NumericIdSize` | src/main/java/me/xmrvizzy/skyblocker/skyblock/dungeon/secrets/DungeonSecrets.java:35-57 | the table has 21 identifiers and 21 distinct ids |
| `DungeonSecrets.RoomStepOf` | src/main/java/me/xmrvizzy/skyblocker/skyblock/dungeon/secrets/DungeonSecrets.java:127-136 | what one room file does: skipped, put under its key, or an escaping exception; `RoomKeyCountsCodeUnits` and `RoomFilesThrow` state it |
| `DungeonSecrets.ReadRoomFiles` | src/main/java/me/xmrvizzy/skyblocker/skyblock/dungeon/secrets/DungeonSecrets.java:127-136 | readRooms over a listing; `RoomFilesThrow`, `RoomFilesKey`, `RoomFilesValue` and `SkippedRoomIsInert` state it |
| `DungeonSecrets.ReadRoomsOf` | src/main/java/me/xmrvizzy/skyblocker/skyblock/dungeon/secrets/DungeonSecrets.java:120-139 | readRooms of one room shape; `ReadRoomsUnlisted` states the unlisted case |
| `DungeonSecrets.ReadRoomsUnlisted` | src/main/java/me/xmrvizzy/skyblocker/skyblock/dungeon/secrets/DungeonSecrets.java:122-126 | a room shape whose listing is null yields an empty room map |
| `DungeonSecrets.RoomKeyCountsCodeUnits` | src/main/java/me/xmrvizzy/skyblocker/skyblock/dungeon/secrets/DungeonSecrets.java:128-133 | for a name of basic-plane characters the key is the name without its last 9 characters and a shorter name throws; four emoji and a letter already make length 9 and give the empty key |
| `DungeonSecrets.RoomFilesThrow` | src/main/java/me/xmrvizzy/skyblocker/skyblock/dungeon/secrets/DungeonSecrets.java:127-136 | readRooms escapes with an exception exactly when some room file has a name shorter than 9 UTF-16 code units (with a stream that opened) or decodes to a non-`int[]` |
| `DungeonSecrets.RoomFilesKey` | src/main/java/me/xmrvizzy/skyblocker/skyblock/dungeon/secrets/DungeonSecrets.java:127-136 | the returned map has a key exactly for the room files that decode, each keyed by its name without the last 9 UTF-16 code units |
| `DungeonSecrets.RoomFilesValue` | src/main/java/me/xmrvizzy/skyblocker/skyblock/dungeon/secrets/DungeonSecrets.java:127-136 | each key holds the data of the last room file that decodes to that key |
| `DungeonSecrets.SkippedRoomIsInert` | src/main/java/me/xmrvizzy/skyblocker/skyblock/dungeon/secrets/DungeonSecrets.java:127-136 | a room that fails to decode has no effect: the result equals that of the listing without it, so its siblings stay |
| `DungeonSecrets.DungeonSecrets.ReadRooms` | src/main/java/me/xmrvizzy/skyblocker/skyblock/dungeon/secrets/DungeonSecrets.java:120-139 | the loop over the room files returns the readRooms result (`ReadRoomsOf`) that the lemmas above describe, throwing at the first escaping exception |
| `DungeonSecrets.LoadShapes` | src/main/java/me/xmrvizzy/skyblocker/skyblock/dungeon/secrets/DungeonSecrets.java:97-102 | the map one dungeon's shape tasks build; `LoadShapesEntry`, `LoadShapesOnlyNames` and `LoadShapesThrew` state it |
| `DungeonSecrets.LoadShapesEntry` | src/main/java/me/xmrvizzy/skyblocker/skyblock/dungeon/secrets/DungeonSecrets.java:97-101 | with distinct shape names, each room shape whose readRooms returned is bound to that result, and a shape whose readRooms threw has no entry |
| `DungeonSecrets.LoadShapesOnlyNames` | src/main/java/me/xmrvizzy/skyblocker/skyblock/dungeon/secrets/DungeonSecrets.java:97-101 | a dungeon's map has no key that is not a room shape's name |
| `DungeonSecrets.LoadShapesThrew` | src/main/java/me/xmrvizzy/skyblocker/skyblock/dungeon/secrets/DungeonSecrets.java:99-102 | a dungeon's tasks fail exactly when some readRooms of that dungeon threw |
| `DungeonSecrets.DungeonSecrets.LoadDungeon` | src/main/java/me/xmrvizzy/skyblocker/skyblock/dungeon/secrets/DungeonSecrets.java:97-101 | replaces the dungeon's entry by the map its shape tasks build, reports whether one threw, and changes no other field |
| `DungeonSecrets.LoadDungeons` | src/main/java/me/xmrvizzy/skyblocker/skyblock/dungeon/secrets/DungeonSecrets.java:88-103 | the loop over the dungeon directories; `LoadDungeonsKey`, `LoadDungeonsEntry`, `LoadDungeonsKeepsOthers` and `LoadDungeonsThrew` state it |
| `DungeonSecrets.LoadDungeonsKey` | src/main/java/me/xmrvizzy/skyblocker/skyblock/dungeon/secrets/DungeonSecrets.java:88-97 | after the loop a dungeon name is a key exactly when it was before or some entry with that name is a directory whose listing succeeded; non-directories and failed listings add nothing |
| `DungeonSecrets.LoadDungeonsEntry` | src/main/java/me/xmrvizzy/skyblocker/skyblock/dungeon/secrets/DungeonSecrets.java:88-103 | a loaded dungeon's entry is the map built by the shape tasks of its last entry |
| `DungeonSecrets.LoadDungeonsKeepsOthers` | src/main/java/me/xmrvizzy/skyblocker/skyblock/dungeon/secrets/DungeonSecrets.java:88-103 | an entry that no loaded dungeon replaces keeps its value |
| `DungeonSecrets.LoadDungeonsThrew` | src/main/java/me/xmrvizzy/skyblocker/skyblock/dungeon/secrets/DungeonSecrets.java:88-103 | the loop fails exactly when some loaded dungeon's shape tasks failed |
| `DungeonSecrets.CatalogAfterLoad` | src/main/java/me/xmrvizzy/skyblocker/skyblock/dungeon/secrets/DungeonSecrets.java:88-114 | after load, the catalog entry of a room shape (distinct names, the last entry of its dungeon) is that shape's readRooms result |
| `DungeonSecrets.DungeonSecrets.constructor` | src/main/java/me/xmrvizzy/skyblocker/skyblock/dungeon/secrets/DungeonSecrets.java:58-63 | the fields start as the class initialiser leaves them: empty catalog, no documents, no future, no entrance, width 0, nothing scheduled |
| `DungeonSecrets.RoomsLoaded` | src/main/java/me/xmrvizzy/skyblocker/skyblock/dungeon/secrets/DungeonSecrets.java:65-67 | isRoomsLoaded on a snapshot; `NotLoadedInitially` and `LoadCompletes` state when it holds |
| `DungeonSecrets.NotLoadedInitially` | src/main/java/me/xmrvizzy/skyblocker/skyblock/dungeon/secrets/DungeonSecrets.java:61-67 | before load assigns the future, isRoomsLoaded is false |
| `DungeonSecrets.LoadCompletes` | src/main/java/me/xmrvizzy/skyblocker/skyblock/dungeon/secrets/DungeonSecrets.java:65-67 | after load the rooms are loaded exactly when the data directory could be listed (or were loaded before), completion is exceptional exactly when some readRooms threw, and no calibration field changes |
| `DungeonSecrets.ApplyMetadata` | src/main/java/me/xmrvizzy/skyblocker/skyblock/dungeon/secrets/DungeonSecrets.java:105-113 | what the JSON task assigns; `MetadataOrder` states it |
| `DungeonSecrets.LoadState` | src/main/java/me/xmrvizzy/skyblocker/skyblock/dungeon/secrets/DungeonSecrets.java:81-118 | the fields after load; `LoadCompletes`, `LoadDocuments` and `CatalogAfterLoad` state them |
| `DungeonSecrets.MetadataOrder` | src/main/java/me/xmrvizzy/skyblocker/skyblock/dungeon/secrets/DungeonSecrets.java:105-113 | the waypoints document is assigned only after the rooms document, and a failed open or failed first parse assigns nothing; a parsed rooms document becomes `roomsJson`, a parsed waypoints document becomes `waypointsJson`, and no other field changes |
| `DungeonSecrets.LoadDocuments` | src/main/java/me/xmrvizzy/skyblocker/skyblock/dungeon/secrets/DungeonSecrets.java:105-113 | after load both parsed documents are stored, a rooms document whose waypoints did not parse is stored alone, and with no listing, an unopened reader or an unparsed rooms document the old documents stay |
| `DungeonSecrets.DungeonSecrets.Load` | src/main/java/me/xmrvizzy/skyblocker/skyblock/dungeon/secrets/DungeonSecrets.java:81-118 | the fields afterwards are `LoadState` of the fields before: unchanged when the directory cannot be listed, otherwise the built catalog, the JSON documents and a done `roomsLoaded` |
| `DungeonSecrets.DungeonSecrets.IsRoomsLoaded` | src/main/java/me/xmrvizzy/skyblocker/skyblock/dungeon/secrets/DungeonSecrets.java:65-67 | true exactly when the snapshot has an assigned, done future |
| `DungeonSecrets.InitState` | src/main/java/me/xmrvizzy/skyblocker/skyblock/dungeon/secrets/DungeonSecrets.java:73-79 | the fields after init; `InitGuard` states them |
| `DungeonSecrets.InitGuard` | src/main/java/me/xmrvizzy/skyblocker/skyblock/dungeon/secrets/DungeonSecrets.java:73-79 | with `noLoadSecretWaypoints` set, init changes nothing; otherwise every field is what load leaves, and one more update every 10 ticks is scheduled |
| `DungeonSecrets.DungeonSecrets.Init` | src/main/java/me/xmrvizzy/skyblocker/skyblock/dungeon/secrets/DungeonSecrets.java:73-79 | the fields afterwards are `InitState` of the fields before |
| `DungeonSecrets.Calibrate` | src/main/java/me/xmrvizzy/skyblocker/skyblock/dungeon/secrets/DungeonSecrets.java:141-163 | a failed guard changes nothing; a known entrance and a non-zero width are kept; with the guards passing, an unknown entrance becomes the oracle's entrance and, once an entrance is known, a width of 0 becomes the oracle's width at it; nothing else changes the two fields |
| `DungeonSecrets.UpdateOnlyCalibrates` | src/main/java/me/xmrvizzy/skyblocker/skyblock/dungeon/secrets/DungeonSecrets.java:141-163 | update touches only `mapEntrancePos` and `mapRoomWidth`, and nothing when a guard fails |
| `DungeonSecrets.UpdateState` | src/main/java/me/xmrvizzy/skyblocker/skyblock/dungeon/secrets/DungeonSecrets.java:141-163 | the fields after one update; `UpdateOnlyCalibrates` states them |
| `DungeonSecrets.CalibrationIsStable` | src/main/java/me/xmrvizzy/skyblocker/skyblock/dungeon/secrets/DungeonSecrets.java:157-162 | over any sequence of ticks a known entrance and a non-zero width stay fixed, and a width never exists without an entrance |
| `DungeonSecrets.InitialCalibrationValid` | src/main/java/me/xmrvizzy/skyblocker/skyblock/dungeon/secrets/DungeonSecrets.java:62-63 | from the initial fields, no tick sequence sets a width without an entrance |
| `DungeonSecrets.DungeonSecrets.Update` | src/main/java/me/xmrvizzy/skyblocker/skyblock/dungeon/secrets/DungeonSecrets.java:141-163 | the fields afterwards are `UpdateState` of the fields before |
| `JavaStrings.IndexFrom` | src/main/java/me/xmrvizzy/skyblocker/skyblock/tabhud/widget/UpgradeWidget.java:28 | the first occurrence at or after `from`, or -1 when there is none |
| `JavaStrings.IndexOf` | src/main/java/me/xmrvizzy/skyblocker/skyblock/tabhud/widget/UpgradeWidget.java:28 | the first occurrence, or -1 exactly when the text does not occur |
| `JavaStrings.Contains` | src/main/java/me/xmrvizzy/skyblocker/skyblock/tabhud/widget/UpgradeWidget.java:28 | true exactly when the text occurs at some position |
| `JavaStrings.Utf16Units` | src/main/java/me/xmrvizzy/skyblocker/skyblock/tabhud/widget/UpgradeWidget.java:38 | a character takes two UTF-16 code units exactly when it lies outside the Basic Multilingual Plane, one otherwise |
| `JavaStrings.Utf16Length` | src/main/java/me/xmrvizzy/skyblocker/skyblock/tabhud/widget/UpgradeWidget.java:38 | `length()`: between the number of characters and twice it, and equal to it exactly when every character is one code unit |
| `JavaStrings.DropLastUnits` | src/main/java/me/xmrvizzy/skyblocker/skyblock/dungeon/secrets/DungeonSecrets.java:131 | `substring(0, length() - n)`: a prefix whose length is n code units less, or one less still when the cut falls inside a surrogate pair; on basic-plane text, the text without its last n characters |
| `JavaStrings.Pieces` | src/main/java/me/xmrvizzy/skyblocker/skyblock/tabhud/widget/UpgradeWidget.java:34-35 | the pieces between separators, at least one; `PiecesJoin`, `PiecesFreeOfSeparator` and `PiecesAllEmpty` state what they are |
| `JavaStrings.DropTrailingEmpty` | src/main/java/me/xmrvizzy/skyblocker/skyblock/tabhud/widget/UpgradeWidget.java:34-35 | a prefix of the parts whose removed tail is all empty strings and whose last part is not empty |
| `JavaStrings.Split` | src/main/java/me/xmrvizzy/skyblocker/skyblock/tabhud/widget/UpgradeWidget.java:34-35 | `split` with a literal separator; `SplitSecondPart` states when part 1 exists and what it is |
| `JavaStrings.PiecesJoin` | src/main/java/me/xmrvizzy/skyblocker/skyblock/tabhud/widget/UpgradeWidget.java:34-35 | joining the split pieces with the separator gives back the text |
| `JavaStrings.PiecesFreeOfSeparator` | src/main/java/me/xmrvizzy/skyblocker/skyblock/tabhud/widget/UpgradeWidget.java:34-35 | no split piece contains the separator |
| `JavaStrings.PiecesAllEmpty` | src/main/java/me/xmrvizzy/skyblocker/skyblock/tabhud/widget/UpgradeWidget.java:34 | every piece is empty exactly when the text is only copies of the separator |
| `JavaStrings.KeepsSecond` | src/main/java/me/xmrvizzy/skyblocker/skyblock/tabhud/widget/UpgradeWidget.java:34 | after removing trailing empty parts, a second part survives exactly when some part after the first is non-empty, and it is the original second part |
| `JavaStrings.SplitSecondPart` | src/main/java/me/xmrvizzy/skyblocker/skyblock/tabhud/widget/UpgradeWidget.java:34 | split has a part 1 exactly when the text after the first separator is not only copies of it, and part 1 is the text between the first and second separator |
| `JavaStrings.Before` | src/main/java/me/xmrvizzy/skyblocker/skyblock/tabhud/widget/UpgradeWidget.java:34 | the prefix of the text that ends where the first separator starts, or the whole text when there is none; it does not contain the separator |
| `JavaStrings.LeadingTrimmable` | src/main/java/me/xmrvizzy/skyblocker/skyblock/tabhud/widget/UpgradeWidget.java:38 | the length of the run of characters at most `' '` at the start |
| `JavaStrings.TrailingTrimmable` | src/main/java/me/xmrvizzy/skyblocker/skyblock/tabhud/widget/UpgradeWidget.java:38 | the length of the run of characters at most `' '` at the end |
| `JavaStrings.Trim` | src/main/java/me/xmrvizzy/skyblocker/skyblock/tabhud/widget/UpgradeWidget.java:38 | the slice after the leading run whose tail is trimmable; empty exactly when every character is at most `' '`; otherwise it starts and ends with a character above `' '` |
| `UpgradeWidget.IsUpgradeLine` | src/main/java/me/xmrvizzy/skyblocker/skyblock/tabhud/widget/UpgradeWidget.java:38 | a line is shown when its trimmed length in UTF-16 code units is at least 3; `UpgradeLineCountsCodeUnits` states it |
| `UpgradeWidget.UpgradeLineCountsCodeUnits` | src/main/java/me/xmrvizzy/skyblocker/skyblock/tabhud/widget/UpgradeWidget.java:38 | on basic-plane text the test is "at least 3 characters after trimming", and a letter followed by an emoji already passes it |
| `UpgradeWidget.LeadingUpgradeLines` | src/main/java/me/xmrvizzy/skyblocker/skyblock/tabhud/widget/UpgradeWidget.java:37-43 | the lines the loop takes from line 1 on; `LeadingUpgradeLinesExact` states it |
| `UpgradeWidget.UpgradeLines` | src/main/java/me/xmrvizzy/skyblocker/skyblock/tabhud/widget/UpgradeWidget.java:37-43 | what the loop emits; `UpgradeLinesExact` and `StopsAtShortLine` state it |
| `UpgradeWidget.Render` | src/main/java/me/xmrvizzy/skyblocker/skyblock/tabhud/widget/UpgradeWidget.java:20-43 | the constructor's components or its exception; `RenderWithoutUpgrades`, `RenderThrows` and `RenderedSegment` state it |
| `UpgradeWidget.LeadingUpgradeLinesIsRun` | src/main/java/me/xmrvizzy/skyblocker/skyblock/tabhud/widget/UpgradeWidget.java:37-43 | the recursive definition yields the longest prefix made of lines with trimmed length at least 3 UTF-16 code units |
| `UpgradeWidget.LeadingRunUnique` | src/main/java/me/xmrvizzy/skyblocker/skyblock/tabhud/widget/UpgradeWidget.java:37-43 | that longest prefix is unique |
| `UpgradeWidget.LeadingUpgradeLinesExact` | src/main/java/me/xmrvizzy/skyblocker/skyblock/tabhud/widget/UpgradeWidget.java:37-43 | a list is the recursive result exactly when it is that longest prefix |
| `UpgradeWidget.UpgradeLinesExact` | src/main/java/me/xmrvizzy/skyblocker/skyblock/tabhud/widget/UpgradeWidget.java:37-43 | the emitted lines are exactly the unmodified contiguous run `lines[1..k]` of long lines ended by a short line or the end, so line 0 is never emitted and at most `lines.length - 1` are |
| `UpgradeWidget.StopsAtShortLine` | src/main/java/me/xmrvizzy/skyblocker/skyblock/tabhud/widget/UpgradeWidget.java:38-40 | a short line at index i means no line from i on is emitted, even a long one |
| `UpgradeWidget.RenderWithoutUpgrades` | src/main/java/me/xmrvizzy/skyblocker/skyblock/tabhud/widget/UpgradeWidget.java:22-32 | a null footer gives only "No data"; a footer without "Upgrades" gives only "Currently no upgrades..." |
| `UpgradeWidget.RenderThrows` | src/main/java/me/xmrvizzy/skyblocker/skyblock/tabhud/widget/UpgradeWidget.java:34 | the constructor throws exactly when all that follows the first "Upgrades" is more copies of "Upgrades" |
| `UpgradeWidget.RenderedSegment` | src/main/java/me/xmrvizzy/skyblocker/skyblock/tabhud/widget/UpgradeWidget.java:34-43 | otherwise the lines come from the text between the first and second "Upgrades", and the components are their upgrade run, each of trimmed length at least 3 UTF-16 code units |
| `UpgradeWidget.UpgradeWidget.Empty` | src/main/java/me/xmrvizzy/skyblocker/skyblock/tabhud/widget/UpgradeWidget.java:21 | a new widget has no components |
| `UpgradeWidget.UpgradeWidget.AddComponent` | src/main/java/me/xmrvizzy/skyblocker/skyblock/tabhud/widget/UpgradeWidget.java:42 | appends one component |
| `UpgradeWidget.UpgradeWidget.AddUpgradeLines` | src/main/java/me/xmrvizzy/skyblocker/skyblock/tabhud/widget/UpgradeWidget.java:37-43 | the loop with its `break` appends exactly `UpgradeLines(lines)` |
| `UpgradeWidget.UpgradeWidget.Create` | src/main/java/me/xmrvizzy/skyblocker/skyblock/tabhud/widget/UpgradeWidget.java:20-45 | the constructor throws exactly when `Render` says so, and otherwise builds a fresh widget whose components are `Render`'s |
| `ComboFilter.IsKillComboMessage` | src/main/java/me/xmrvizzy/skyblocker/chat/filters/ComboFilter.java:7 | the first alternative of the pattern; `KillComboScan`, `AcceptsKillCombo`, `KillComboNeedsDigits` and `KillComboSuffixRejected` state it |
| `ComboFilter.IsExpiredMessage` | src/main/java/me/xmrvizzy/skyblocker/chat/filters/ComboFilter.java:8 | the second alternative of the pattern; `ExpiredScan`, `AcceptsExpired`, `ExpiredNeedsDigits` and `ExpiredSuffixRejected` state it |
| `ComboFilter.IsComboMessage` | src/main/java/me/xmrvizzy/skyblocker/chat/filters/ComboFilter.java:7-8 | the whole anchored pattern; `RecognizerExact` proves it equal to `IsComboShape` |
| `ComboFilter.IsComboShape` | src/main/java/me/xmrvizzy/skyblocker/chat/filters/ComboFilter.java:7-8 | the language of the pattern by its three shapes; `RecognizerExact` proves the recognizer accepts exactly it |
| `ComboFilter.DigitRun` | src/main/java/me/xmrvizzy/skyblocker/chat/filters/ComboFilter.java:7-8 | the length of the maximal run of ASCII digits at the start |
| `ComboFilter.KillComboScan` | src/main/java/me/xmrvizzy/skyblocker/chat/filters/ComboFilter.java:7 | after "+digits Kill Combo +digits" the message is accepted exactly when the rest is "% ✯ Magic Find" or " coins per kill" |
| `ComboFilter.ExpiredScan` | src/main/java/me/xmrvizzy/skyblocker/chat/filters/ComboFilter.java:8 | after the expired prefix and digits the message is accepted exactly when the rest is " Kill Combo!" |
| `ComboFilter.AcceptsKillCombo` | src/main/java/me/xmrvizzy/skyblocker/chat/filters/ComboFilter.java:7 | "+D Kill Combo +D% ✯ Magic Find" and "+D Kill Combo +D coins per kill" are accepted for all non-empty digit strings D |
| `ComboFilter.AcceptsExpired` | src/main/java/me/xmrvizzy/skyblocker/chat/filters/ComboFilter.java:8 | "Your Kill Combo has expired! You reached a D Kill Combo!" is accepted for every non-empty digit string D |
| `ComboFilter.AcceptedHasShape` | src/main/java/me/xmrvizzy/skyblocker/chat/filters/ComboFilter.java:7-8 | every accepted message has one of the three shapes |
| `ComboFilter.RecognizerExact` | src/main/java/me/xmrvizzy/skyblocker/chat/filters/ComboFilter.java:7-8 | the recognizer accepts exactly the language of the pattern's three shapes |
| `ComboFilter.KillComboParts` | src/main/java/me/xmrvizzy/skyblocker/chat/filters/ComboFilter.java:7 | a kill-combo message reads back into a unique combo, bonus and reward |
| `ComboFilter.KillComboNeedsDigits` | src/main/java/me/xmrvizzy/skyblocker/chat/filters/ComboFilter.java:7 | with a reward at the end, a kill-combo message is accepted exactly when both numbers are non-empty ASCII digit runs |
| `ComboFilter.ExpiredNeedsDigits` | src/main/java/me/xmrvizzy/skyblocker/chat/filters/ComboFilter.java:8 | an expired message is accepted exactly when its number is a non-empty ASCII digit run |
| `ComboFilter.RejectsTrailingText` | src/main/java/me/xmrvizzy/skyblocker/chat/filters/ComboFilter.java:7-8 | `$`: any text appended to an accepted message makes it rejected |
| `ComboFilter.RejectsLeadingText` | src/main/java/me/xmrvizzy/skyblocker/chat/filters/ComboFilter.java:7-8 | `^`: any text put before an accepted message makes it rejected |
| `ComboFilter.KillComboSuffixRejected` | src/main/java/me/xmrvizzy/skyblocker/chat/filters/ComboFilter.java:7 | no proper suffix of a kill-combo message is accepted |
| `ComboFilter.ExpiredSuffixRejected` | src/main/java/me/xmrvizzy/skyblocker/chat/filters/ComboFilter.java:8 | no proper suffix of an expired message is accepted |
| `ComboFilter.ExpiredTakesNoReward` | src/main/java/me/xmrvizzy/skyblocker/chat/filters/ComboFilter.java:7-8 | the reward alternative binds only in the kill-combo shape: an expired message followed by a reward is rejected |

## Left out

- Concurrency: the `CompletableFuture` fan-out and joins, `runAsync` on the client executor, and the cyclic scheduler. Loading is modelled as its sequential result, and the scheduler as the list of cadences it was given. The race of a dungeon's shape tasks on one plain `HashMap` is not modelled.
- I/O and foreign libraries: resource lookup, directory listing, `InflaterInputStream`/`ObjectInputStream` decoding and Gson parsing. They are inputs: listings are `Option`s, each room file's decode result is a `RoomBlob`, and the JSON task's result is a `MetadataRead` whose documents are opaque.
- `JavaStrings.DropLastUnits`: when the last `n` code units end inside a surrogate pair, Java's result keeps a lone high surrogate, which a Dafny `string` cannot hold; the model drops the whole character, one code unit more than Java.
- `DungeonSecrets.RoomStepOf`: the `substring(resourcePathIndex)` of each room's path is taken to succeed. A room whose serialised object is a null `int[]` (stored under its key as null in Java) is not distinguished from a readable one.
- `DungeonMapUtils.getEntrancePos`/`getRoomWidth`, `MinecraftClient`, the player inventory, `FilledMapItem` and `MapState`: they are host state, observed through a `Tick` and an oracle. DungeonMapUtils is not part of this model.
- Configuration reads (`noLoadSecretWaypoints`, `secretWaypoints`, `hideCombo` behind `ComboFilter.isEnabled`), which become boolean parameters. `isEnabled` itself is not modelled.
- Logging, `Text`/`Formatting`/`Ico` styling, the widget title and `pack`: presentation. Each component is its text.
- `ComboFilter`: how `ChatFilter` applies the pattern is not part of this model. The recognizer treats `^…$` as matching the whole message; with `find()`, Java's `$` would also match just before a final line terminator.
- Java `String.split` takes a regular expression. The two separators used (`"Upgrades"` and `"\n"`) contain no metacharacters, so they are modelled as literal separators.
- Room-shape matching under rotations and mirrors, and resolving secret world coordinates: none of this is in the modelled code.
- `PuzzlerTest` tests a class that is not part of this model.
