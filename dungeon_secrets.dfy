/**
 * The dungeon-secrets state: the block palette `NUMERIC_ID`, the room
 * catalog dungeon -> room shape -> room name -> block data built by `load`
 * and `readRooms`, the completion flag behind `isRoomsLoaded`, and the map
 * calibration (`mapEntrancePos`, `mapRoomWidth`) done by `update`.
 *
 * The Java class keeps all of this in static fields; here one
 * `DungeonSecrets` object holds them, and `State` is a value snapshot of
 * those fields on which the behaviour of every operation is specified.
 * Loading is sequentialised: every asynchronous task runs to completion in
 * the order it is created. The directory tree, the room decoder, the JSON
 * reader and the map oracles are inputs.
 */
module DungeonSecrets {
  import opened Wrappers
  import opened JavaStrings

  newtype Byte = x: int | -128 <= x < 128
  newtype Int32 = x: int | -0x8000_0000 <= x < 0x8000_0000

  /** org.joml.Vector2i. */
  datatype Vector2i = Vector2i(x: Int32, y: Int32)

  // ---------------------------------------------------------------------
  // The block palette

  /** Block identifier -> the numeric block id used in the rooms data. */
  const NUMERIC_ID: map<string, Byte> := map[
    "minecraft:stone" := 1,
    "minecraft:diorite" := 2,
    "minecraft:polished_diorite" := 3,
    "minecraft:andesite" := 4,
    "minecraft:polished_andesite" := 5,
    "minecraft:grass_block" := 6,
    "minecraft:dirt" := 7,
    "minecraft:coarse_dirt" := 8,
    "minecraft:cobblestone" := 9,
    "minecraft:bedrock" := 10,
    "minecraft:oak_leaves" := 11,
    "minecraft:gray_wool" := 12,
    "minecraft:double_stone_slab" := 13,
    "minecraft:mossy_cobblestone" := 14,
    "minecraft:clay" := 15,
    "minecraft:stone_bricks" := 16,
    "minecraft:mossy_stone_bricks" := 17,
    "minecraft:chiseled_stone_bricks" := 18,
    "minecraft:gray_terracotta" := 19,
    "minecraft:cyan_terracotta" := 20,
    "minecraft:black_terracotta" := 21
  ]

  /** The byte codes 1..n. */
  function Codes(n: nat): (r: set<Byte>)
    requires n <= 127
    ensures forall b :: b in r <==> 1 <= b as int <= n
    ensures |r| == n
  {
    if n == 0 then {} else Codes(n - 1) + {n as Byte}
  }

  /** No two keys of `m` share a value. */
  ghost predicate Injective<K, V>(m: map<K, V>) {
    forall k1, k2 :: k1 in m && k2 in m && m[k1] == m[k2] ==> k1 == k2
  }

  /** An injective map has as many values as keys. */
  lemma {:induction false} InjectiveCard<K, V>(m: map<K, V>)
    requires Injective(m)
    ensures |m.Values| == |m.Keys|
    decreases |m.Keys|
  {
    if m.Keys != {} {
      var k :| k in m.Keys;
      var m' := map k' | k' in m.Keys && k' != k :: m[k'];
      assert m'.Keys == m.Keys - {k};
      assert m'.Values == m.Values - {m[k]} by {
        forall v | v in m.Values - {m[k]} ensures v in m'.Values {
          var k' :| k' in m && m[k'] == v;
          assert m'[k'] == v;
        }
      }
      InjectiveCard(m');
    }
  }

  /** No two block identifiers share a numeric id. */
  lemma NumericIdInjective()
    ensures Injective(NUMERIC_ID)
  {
  }

  /** Every code 1..21 is the id of some block identifier. */
  lemma NumericIdHasCode(b: Byte)
    requires 1 <= b <= 21
    ensures b in NUMERIC_ID.Values
  {
    if b == 1 {
      assert NUMERIC_ID["minecraft:stone"] == 1;
    } else if b == 2 {
      assert NUMERIC_ID["minecraft:diorite"] == 2;
    } else if b == 3 {
      assert NUMERIC_ID["minecraft:polished_diorite"] == 3;
    } else if b == 4 {
      assert NUMERIC_ID["minecraft:andesite"] == 4;
    } else if b == 5 {
      assert NUMERIC_ID["minecraft:polished_andesite"] == 5;
    } else if b == 6 {
      assert NUMERIC_ID["minecraft:grass_block"] == 6;
    } else if b == 7 {
      assert NUMERIC_ID["minecraft:dirt"] == 7;
    } else if b == 8 {
      assert NUMERIC_ID["minecraft:coarse_dirt"] == 8;
    } else if b == 9 {
      assert NUMERIC_ID["minecraft:cobblestone"] == 9;
    } else if b == 10 {
      assert NUMERIC_ID["minecraft:bedrock"] == 10;
    } else if b == 11 {
      assert NUMERIC_ID["minecraft:oak_leaves"] == 11;
    } else if b == 12 {
      assert NUMERIC_ID["minecraft:gray_wool"] == 12;
    } else if b == 13 {
      assert NUMERIC_ID["minecraft:double_stone_slab"] == 13;
    } else if b == 14 {
      assert NUMERIC_ID["minecraft:mossy_cobblestone"] == 14;
    } else if b == 15 {
      assert NUMERIC_ID["minecraft:clay"] == 15;
    } else if b == 16 {
      assert NUMERIC_ID["minecraft:stone_bricks"] == 16;
    } else if b == 17 {
      assert NUMERIC_ID["minecraft:mossy_stone_bricks"] == 17;
    } else if b == 18 {
      assert NUMERIC_ID["minecraft:chiseled_stone_bricks"] == 18;
    } else if b == 19 {
      assert NUMERIC_ID["minecraft:gray_terracotta"] == 19;
    } else if b == 20 {
      assert NUMERIC_ID["minecraft:cyan_terracotta"] == 20;
    } else {
      assert NUMERIC_ID["minecraft:black_terracotta"] == 21;
    }
  }

  /** Every numeric id lies in 1..21; in particular no identifier maps to 0. */
  lemma NumericIdRange(b: Byte)
    requires b in NUMERIC_ID.Values
    ensures 1 <= b <= 21
  {
    var k :| k in NUMERIC_ID && NUMERIC_ID[k] == b;
  }

  /** The numeric ids are exactly the codes 1..21. */
  lemma NumericIdCodes()
    ensures NUMERIC_ID.Values == Codes(21)
  {
    forall b | b in Codes(21) ensures b in NUMERIC_ID.Values {
      NumericIdHasCode(b);
    }
    forall b | b in NUMERIC_ID.Values ensures b in Codes(21) {
      NumericIdRange(b);
    }
  }

  /** The table has 21 identifiers with 21 distinct ids. */
  lemma NumericIdSize()
    ensures |NUMERIC_ID.Keys| == 21 && |NUMERIC_ID.Values| == 21
  {
    NumericIdInjective();
    NumericIdCodes();
    InjectiveCard(NUMERIC_ID);
  }

  // ---------------------------------------------------------------------
  // The resources that loading reads

  /** A room's block data, the deserialised `int[]`. */
  type RoomData = seq<Int32>

  /** What the decoder makes of one room file. */
  datatype RoomBlob =
    | Unopenable          // no resource stream, or a corrupt stream header (NullPointerException or IOException)
    | Unreadable          // readObject fails (IOException or ClassNotFoundException)
    | NotIntArray         // readObject returns an object that is not an int[] (ClassCastException)
    | IntArray(data: RoomData)

  datatype RoomFile = RoomFile(name: string, blob: RoomBlob)

  /** A room-shape directory entry; `listing` is None when listFiles() returns null. */
  datatype ShapeEntry = ShapeEntry(name: string, listing: Option<seq<RoomFile>>)

  /** A dungeon entry of the data directory. */
  datatype DungeonEntry = DungeonEntry(name: string, isDirectory: bool, listing: Option<seq<ShapeEntry>>)

  /** A parsed JSON document; its content is not modelled. */
  datatype JsonObject = JsonObject(source: string)

  /** The outcome of reading the two JSON resources. */
  datatype MetadataRead =
    | MetadataUnavailable                        // a reader could not be opened
    | RoomsUnparsable                            // parsing the rooms document failed
    | WaypointsUnparsable(rooms: JsonObject)     // the rooms document parsed, the waypoints one did not
    | MetadataParsed(rooms: JsonObject, waypoints: JsonObject)

  // ---------------------------------------------------------------------
  // readRooms

  /** Length, in UTF-16 code units, of the suffix that the room key drops from a file name. */
  const ROOM_SUFFIX_LENGTH := 9

  /** What one room file does to the map being built. */
  datatype RoomStep = Skip | Put(key: string, data: RoomData) | Throw

  /**
   * A stream that cannot be opened, or an object that cannot be read, is
   * caught and the room is skipped. The key is computed before the object is
   * read, so a name shorter than the suffix throws as soon as the stream is
   * open; so does an object that is not an int[]. Those exceptions are not
   * caught and leave readRooms.
   */
  function RoomStepOf(f: RoomFile): RoomStep {
    if f.blob.Unopenable? then Skip
    else if Utf16Length(f.name) < ROOM_SUFFIX_LENGTH then Throw
    else match f.blob
      case Unreadable => Skip
      case NotIntArray => Throw
      case IntArray(data) => Put(DropLastUnits(f.name, ROOM_SUFFIX_LENGTH), data)
  }

  /** The result of readRooms: the room map, or an exception that escaped it. */
  datatype ShapeOutcome = Rooms(rooms: map<string, RoomData>) | Threw

  function ApplyRoom(data: map<string, RoomData>, f: RoomFile): ShapeOutcome {
    match RoomStepOf(f)
    case Skip => Rooms(data)
    case Put(key, room) => Rooms(data[key := room])
    case Throw => Threw
  }

  /** readRooms over the files of a listing, in listing order. */
  function ReadRoomFiles(files: seq<RoomFile>): ShapeOutcome {
    if files == [] then Rooms(map[])
    else match ReadRoomFiles(files[..|files| - 1])
      case Threw => Threw
      case Rooms(data) => ApplyRoom(data, files[|files| - 1])
  }

  /** readRooms: an unlisted shape yields an empty map. */
  function ReadRoomsOf(shape: ShapeEntry): ShapeOutcome {
    match shape.listing
    case None => Rooms(map[])
    case Some(files) => ReadRoomFiles(files)
  }

  lemma ReadRoomsUnlisted(shape: ShapeEntry)
    requires shape.listing.None?
    ensures ReadRoomsOf(shape) == Rooms(map[])
  {
  }

  /**
   * The key drops 9 UTF-16 code units: for a name of basic-plane characters
   * that is its last 9 characters, and a name of four characters outside
   * that plane and one letter already has length 9 and gives the empty key.
   */
  lemma RoomKeyCountsCodeUnits(f: RoomFile, data: RoomData)
    requires f.blob.IntArray?
    ensures Utf16Length(f.name) == |f.name| && |f.name| < ROOM_SUFFIX_LENGTH ==> RoomStepOf(f) == Throw
    ensures Utf16Length(f.name) == |f.name| && |f.name| >= ROOM_SUFFIX_LENGTH ==>
      RoomStepOf(f) == Put(f.name[..|f.name| - ROOM_SUFFIX_LENGTH], f.blob.data)
    ensures RoomStepOf(RoomFile("\U{1F600}\U{1F600}\U{1F600}\U{1F600}a", IntArray(data))) == Put("", data)
  {
    var name := "\U{1F600}\U{1F600}\U{1F600}\U{1F600}a";
    assert Utf16Length(name) == 9 by {
      var e := '\U{1F600}';
      assert Utf16Length([e]) == 2 by { assert [e][..0] == []; }
      assert Utf16Length([e, e]) == 4 by { assert [e, e][..1] == [e]; }
      assert Utf16Length([e, e, e]) == 6 by { assert [e, e, e][..2] == [e, e]; }
      assert Utf16Length([e, e, e, e]) == 8 by { assert [e, e, e, e][..3] == [e, e, e]; }
      assert name[..4] == [e, e, e, e];
    }
    assert DropLastUnits(name, ROOM_SUFFIX_LENGTH) == "";
  }

  /** readRooms escapes with an exception exactly when some room file throws. */
  lemma {:induction false} RoomFilesThrow(files: seq<RoomFile>)
    ensures ReadRoomFiles(files).Threw? <==> exists i :: 0 <= i < |files| && RoomStepOf(files[i]).Throw?
  {
    if files != [] {
      var p := files[..|files| - 1];
      RoomFilesThrow(p);
      if exists i :: 0 <= i < |p| && RoomStepOf(p[i]).Throw? {
        var i :| 0 <= i < |p| && RoomStepOf(p[i]).Throw?;
        assert files[i] == p[i];
      }
      if exists i :: 0 <= i < |files| && RoomStepOf(files[i]).Throw? {
        var i :| 0 <= i < |files| && RoomStepOf(files[i]).Throw?;
        if i < |p| {
          assert p[i] == files[i];
        }
      }
    }
  }

  /** Room `i` puts `key`. */
  predicate PutsKey(files: seq<RoomFile>, i: int, key: string)
    requires 0 <= i < |files|
  {
    RoomStepOf(files[i]).Put? && RoomStepOf(files[i]).key == key
  }

  /** Room `i` is the last room that puts `key`. */
  predicate LastPut(files: seq<RoomFile>, i: int, key: string) {
    && 0 <= i < |files| && PutsKey(files, i, key)
    && forall j :: i < j < |files| ==> !PutsKey(files, j, key)
  }

  lemma PutsKeyPrefix(files: seq<RoomFile>, p: seq<RoomFile>, j: int, key: string)
    requires p <= files && 0 <= j < |p|
    ensures PutsKey(files, j, key) == PutsKey(p, j, key)
  {
    assert files[j] == p[j];
  }

  /**
   * When readRooms returns, its map has a key exactly for the room files that
   * decode, keyed by the file name without its last 9 UTF-16 code units.
   */
  lemma {:induction false} RoomFilesKey(files: seq<RoomFile>, key: string)
    requires ReadRoomFiles(files).Rooms?
    ensures key in ReadRoomFiles(files).rooms <==> exists i :: 0 <= i < |files| && PutsKey(files, i, key)
  {
    if files != [] {
      var n := |files| - 1;
      var p := files[..n];
      RoomFilesKey(p, key);
      if !PutsKey(files, n, key) {
        if exists i :: 0 <= i < |p| && PutsKey(p, i, key) {
          var i :| 0 <= i < |p| && PutsKey(p, i, key);
          PutsKeyPrefix(files, p, i, key);
        }
        if exists i :: 0 <= i < |files| && PutsKey(files, i, key) {
          var i :| 0 <= i < |files| && PutsKey(files, i, key);
          assert i != n;
          PutsKeyPrefix(files, p, i, key);
        }
      }
    }
  }

  /** A key of the map holds the data of the last room file with that key. */
  lemma {:induction false} RoomFilesValue(files: seq<RoomFile>, key: string)
    requires ReadRoomFiles(files).Rooms? && key in ReadRoomFiles(files).rooms
    ensures exists i :: LastPut(files, i, key) && ReadRoomFiles(files).rooms[key] == RoomStepOf(files[i]).data
  {
    var n := |files| - 1;
    var p := files[..n];
    if PutsKey(files, n, key) {
      assert LastPut(files, n, key);
    } else {
      RoomFilesValue(p, key);
      var i :| LastPut(p, i, key) && ReadRoomFiles(p).rooms[key] == RoomStepOf(p[i]).data;
      assert files[i] == p[i];
      assert PutsKey(files, i, key);
      forall j | i < j < |files| ensures !PutsKey(files, j, key) {
        if j < n {
          assert !PutsKey(p, j, key);
          PutsKeyPrefix(files, p, j, key);
        } else {
          assert j == n;
        }
      }
      assert ReadRoomFiles(files).rooms[key] == ReadRoomFiles(p).rooms[key];
      assert LastPut(files, i, key);
    }
  }

  /**
   * A room that is skipped (it failed to decode) has no effect at all: the
   * outcome is the one of the listing without it, so its siblings stay.
   */
  lemma {:induction false} SkippedRoomIsInert(files: seq<RoomFile>, i: nat)
    requires i < |files| && RoomStepOf(files[i]).Skip?
    ensures ReadRoomFiles(files) == ReadRoomFiles(files[..i] + files[i + 1..])
  {
    var n := |files| - 1;
    var rest := files[..i] + files[i + 1..];
    if i == n {
      assert rest == files[..n];
    } else {
      var p := files[..n];
      assert p[..i] + p[i + 1..] == rest[..|rest| - 1];
      assert rest[|rest| - 1] == files[n];
      SkippedRoomIsInert(p, i);
    }
  }

  // ---------------------------------------------------------------------
  // load

  /** One dungeon's shapes after its tasks ran, and whether any readRooms threw. */
  datatype DungeonLoad = DungeonLoad(shapes: map<string, map<string, RoomData>>, threw: bool)

  /**
   * The shape tasks of one dungeon: each puts its readRooms result under the
   * shape's name, unless readRooms threw, in which case the put never runs.
   */
  function LoadShapes(shapes: seq<ShapeEntry>): DungeonLoad {
    if shapes == [] then DungeonLoad(map[], false)
    else
      var before := LoadShapes(shapes[..|shapes| - 1]);
      var shape := shapes[|shapes| - 1];
      match ReadRoomsOf(shape)
      case Threw => before.(threw := true)
      case Rooms(data) => before.(shapes := before.shapes[shape.name := data])
  }

  /** Directory entries have distinct names. */
  predicate DistinctShapeNames(shapes: seq<ShapeEntry>) {
    forall i, j :: 0 <= i < j < |shapes| ==> shapes[i].name != shapes[j].name
  }

  /**
   * With distinct shape names, the dungeon's map binds each room shape whose
   * readRooms returned to that result, and has no key for a shape whose
   * readRooms threw.
   */
  lemma {:induction false} LoadShapesEntry(shapes: seq<ShapeEntry>, j: int)
    requires DistinctShapeNames(shapes) && 0 <= j < |shapes|
    ensures var r := LoadShapes(shapes);
      if ReadRoomsOf(shapes[j]).Rooms?
      then shapes[j].name in r.shapes && r.shapes[shapes[j].name] == ReadRoomsOf(shapes[j]).rooms
      else shapes[j].name !in r.shapes
  {
    var n := |shapes| - 1;
    var p := shapes[..n];
    if j < n {
      assert DistinctShapeNames(p);
      assert shapes[j] == p[j];
      assert shapes[j].name != shapes[n].name;
      LoadShapesEntry(p, j);
    } else {
      forall j' | 0 <= j' < |p| ensures p[j'].name != shapes[n].name {
        assert p[j'] == shapes[j'];
      }
      LoadShapesOnlyNames(p, shapes[n].name);
    }
  }

  /** A name that no room shape has is not a key of the dungeon's map. */
  lemma {:induction false} LoadShapesOnlyNames(shapes: seq<ShapeEntry>, name: string)
    requires forall j :: 0 <= j < |shapes| ==> shapes[j].name != name
    ensures name !in LoadShapes(shapes).shapes
  {
    if shapes != [] {
      var n := |shapes| - 1;
      var p := shapes[..n];
      forall j | 0 <= j < |p| ensures p[j].name != name {
        assert p[j] == shapes[j];
      }
      LoadShapesOnlyNames(p, name);
    }
  }

  /** The dungeon's tasks failed exactly when some readRooms threw. */
  lemma {:induction false} LoadShapesThrew(shapes: seq<ShapeEntry>)
    ensures LoadShapes(shapes).threw <==> exists j :: 0 <= j < |shapes| && ReadRoomsOf(shapes[j]).Threw?
  {
    if shapes != [] {
      var n := |shapes| - 1;
      var p := shapes[..n];
      LoadShapesThrew(p);
      if exists j :: 0 <= j < |p| && ReadRoomsOf(p[j]).Threw? {
        var j :| 0 <= j < |p| && ReadRoomsOf(p[j]).Threw?;
        assert shapes[j] == p[j];
      }
      if exists j :: 0 <= j < |shapes| && ReadRoomsOf(shapes[j]).Threw? {
        var j :| 0 <= j < |shapes| && ReadRoomsOf(shapes[j]).Threw?;
        if j < n {
          assert p[j] == shapes[j];
        }
      }
    }
  }

  /** The catalog: dungeon -> room shape -> room name -> data. */
  type Catalog = map<string, map<string, map<string, RoomData>>>

  datatype CatalogLoad = CatalogLoad(rooms: Catalog, threw: bool)

  /** A dungeon entry that gets a catalog entry: a directory that can be listed. */
  predicate IsLoadedDungeon(d: DungeonEntry) {
    d.isDirectory && d.listing.Some?
  }

  /**
   * The loop over the dungeon entries: a non-directory is skipped, a
   * directory whose listing fails is skipped, and any other dungeon's entry
   * is replaced by the map its shape tasks build.
   */
  function LoadDungeons(rooms: Catalog, dungeons: seq<DungeonEntry>): CatalogLoad {
    if dungeons == [] then CatalogLoad(rooms, false)
    else
      var before := LoadDungeons(rooms, dungeons[..|dungeons| - 1]);
      var d := dungeons[|dungeons| - 1];
      if !IsLoadedDungeon(d) then before
      else
        var r := LoadShapes(d.listing.value);
        CatalogLoad(before.rooms[d.name := r.shapes], before.threw || r.threw)
  }

  /** Dungeon `i` is the last loaded dungeon entry named `name`. */
  predicate LastLoadedNamed(dungeons: seq<DungeonEntry>, i: int, name: string) {
    && 0 <= i < |dungeons|
    && IsLoadedDungeon(dungeons[i]) && dungeons[i].name == name
    && forall j :: i < j < |dungeons| ==> !(IsLoadedDungeon(dungeons[j]) && dungeons[j].name == name)
  }

  /**
   * After the loop, the catalog has an entry for every dungeon it had before
   * and every loaded dungeon, and no other: a non-directory, or a directory
   * whose listing failed, adds no entry.
   */
  lemma {:induction false} LoadDungeonsKey(rooms: Catalog, dungeons: seq<DungeonEntry>, name: string)
    ensures name in LoadDungeons(rooms, dungeons).rooms <==>
      name in rooms || exists i :: 0 <= i < |dungeons| && IsLoadedDungeon(dungeons[i]) && dungeons[i].name == name
  {
    if dungeons != [] {
      var n := |dungeons| - 1;
      var p := dungeons[..n];
      LoadDungeonsKey(rooms, p, name);
      if !(IsLoadedDungeon(dungeons[n]) && dungeons[n].name == name) {
        if exists i :: 0 <= i < |p| && IsLoadedDungeon(p[i]) && p[i].name == name {
          var i :| 0 <= i < |p| && IsLoadedDungeon(p[i]) && p[i].name == name;
          assert dungeons[i] == p[i];
        }
        if exists i :: 0 <= i < |dungeons| && IsLoadedDungeon(dungeons[i]) && dungeons[i].name == name {
          var i :| 0 <= i < |dungeons| && IsLoadedDungeon(dungeons[i]) && dungeons[i].name == name;
          assert p[i] == dungeons[i];
        }
      }
    }
  }

  /** The entry of a loaded dungeon is the map that its last entry's shape tasks build. */
  lemma {:induction false} LoadDungeonsEntry(rooms: Catalog, dungeons: seq<DungeonEntry>, i: int, name: string)
    requires LastLoadedNamed(dungeons, i, name)
    ensures var r := LoadDungeons(rooms, dungeons);
      name in r.rooms && r.rooms[name] == LoadShapes(dungeons[i].listing.value).shapes
  {
    var n := |dungeons| - 1;
    if i < n {
      var p := dungeons[..n];
      assert p[i] == dungeons[i];
      assert LastLoadedNamed(p, i, name);
      LoadDungeonsEntry(rooms, p, i, name);
    }
  }

  /** An entry that no loaded dungeon replaces keeps its old value. */
  lemma {:induction false} LoadDungeonsKeepsOthers(rooms: Catalog, dungeons: seq<DungeonEntry>, name: string)
    requires name in rooms
    requires forall i :: 0 <= i < |dungeons| && IsLoadedDungeon(dungeons[i]) ==> dungeons[i].name != name
    ensures var r := LoadDungeons(rooms, dungeons);
      name in r.rooms && r.rooms[name] == rooms[name]
  {
    if dungeons != [] {
      var n := |dungeons| - 1;
      var p := dungeons[..n];
      forall i | 0 <= i < |p| && IsLoadedDungeon(p[i]) ensures p[i].name != name {
        assert p[i] == dungeons[i];
      }
      LoadDungeonsKeepsOthers(rooms, p, name);
    }
  }

  /** The loop failed exactly when the shape tasks of some loaded dungeon failed. */
  lemma {:induction false} LoadDungeonsThrew(rooms: Catalog, dungeons: seq<DungeonEntry>)
    ensures LoadDungeons(rooms, dungeons).threw <==>
      exists i :: 0 <= i < |dungeons| && IsLoadedDungeon(dungeons[i]) && LoadShapes(dungeons[i].listing.value).threw
  {
    if dungeons != [] {
      var n := |dungeons| - 1;
      var p := dungeons[..n];
      LoadDungeonsThrew(rooms, p);
      if exists i :: 0 <= i < |p| && IsLoadedDungeon(p[i]) && LoadShapes(p[i].listing.value).threw {
        var i :| 0 <= i < |p| && IsLoadedDungeon(p[i]) && LoadShapes(p[i].listing.value).threw;
        assert dungeons[i] == p[i];
      }
      if exists i :: 0 <= i < |dungeons| && IsLoadedDungeon(dungeons[i]) && LoadShapes(dungeons[i].listing.value).threw {
        var i :| 0 <= i < |dungeons| && IsLoadedDungeon(dungeons[i]) && LoadShapes(dungeons[i].listing.value).threw;
        if i < n {
          assert p[i] == dungeons[i];
        }
      }
    }
  }

  // ---------------------------------------------------------------------
  // The state and its transitions

  /** How the `roomsLoaded` future completed; either way it is done. */
  datatype Completion = Normally | Exceptionally

  /** The scheduling period, in ticks, of the cyclic update. */
  const UPDATE_PERIOD := 10

  /** A snapshot of the static fields. */
  datatype State = State(
    rooms: Catalog,
    roomsJson: Option<JsonObject>,
    waypointsJson: Option<JsonObject>,
    roomsLoaded: Option<Completion>,
    mapEntrancePos: Option<Vector2i>,
    mapRoomWidth: Int32,
    scheduledUpdates: seq<nat>)

  /** The fields as the class initialiser leaves them. */
  function InitialState(): State {
    State(map[], None, None, None, None, 0, [])
  }

  /** isRoomsLoaded: the future has been assigned and is done. */
  predicate RoomsLoaded(s: State) {
    s.roomsLoaded.Some?
  }

  /** The JSON task: what it assigns before an exception stops it. */
  function ApplyMetadata(s: State, meta: MetadataRead): State {
    match meta
    case MetadataUnavailable => s
    case RoomsUnparsable => s
    case WaypointsUnparsable(r) => s.(roomsJson := Some(r))
    case MetadataParsed(r, w) => s.(roomsJson := Some(r), waypointsJson := Some(w))
  }

  /**
   * load, run to completion. `root` is the listing of the data directory;
   * None (the resource is missing or cannot be listed) throws before any
   * field is touched, and the exception is caught. Otherwise the catalog is
   * built, the JSON task runs, and `roomsLoaded` is done: exceptionally when
   * some readRooms threw.
   */
  function LoadState(s: State, root: Option<seq<DungeonEntry>>, meta: MetadataRead): State {
    match root
    case None => s
    case Some(dungeons) =>
      var r := LoadDungeons(s.rooms, dungeons);
      ApplyMetadata(s, meta).(rooms := r.rooms, roomsLoaded := Some(if r.threw then Exceptionally else Normally))
  }

  /** init: nothing when loading is switched off; otherwise load and schedule update. */
  function InitState(s: State, noLoadSecretWaypoints: bool, root: Option<seq<DungeonEntry>>, meta: MetadataRead): State {
    if noLoadSecretWaypoints then s
    else LoadState(s, root, meta).(scheduledUpdates := s.scheduledUpdates + [UPDATE_PERIOD])
  }

  /** Before load, the rooms are not loaded. */
  lemma NotLoadedInitially()
    ensures !RoomsLoaded(InitialState())
  {
  }

  /**
   * After load the rooms are loaded exactly when the data directory could be
   * listed (or they were loaded before), even when some room shape failed;
   * the completion is exceptional exactly when some readRooms threw.
   */
  lemma LoadCompletes(s: State, root: Option<seq<DungeonEntry>>, meta: MetadataRead)
    ensures RoomsLoaded(LoadState(s, root, meta)) <==> root.Some? || RoomsLoaded(s)
    ensures root.Some? ==> (LoadState(s, root, meta).roomsLoaded == Some(Exceptionally) <==>
      exists i :: 0 <= i < |root.value| && IsLoadedDungeon(root.value[i]) && LoadShapes(root.value[i].listing.value).threw)
    ensures LoadState(s, root, meta).(rooms := s.rooms, roomsJson := s.roomsJson, waypointsJson := s.waypointsJson,
      roomsLoaded := s.roomsLoaded) == s
  {
    if root.Some? {
      LoadDungeonsThrew(s.rooms, root.value);
    }
  }

  /** The JSON task assigns the rooms document only when it parsed, and the waypoints one only after it. */
  lemma MetadataOrder(s: State, meta: MetadataRead)
    ensures ApplyMetadata(s, meta).waypointsJson != s.waypointsJson ==>
      ApplyMetadata(s, meta).roomsJson.Some? && meta.MetadataParsed?
    ensures meta.MetadataUnavailable? || meta.RoomsUnparsable? ==> ApplyMetadata(s, meta) == s
    ensures meta.WaypointsUnparsable? || meta.MetadataParsed? ==> ApplyMetadata(s, meta).roomsJson == Some(meta.rooms)
    ensures meta.MetadataParsed? ==> ApplyMetadata(s, meta).waypointsJson == Some(meta.waypoints)
    ensures ApplyMetadata(s, meta).(roomsJson := s.roomsJson, waypointsJson := s.waypointsJson) == s
  {
  }

  /**
   * The documents after load: both parsed ones are stored, a rooms document
   * whose waypoints did not parse is stored alone, and otherwise (no listing,
   * a reader that did not open, or a rooms document that did not parse) the
   * old documents stay.
   */
  lemma LoadDocuments(s: State, root: Option<seq<DungeonEntry>>, meta: MetadataRead)
    ensures root.Some? && meta.MetadataParsed? ==>
      LoadState(s, root, meta).roomsJson == Some(meta.rooms) && LoadState(s, root, meta).waypointsJson == Some(meta.waypoints)
    ensures root.Some? && meta.WaypointsUnparsable? ==>
      LoadState(s, root, meta).roomsJson == Some(meta.rooms) && LoadState(s, root, meta).waypointsJson == s.waypointsJson
    ensures root.None? || meta.MetadataUnavailable? || meta.RoomsUnparsable? ==>
      LoadState(s, root, meta).roomsJson == s.roomsJson && LoadState(s, root, meta).waypointsJson == s.waypointsJson
  {
  }

  /**
   * After load, the room map stored for a room shape of a loaded dungeon (the
   * last directory entry with that name) is that shape's readRooms result.
   */
  lemma CatalogAfterLoad(s: State, dungeons: seq<DungeonEntry>, meta: MetadataRead, i: int, j: int)
    requires 0 <= i < |dungeons| && LastLoadedNamed(dungeons, i, dungeons[i].name)
    requires DistinctShapeNames(dungeons[i].listing.value)
    requires 0 <= j < |dungeons[i].listing.value| && ReadRoomsOf(dungeons[i].listing.value[j]).Rooms?
    ensures var rooms := LoadState(s, Some(dungeons), meta).rooms;
      var d := dungeons[i];
      var shape := d.listing.value[j];
      d.name in rooms && shape.name in rooms[d.name] && rooms[d.name][shape.name] == ReadRoomsOf(shape).rooms
  {
    LoadDungeonsEntry(s.rooms, dungeons, i, dungeons[i].name);
    LoadShapesEntry(dungeons[i].listing.value, j);
  }

  /**
   * With loading switched off, init changes nothing; otherwise it does what
   * load does and schedules one more update.
   */
  lemma InitGuard(s: State, noLoadSecretWaypoints: bool, root: Option<seq<DungeonEntry>>, meta: MetadataRead)
    ensures noLoadSecretWaypoints ==> InitState(s, noLoadSecretWaypoints, root, meta) == s
    ensures !noLoadSecretWaypoints ==>
      InitState(s, noLoadSecretWaypoints, root, meta).scheduledUpdates == s.scheduledUpdates + [UPDATE_PERIOD]
    ensures !noLoadSecretWaypoints ==>
      InitState(s, noLoadSecretWaypoints, root, meta).(scheduledUpdates := s.scheduledUpdates) == LoadState(s, root, meta)
  {
  }

  // ---------------------------------------------------------------------
  // update

  /** What DungeonMapUtils computes from the held map: both are oracles. */
  datatype MapOracle = MapOracle(entrancePos: Option<Vector2i>, roomWidth: Vector2i -> Int32)

  /** What one update tick observes. */
  datatype Tick = Tick(
    secretWaypoints: bool,
    inDungeons: bool,
    hasPlayer: bool,
    hasWorld: bool,
    slot8HoldsFilledMap: bool,
    mapState: Option<MapOracle>)

  /** The guards before calibration: config, location, client, slot 8, map state. */
  predicate GuardsPass(t: Tick) {
    t.secretWaypoints && t.inDungeons && t.hasPlayer && t.hasWorld && t.slot8HoldsFilledMap && t.mapState.Some?
  }

  datatype Calibration = Calibration(entrance: Option<Vector2i>, width: Int32)

  /**
   * One update tick on the calibration fields. The entrance is computed only
   * while unknown, and the width only while 0 and only once the entrance is
   * known; a failed guard changes nothing.
   */
  function Calibrate(c: Calibration, t: Tick): (r: Calibration)
    ensures !GuardsPass(t) ==> r == c
    ensures c.entrance.Some? ==> r.entrance == c.entrance
    ensures r.entrance != c.entrance ==> c.entrance.None? && r.entrance == t.mapState.value.entrancePos
    ensures c.width != 0 ==> r.width == c.width
    ensures r.width != c.width ==> c.width == 0 && r.entrance.Some? && r.width == t.mapState.value.roomWidth(r.entrance.value)
    ensures r.width == c.width || r.entrance.Some?
    ensures GuardsPass(t) && c.entrance.None? ==> r.entrance == t.mapState.value.entrancePos
    ensures GuardsPass(t) && r.entrance.Some? && c.width == 0 ==> r.width == t.mapState.value.roomWidth(r.entrance.value)
  {
    if !GuardsPass(t) then c
    else
      var oracle := t.mapState.value;
      var entrance := if c.entrance.None? then oracle.entrancePos else c.entrance;
      if entrance.None? then Calibration(entrance, c.width)
      else if c.width == 0 then Calibration(entrance, oracle.roomWidth(entrance.value))
      else Calibration(entrance, c.width)
  }

  /** A width is only ever set after the entrance is known. */
  predicate CalibrationValid(c: Calibration) {
    c.width != 0 ==> c.entrance.Some?
  }

  function UpdateState(s: State, t: Tick): State {
    var c := Calibrate(Calibration(s.mapEntrancePos, s.mapRoomWidth), t);
    s.(mapEntrancePos := c.entrance, mapRoomWidth := c.width)
  }

  /** update touches only the two calibration fields, and nothing at all when a guard fails. */
  lemma UpdateOnlyCalibrates(s: State, t: Tick)
    ensures UpdateState(s, t).(mapEntrancePos := s.mapEntrancePos, mapRoomWidth := s.mapRoomWidth) == s
    ensures !GuardsPass(t) ==> UpdateState(s, t) == s
    ensures s.mapEntrancePos.Some? ==> UpdateState(s, t).mapEntrancePos == s.mapEntrancePos
    ensures s.mapRoomWidth != 0 ==> UpdateState(s, t).mapRoomWidth == s.mapRoomWidth
  {
  }

  /** Ticks in order. */
  function CalibrateAll(c: Calibration, ticks: seq<Tick>): Calibration
    decreases |ticks|
  {
    if ticks == [] then c else CalibrateAll(Calibrate(c, ticks[0]), ticks[1..])
  }

  /**
   * Over any sequence of ticks, a known entrance and a non-zero width stay
   * fixed, and a width is never known without an entrance.
   */
  lemma {:induction false} CalibrationIsStable(c: Calibration, ticks: seq<Tick>)
    requires CalibrationValid(c)
    ensures CalibrationValid(CalibrateAll(c, ticks))
    ensures c.entrance.Some? ==> CalibrateAll(c, ticks).entrance == c.entrance
    ensures c.width != 0 ==> CalibrateAll(c, ticks).width == c.width
    decreases |ticks|
  {
    if ticks != [] {
      CalibrationIsStable(Calibrate(c, ticks[0]), ticks[1..]);
    }
  }

  /** From the initial fields, every tick sequence ends in a valid calibration. */
  lemma InitialCalibrationValid(ticks: seq<Tick>)
    ensures CalibrationValid(CalibrateAll(Calibration(None, 0), ticks))
  {
    CalibrationIsStable(Calibration(None, 0), ticks);
  }

  // ---------------------------------------------------------------------
  // The object holding the fields

  class DungeonSecrets {
    var rooms: Catalog
    var roomsJson: Option<JsonObject>
    var waypointsJson: Option<JsonObject>
    var roomsLoaded: Option<Completion>
    var mapEntrancePos: Option<Vector2i>
    var mapRoomWidth: Int32
    var scheduledUpdates: seq<nat>

    function Snapshot(): State
      reads this
    {
      State(rooms, roomsJson, waypointsJson, roomsLoaded, mapEntrancePos, mapRoomWidth, scheduledUpdates)
    }

    constructor ()
      ensures Snapshot() == InitialState()
    {
      rooms := map[];
      roomsJson := None;
      waypointsJson := None;
      roomsLoaded := None;
      mapEntrancePos := None;
      mapRoomWidth := 0;
      scheduledUpdates := [];
    }

    predicate IsRoomsLoaded()
      reads this
      ensures IsRoomsLoaded() <==> RoomsLoaded(Snapshot())
    {
      roomsLoaded != None
    }

    /** readRooms. */
    static method ReadRooms(shape: ShapeEntry) returns (r: ShapeOutcome)
      ensures r == ReadRoomsOf(shape)
    {
      if shape.listing.None? {
        return Rooms(map[]);
      }
      var files := shape.listing.value;
      var data: map<string, RoomData> := map[];
      var i := 0;
      while i < |files|
        invariant 0 <= i <= |files|
        invariant ReadRoomFiles(files[..i]) == Rooms(data)
      {
        var room := files[i];
        assert files[..i + 1][..i] == files[..i];
        if !room.blob.Unopenable? {
          var name := room.name;
          if Utf16Length(name) < ROOM_SUFFIX_LENGTH {
            RoomFilesThrow(files);
            return Threw;
          }
          var key := DropLastUnits(name, ROOM_SUFFIX_LENGTH);
          match room.blob {
            case Unreadable =>
            case NotIntArray =>
              RoomFilesThrow(files);
              return Threw;
            case IntArray(grid) =>
              data := data[key := grid];
          }
        }
        i := i + 1;
      }
      assert files[..i] == files;
      return Rooms(data);
    }

    /** The shape tasks of one dungeon, each putting its result into the dungeon's map. */
    method LoadDungeon(name: string, shapes: seq<ShapeEntry>) returns (threw: bool)
      modifies this
      ensures rooms == old(rooms)[name := LoadShapes(shapes).shapes]
      ensures threw == LoadShapes(shapes).threw
      ensures roomsJson == old(roomsJson) && waypointsJson == old(waypointsJson) && roomsLoaded == old(roomsLoaded)
      ensures mapEntrancePos == old(mapEntrancePos) && mapRoomWidth == old(mapRoomWidth)
      ensures scheduledUpdates == old(scheduledUpdates)
    {
      rooms := rooms[name := map[]];
      threw := false;
      var j := 0;
      while j < |shapes|
        invariant 0 <= j <= |shapes|
        invariant rooms == old(rooms)[name := LoadShapes(shapes[..j]).shapes]
        invariant threw == LoadShapes(shapes[..j]).threw
        invariant roomsJson == old(roomsJson) && waypointsJson == old(waypointsJson) && roomsLoaded == old(roomsLoaded)
        invariant mapEntrancePos == old(mapEntrancePos) && mapRoomWidth == old(mapRoomWidth)
        invariant scheduledUpdates == old(scheduledUpdates)
      {
        var shape := shapes[j];
        assert shapes[..j + 1][..j] == shapes[..j];
        var outcome := ReadRooms(shape);
        match outcome {
          case Threw =>
            threw := true;
          case Rooms(data) =>
            rooms := rooms[name := rooms[name][shape.name := data]];
        }
        j := j + 1;
      }
      assert shapes[..j] == shapes;
    }

    /** load, sequentialised. */
    method Load(root: Option<seq<DungeonEntry>>, meta: MetadataRead)
      modifies this
      ensures Snapshot() == LoadState(old(Snapshot()), root, meta)
    {
      if root.None? {
        return;
      }
      var dungeons := root.value;
      ghost var start := rooms;
      var threw := false;
      var i := 0;
      while i < |dungeons|
        invariant 0 <= i <= |dungeons|
        invariant rooms == LoadDungeons(start, dungeons[..i]).rooms
        invariant threw == LoadDungeons(start, dungeons[..i]).threw
        invariant roomsJson == old(roomsJson) && waypointsJson == old(waypointsJson) && roomsLoaded == old(roomsLoaded)
        invariant mapEntrancePos == old(mapEntrancePos) && mapRoomWidth == old(mapRoomWidth)
        invariant scheduledUpdates == old(scheduledUpdates)
      {
        var dungeon := dungeons[i];
        assert dungeons[..i + 1][..i] == dungeons[..i];
        if dungeon.isDirectory && dungeon.listing.Some? {
          var failed := LoadDungeon(dungeon.name, dungeon.listing.value);
          threw := threw || failed;
        }
        i := i + 1;
      }
      assert dungeons[..i] == dungeons;
      match meta {
        case MetadataUnavailable =>
        case RoomsUnparsable =>
        case WaypointsUnparsable(r) =>
          roomsJson := Some(r);
        case MetadataParsed(r, w) =>
          roomsJson := Some(r);
          waypointsJson := Some(w);
      }
      roomsLoaded := Some(if threw then Exceptionally else Normally);
    }

    /** init. */
    method Init(noLoadSecretWaypoints: bool, root: Option<seq<DungeonEntry>>, meta: MetadataRead)
      modifies this
      ensures Snapshot() == InitState(old(Snapshot()), noLoadSecretWaypoints, root, meta)
    {
      if noLoadSecretWaypoints {
        return;
      }
      Load(root, meta);
      scheduledUpdates := scheduledUpdates + [UPDATE_PERIOD];
    }

    /** update. */
    method Update(t: Tick)
      modifies this
      ensures Snapshot() == UpdateState(old(Snapshot()), t)
    {
      if !t.secretWaypoints || !t.inDungeons {
        return;
      }
      if !t.hasPlayer || !t.hasWorld {
        return;
      }
      if !t.slot8HoldsFilledMap {
        return;
      }
      if t.mapState.None? {
        return;
      }
      var oracle := t.mapState.value;
      if mapEntrancePos.None? {
        mapEntrancePos := oracle.entrancePos;
        if mapEntrancePos.None? {
          return;
        }
      }
      if mapRoomWidth == 0 {
        mapRoomWidth := oracle.roomWidth(mapEntrancePos.value);
        if mapRoomWidth == 0 {
          return;
        }
      }
    }
  }
}
