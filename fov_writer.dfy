/**
 * FOVWriter: the JSON document describing one field of view, with one tile
 * descriptor per (z, t, c) plane of the image.
 *
 * The Bio-Formats reader, the OME-XML metadata and the file system are
 * given as values: the reader by its sizes, its current series and its
 * plane-index function; the metadata by its plane-position lookup, unit
 * convertibility and micrometre conversion; the file system by which paths
 * exist and what their SHA-256 digests are.
 */
module FovWriter {
  import opened Wrappers
  import opened JavaFormat
  import opened Naming
  import opened Json

  /** The three position keys the coordinate loop walks, in its order. */
  datatype Axis = XC | YC | ZC
  {
    function Key(): string
    {
      match this
      case XC => "xc"
      case YC => "yc"
      case ZC => "zc"
    }
  }

  const Axes: seq<Axis> := [XC, YC, ZC]

  /** An ome.units Length: an amount and its unit. */
  datatype Length = Length(amount: real, unit: string)

  /** The OME-XML metadata, as far as the writer reads it. */
  datatype Metadata = Metadata(
    /** getPlanePositionX/Y/Z(image, plane); None stands for null. */
    planePosition: (Axis, int, int) -> Option<Length>,
    /** unit().isConvertible(UNITS.MICROMETER) */
    convertible: string -> bool,
    /** value(UNITS.MICROMETER).doubleValue() */
    micrometres: Length -> real)

  /** The reader after setId (and possibly setSeries). */
  datatype Reader = Reader(
    series: int,
    sizeX: int, sizeY: int, sizeC: int, sizeT: int, sizeZ: int,
    /** FormatTools.getIndex(reader, z, c, t) */
    planeIndex: (int, int, int) -> int)

  /** What the writer observes of the disk. */
  datatype FileSystem = FileSystem(present: string -> bool, sha256: string -> string)

  /** new BigDecimal(0.0).setScale(4, ROUND_HALF_UP), i.e. 0.0000. */
  const Dummy: Json := JDecimal(0, 4)

  /** The hash recorded for a tile whose file is missing (--no-tiffs). */
  const NoHash: string := "does-not-exist"

  /** How often `for (int i = 0; i < n; i++)` runs. */
  function Count(n: int): (k: nat)
    ensures n <= 0 ==> k == 0
    ensures n >= 0 ==> k == n
  {
    if n < 0 then 0 else n
  }

  /** The "dimensions" array of every FOV document. */
  const Dimensions: Json := JArr([JStr("r"), JStr("x"), JStr("y"), JStr("c"), JStr("z"), JStr("xc"), JStr("yc"), JStr("zc")])

  /**
   * A writer for field of view fov of the reader's current series; the
   * sizes are read from the reader when the writer is made and never change.
   */
  datatype FovWriter = FovWriter(reader: Reader, meta: Metadata, naming: Scheme, fov: int, out: string)
  {
    const sizeX: int := reader.sizeX
    const sizeY: int := reader.sizeY
    const sizeC: int := reader.sizeC
    const sizeT: int := reader.sizeT
    const sizeZ: int := reader.sizeZ

    /** The metadata length getPosition looks up for an axis and a plane. */
    function Lookup(axis: Axis, z: int, c: int, t: int): Option<Length>
    {
      meta.planePosition(axis, reader.series, reader.planeIndex(z, c, t))
    }

    /**
     * getPosition: the plane position in micrometres, or None (null) when the
     * metadata has none or its unit does not convert to micrometres.
     */
    function Position(axis: Axis, z: int, c: int, t: int): (v: Option<real>)
      ensures v.None? <==> Lookup(axis, z, c, t).None? || !meta.convertible(Lookup(axis, z, c, t).value.unit)
      ensures v.Some? ==> v.value == meta.micrometres(Lookup(axis, z, c, t).value)
    {
      var length := Lookup(axis, z, c, t);
      if length.None? || !meta.convertible(length.value.unit) then None
      else Some(meta.micrometres(length.value))
    }

    /** The two-element array stored under an axis: the value twice, or the dummy twice. */
    function Coordinate(axis: Axis, z: int, c: int, t: int): Json
    {
      match Position(axis, z, c, t)
      case Some(v) => JArr([JNum(v), JNum(v)])
      case None => JArr([Dummy, Dummy])
    }

    /** The "coordinates" object of tile (z, t, c): xc, yc, zc in that order. */
    function Coordinates(z: int, t: int, c: int): Json
    {
      JObj([(XC.Key(), Coordinate(XC, z, c, t)), (YC.Key(), Coordinate(YC, z, c, t)), (ZC.Key(), Coordinate(ZC, z, c, t))])
    }

    /** Where the tile's file is looked for: new File(out, file). */
    function TilePath(z: int, t: int, c: int): string
    {
      Path(out, naming.TiffFilename(fov, z, t, c))
    }

    /** The tile's sha256 entry. */
    function Hash(fs: FileSystem, z: int, t: int, c: int): string
    {
      if fs.present(TilePath(z, t, c)) then fs.sha256(TilePath(z, t, c)) else NoHash
    }

    /** The descriptor of tile (z, t, c), with its fields in the order they are put. */
    function Tile(fs: FileSystem, z: int, t: int, c: int): Json
    {
      JObj([("coordinates", Coordinates(z, t, c)),
            ("file", JStr(naming.TiffFilename(fov, z, t, c))),
            ("indices", JObj([("c", JInt(c)), ("r", JInt(t)), ("z", JInt(z))])),
            ("sha256", JStr(Hash(fs, z, t, c))),
            ("tile_format", JStr("TIFF")),
            ("tile_shape", JArr([JInt(sizeX), JInt(sizeY)]))])
    }

    /** Tile (z, t, c), as a function of the triple. */
    function TileOf(fs: FileSystem): (int, int, int) -> Json
    {
      (z, t, c) => Tile(fs, z, t, c)
    }

    /** The "tiles" array: z outermost, then t, then c. */
    function Tiles(fs: FileSystem): seq<Json>
    {
      Sections(TileOf(fs), Count(sizeZ), Count(sizeT), Count(sizeC))
    }

    /** The FOV document, with its fields in the order they are set. */
    function Document(fs: FileSystem): Json
    {
      JObj([("default_tile_format", JStr("TIFF")),
            ("dimensions", Dimensions),
            ("extras", JObj([("OME", JStr(naming.CompanionFilename(fov)))])),
            ("shape", JObj([("c", JInt(sizeC)), ("r", JInt(sizeT)), ("z", JInt(sizeZ))])),
            ("tiles", JArr(Tiles(fs))),
            ("version", JStr("1.0.0"))])
    }

    /** The file the document is written to: String.format("%s/%s", out, json name). */
    function DocumentPath(): string
    {
      Path(out, naming.JsonFilename(fov))
    }

    /** The document goes to String.format("%s/%s", out, the FOV's JSON name). */
    lemma DocumentPathIsFormatted()
      ensures Format("%s/%s", [Str(out), Str(naming.JsonFilename(fov))]) == Some(DocumentPath())
    {
      PathIsFormatted(out, naming.JsonFilename(fov));
    }

    /** The coordinate loop: sets xc, yc and zc on a fresh object node. */
    method CoordinatesNode(z: int, t: int, c: int) returns (coords: Json)
      ensures coords == Coordinates(z, t, c)
    {
      var fields: seq<(string, Json)> := [];
      var i := 0;
      while i < |Axes|
        invariant 0 <= i <= |Axes|
        invariant fields == seq(i, k requires 0 <= k < i => (Axes[k].Key(), Coordinate(Axes[k], z, c, t)))
      {
        var axis := Axes[i];
        var coord: seq<Json>;
        var value := Position(axis, z, c, t);
        if value.Some? {
          coord := [JNum(value.value), JNum(value.value)];
        } else {
          coord := [Dummy, Dummy];
        }
        assert Keys(fields) == seq(i, k requires 0 <= k < i => Axes[k].Key());
        PutNewKey(fields, axis.Key(), JArr(coord));
        fields := Put(fields, axis.Key(), JArr(coord));
        i := i + 1;
      }
      coords := JObj(fields);
    }

    /** One tile descriptor, as the innermost loop body builds it. */
    method TileNode(fs: FileSystem, z: int, t: int, c: int) returns (tile: Json)
      ensures tile == Tile(fs, z, t, c)
    {
      var coords := CoordinatesNode(z, t, c);
      var file := naming.TiffFilename(fov, z, t, c);
      var hash := NoHash;
      if fs.present(Path(out, file)) {
        hash := fs.sha256(Path(out, file));
      }
      tile := JObj([("coordinates", coords),
                    ("file", JStr(file)),
                    ("indices", JObj([("c", JInt(c)), ("r", JInt(t)), ("z", JInt(z))])),
                    ("sha256", JStr(hash)),
                    ("tile_format", JStr("TIFF")),
                    ("tile_shape", JArr([JInt(sizeX), JInt(sizeY)]))]);
    }

    /**
     * write: builds the FOV document tile by tile, z outermost, then t,
     * then c, and names the file it goes to.
     */
    method Write(fs: FileSystem) returns (path: string, doc: Json)
      ensures path == DocumentPath()
      ensures doc == Document(fs)
    {
      var tiles := TileNodes(fs);
      var dims := [JStr("r"), JStr("x"), JStr("y"), JStr("c"), JStr("z"), JStr("xc"), JStr("yc"), JStr("zc")];
      doc := JObj([("default_tile_format", JStr("TIFF")),
                   ("dimensions", JArr(dims)),
                   ("extras", JObj([("OME", JStr(naming.CompanionFilename(fov)))])),
                   ("shape", JObj([("c", JInt(sizeC)), ("r", JInt(sizeT)), ("z", JInt(sizeZ))])),
                   ("tiles", JArr(tiles)),
                   ("version", JStr("1.0.0"))]);
      path := Path(out, naming.JsonFilename(fov));
    }

    /** The loops over z, t and c of write: one tile node per plane, c fastest. */
    method TileNodes(fs: FileSystem) returns (tiles: seq<Json>)
      ensures tiles == Tiles(fs)
    {
      ghost var f, T, C := TileOf(fs), Count(sizeT), Count(sizeC);
      tiles := [];
      var z := 0;
      while z < sizeZ
        invariant 0 <= z <= Count(sizeZ)
        invariant tiles == Sections(f, z, T, C)
      {
        var t := 0;
        while t < sizeT
          invariant 0 <= t <= T
          invariant tiles == Sections(f, z, T, C) + TimePoints(f, z, t, C)
        {
          var c := 0;
          while c < sizeC
            invariant 0 <= c <= C
            invariant tiles == Sections(f, z, T, C) + TimePoints(f, z, t, C) + Channels(f, z, t, C)[..c]
          {
            var tile := TileNode(fs, z, t, c);
            assert tile == f(z, t, c);
            ChannelsPrefix(f, z, t, C, c);
            AppendAfterThree(Sections(f, z, T, C), TimePoints(f, z, t, C), Channels(f, z, t, C)[..c], tile);
            tiles := tiles + [tile];
            c := c + 1;
          }
          assert Channels(f, z, t, C)[..c] == Channels(f, z, t, C);
          NextTimePoint(f, z, t, C, Sections(f, z, T, C));
          t := t + 1;
        }
        NextSection(f, z, T, C);
        z := z + 1;
      }
    }

    // -------------------------------------------------------------------------
    // The tile space

    /** The tiles array has sizeZ * sizeT * sizeC entries (none if a size is 0 or less). */
    lemma TileCount(fs: FileSystem)
      ensures |Tiles(fs)| == Count(sizeZ) * Count(sizeT) * Count(sizeC)
    {
      SectionsLength(TileOf(fs), Count(sizeZ), Count(sizeT), Count(sizeC));
      Associate(Count(sizeZ), Count(sizeT), Count(sizeC));
    }

    /** Tile (z, t, c) sits at position (z * sizeT + t) * sizeC + c. */
    lemma TilePosition(fs: FileSystem, z: int, t: int, c: int)
      requires 0 <= z < sizeZ && 0 <= t < sizeT && 0 <= c < sizeC
      ensures (z * sizeT + t) * sizeC + c < |Tiles(fs)|
      ensures Tiles(fs)[(z * sizeT + t) * sizeC + c] == Tile(fs, z, t, c)
    {
      SectionsIndex(TileOf(fs), Count(sizeZ), Count(sizeT), Count(sizeC), z, t, c);
    }

    /**
     * Tiles run z outermost, then t, then c innermost: tile k is the one for
     * z = k / (sizeT * sizeC), t = (k / sizeC) % sizeT and c = k % sizeC.
     */
    lemma TileOrder(fs: FileSystem, k: int)
      requires 0 <= k < |Tiles(fs)|
      ensures sizeZ > 0 && sizeT > 0 && sizeC > 0
      ensures Tiles(fs)[k] == Tile(fs, k / (sizeT * sizeC), (k / sizeC) % sizeT, k % sizeC)
      ensures 0 <= k / (sizeT * sizeC) < sizeZ && 0 <= (k / sizeC) % sizeT < sizeT && 0 <= k % sizeC < sizeC
    {
      SectionsOrder(TileOf(fs), Count(sizeZ), Count(sizeT), Count(sizeC), k);
    }

    /**
     * The tile of (z, t, c) names that plane's TIFF file, records the same
     * triple as its indices {c, r = t, z}, carries the file's hash or
     * "does-not-exist", and is a TIFF of sizeX by sizeY.
     */
    lemma TileDescribesItsPlane(fs: FileSystem, z: int, t: int, c: int)
      requires 0 <= z < sizeZ && 0 <= t < sizeT && 0 <= c < sizeC
      ensures (z * sizeT + t) * sizeC + c < |Tiles(fs)|
      ensures var tile := Tiles(fs)[(z * sizeT + t) * sizeC + c];
              var file := naming.TiffFilename(fov, z, t, c);
              && Field(tile, "file") == Some(JStr(file))
              && Field(tile, "indices") == Some(JObj([("c", JInt(c)), ("r", JInt(t)), ("z", JInt(z))]))
              && Field(tile, "sha256") == Some(JStr(if fs.present(Path(out, file)) then fs.sha256(Path(out, file)) else "does-not-exist"))
              && Field(tile, "tile_format") == Some(JStr("TIFF"))
              && Field(tile, "tile_shape") == Some(JArr([JInt(sizeX), JInt(sizeY)]))
              && Field(tile, "coordinates") == Some(Coordinates(z, t, c))
    {
      TilePosition(fs, z, t, c);
      var file := naming.TiffFilename(fov, z, t, c);
      TileLookups(Coordinates(z, t, c), JStr(file), JObj([("c", JInt(c)), ("r", JInt(t)), ("z", JInt(z))]),
                  JStr(Hash(fs, z, t, c)), JStr("TIFF"), JArr([JInt(sizeX), JInt(sizeY)]));
    }

    /** No two tiles of a document name the same file. */
    lemma TileFilesDistinct(fs: FileSystem, j: int, k: int)
      requires 0 <= j < k < |Tiles(fs)|
      ensures Field(Tiles(fs)[j], "file") != Field(Tiles(fs)[k], "file")
    {
      TileOrder(fs, j);
      TileOrder(fs, k);
      var T, C := sizeT, sizeC;
      var a := TileKey(fov, j / (T * C), (j / C) % T, j % C);
      var b := TileKey(fov, k / (T * C), (k / C) % T, k % C);
      TileFile(fs, a.z, a.t, a.c);
      TileFile(fs, b.z, b.t, b.c);
      if naming.TiffFilename(fov, a.z, a.t, a.c) == naming.TiffFilename(fov, b.z, b.t, b.c) {
        TiffFilenameInjective(naming, a, b);
        Recompose(j, T, C);
        Recompose(k, T, C);
      }
    }

    lemma TileFile(fs: FileSystem, z: int, t: int, c: int)
      ensures Field(Tile(fs, z, t, c), "file") == Some(JStr(naming.TiffFilename(fov, z, t, c)))
    {
      TileLookups(Coordinates(z, t, c), JStr(naming.TiffFilename(fov, z, t, c)), JObj([("c", JInt(c)), ("r", JInt(t)), ("z", JInt(z))]),
                  JStr(Hash(fs, z, t, c)), JStr("TIFF"), JArr([JInt(sizeX), JInt(sizeY)]));
    }

    /**
     * Each of xc, yc, zc holds two equal entries: the position in
     * micrometres when the metadata has one in a convertible unit, and the
     * 0.0000 placeholder otherwise.
     */
    lemma CoordinatesArePairs(z: int, t: int, c: int, axis: Axis)
      ensures var v := if Lookup(axis, z, c, t).Some? && meta.convertible(Lookup(axis, z, c, t).value.unit)
                       then JNum(meta.micrometres(Lookup(axis, z, c, t).value))
                       else Dummy;
              Field(Coordinates(z, t, c), axis.Key()) == Some(JArr([v, v]))
    {
      CoordinateLookups(Coordinate(XC, z, c, t), Coordinate(YC, z, c, t), Coordinate(ZC, z, c, t));
    }

    /**
     * The document: tile format TIFF, the eight dimension names, the
     * companion file under extras.OME, shape {c, r = t, z}, the tiles, and
     * version 1.0.0; no default tile shape is written.
     */
    lemma DocumentFields(fs: FileSystem)
      ensures var doc := Document(fs);
              && Field(doc, "default_tile_format") == Some(JStr("TIFF"))
              && Field(doc, "dimensions") == Some(JArr([JStr("r"), JStr("x"), JStr("y"), JStr("c"), JStr("z"), JStr("xc"), JStr("yc"), JStr("zc")]))
              && Field(doc, "extras") == Some(JObj([("OME", JStr(naming.CompanionFilename(fov)))]))
              && Field(doc, "shape") == Some(JObj([("c", JInt(sizeC)), ("r", JInt(sizeT)), ("z", JInt(sizeZ))]))
              && Field(doc, "tiles") == Some(JArr(Tiles(fs)))
              && Field(doc, "version") == Some(JStr("1.0.0"))
              && Field(doc, "default_tile_shape") == None
    {
      DocumentLookups(JStr("TIFF"), Dimensions, JObj([("OME", JStr(naming.CompanionFilename(fov)))]),
                      JObj([("c", JInt(sizeC)), ("r", JInt(sizeT)), ("z", JInt(sizeZ))]),
                      JArr(Tiles(fs)), JStr("1.0.0"));
    }

    /**
     * A plane whose X position is 444 micrometres: the first tile records
     * xc as [444.0, 444.0].
     */
    lemma PositionOfFieldScenario(fs: FileSystem)
      requires sizeZ >= 1 && sizeT >= 1 && sizeC >= 1
      requires Lookup(XC, 0, 0, 0).Some? && meta.convertible(Lookup(XC, 0, 0, 0).value.unit)
      requires meta.micrometres(Lookup(XC, 0, 0, 0).value) == 444.0
      ensures |Tiles(fs)| > 0 && Field(Tiles(fs)[0], "coordinates").Some?
      ensures Field(Field(Tiles(fs)[0], "coordinates").value, "xc") == Some(JArr([JNum(444.0), JNum(444.0)]))
    {
      TileDescribesItsPlane(fs, 0, 0, 0);
      assert (0 * sizeT + 0) * sizeC + 0 == 0;
      assert Field(Tiles(fs)[0], "coordinates") == Some(Coordinates(0, 0, 0));
      CoordinatesArePairs(0, 0, 0, XC);
      assert XC.Key() == "xc";
    }

    /** The extras object names the companion OME-XML file of this FOV. */
    lemma ExtrasNameCompanion(fs: FileSystem)
      ensures Field(Document(fs), "extras").Some?
      ensures Field(Field(Document(fs), "extras").value, "OME") == Some(JStr(naming.CompanionFilename(fov)))
    {
      DocumentFields(fs);
    }
  }

  /** Each key of the xc, yc, zc object finds its own array. */
  lemma CoordinateLookups(x: Json, y: Json, z: Json)
    ensures var fields := [(XC.Key(), x), (YC.Key(), y), (ZC.Key(), z)];
            Get(fields, XC.Key()) == Some(x) && Get(fields, YC.Key()) == Some(y) && Get(fields, ZC.Key()) == Some(z)
  {
    var fields := [(XC.Key(), x), (YC.Key(), y), (ZC.Key(), z)];
    assert Distinct(Keys(fields));
    GetAt(fields, 0);
    GetAt(fields, 1);
    GetAt(fields, 2);
  }

  lemma DocumentKeysDistinct()
    ensures Distinct(["default_tile_format", "dimensions", "extras", "shape", "tiles", "version"])
  {
  }

  lemma TileKeysDistinct()
    ensures Distinct(["coordinates", "file", "indices", "sha256", "tile_format", "tile_shape"])
  {
  }

  /** Each field of the FOV document is found under its key, and there is no default tile shape. */
  lemma DocumentLookups(format: Json, dims: Json, extras: Json, shape: Json, tiles: Json, version: Json)
    ensures var fields := [("default_tile_format", format), ("dimensions", dims), ("extras", extras),
                           ("shape", shape), ("tiles", tiles), ("version", version)];
            && Get(fields, "default_tile_format") == Some(format)
            && Get(fields, "dimensions") == Some(dims)
            && Get(fields, "extras") == Some(extras)
            && Get(fields, "shape") == Some(shape)
            && Get(fields, "tiles") == Some(tiles)
            && Get(fields, "version") == Some(version)
            && Get(fields, "default_tile_shape") == None
  {
    var fields := [("default_tile_format", format), ("dimensions", dims), ("extras", extras),
                   ("shape", shape), ("tiles", tiles), ("version", version)];
    DocumentKeysDistinct();
    assert Keys(fields) == ["default_tile_format", "dimensions", "extras", "shape", "tiles", "version"];
    GetAt(fields, 0);
    GetAt(fields, 1);
    GetAt(fields, 2);
    GetAt(fields, 3);
    GetAt(fields, 4);
    GetAt(fields, 5);
    GetFindsKeys(fields, "default_tile_shape");
  }

  /** Each field of a tile descriptor is found under its key. */
  lemma TileLookups(coordinates: Json, file: Json, indices: Json, sha256: Json, format: Json, shape: Json)
    ensures var fields := [("coordinates", coordinates), ("file", file), ("indices", indices),
                           ("sha256", sha256), ("tile_format", format), ("tile_shape", shape)];
            && Get(fields, "coordinates") == Some(coordinates)
            && Get(fields, "file") == Some(file)
            && Get(fields, "indices") == Some(indices)
            && Get(fields, "sha256") == Some(sha256)
            && Get(fields, "tile_format") == Some(format)
            && Get(fields, "tile_shape") == Some(shape)
  {
    var fields := [("coordinates", coordinates), ("file", file), ("indices", indices),
                   ("sha256", sha256), ("tile_format", format), ("tile_shape", shape)];
    TileKeysDistinct();
    assert Keys(fields) == ["coordinates", "file", "indices", "sha256", "tile_format", "tile_shape"];
    GetAt(fields, 0);
    GetAt(fields, 1);
    GetAt(fields, 2);
    GetAt(fields, 3);
    GetAt(fields, 4);
    GetAt(fields, 5);
  }

  // ---------------------------------------------------------------------------
  // The (z, t, c) plane space, enumerated by the three nested loops

  /** The planes (z, t, c) for c < C. */
  function Channels<A>(f: (int, int, int) -> A, z: int, t: int, C: nat): (r: seq<A>)
    ensures |r| == C
  {
    seq(C, c => f(z, t, c))
  }

  /** The planes of section z for the first n time points. */
  function TimePoints<A>(f: (int, int, int) -> A, z: int, n: nat, C: nat): seq<A>
  {
    if n == 0 then [] else TimePoints(f, z, n - 1, C) + Channels(f, z, n - 1, C)
  }

  /** The planes of the first n sections. */
  function Sections<A>(f: (int, int, int) -> A, n: nat, T: nat, C: nat): seq<A>
  {
    if n == 0 then [] else Sections(f, n - 1, T, C) + TimePoints(f, n - 1, T, C)
  }

  lemma AppendAfterThree<A>(a: seq<A>, b: seq<A>, p: seq<A>, x: A)
    ensures a + b + p + [x] == a + b + (p + [x])
  {
  }

  /** The planes of time point t follow those of the earlier time points. */
  lemma NextTimePoint<A>(f: (int, int, int) -> A, z: int, t: nat, C: nat, before: seq<A>)
    ensures before + TimePoints(f, z, t, C) + Channels(f, z, t, C) == before + TimePoints(f, z, t + 1, C)
  {
  }

  /** The planes of section z follow those of the earlier sections. */
  lemma NextSection<A>(f: (int, int, int) -> A, z: nat, T: nat, C: nat)
    ensures Sections(f, z, T, C) + TimePoints(f, z, T, C) == Sections(f, z + 1, T, C)
  {
  }

  /** One more channel extends the prefix of a time point's planes by that plane. */
  lemma ChannelsPrefix<A>(f: (int, int, int) -> A, z: int, t: int, C: nat, c: int)
    requires 0 <= c < C
    ensures Channels(f, z, t, C)[..c + 1] == Channels(f, z, t, C)[..c] + [f(z, t, c)]
  {
  }

  lemma {:induction false} TimePointsLength<A>(f: (int, int, int) -> A, z: int, n: nat, C: nat)
    ensures |TimePoints(f, z, n, C)| == n * C
  {
    if n > 0 {
      TimePointsLength(f, z, n - 1, C);
    }
  }

  lemma {:induction false} SectionsLength<A>(f: (int, int, int) -> A, n: nat, T: nat, C: nat)
    ensures |Sections(f, n, T, C)| == n * (T * C)
  {
    if n > 0 {
      SectionsLength(f, n - 1, T, C);
      TimePointsLength(f, n - 1, T, C);
      assert n * (T * C) == (n - 1) * (T * C) + T * C;
    }
  }

  lemma {:induction false} TimePointsIndex<A>(f: (int, int, int) -> A, z: int, n: nat, C: nat, t: int, c: int)
    requires 0 <= t < n && 0 <= c < C
    ensures t * C + c < |TimePoints(f, z, n, C)|
    ensures TimePoints(f, z, n, C)[t * C + c] == f(z, t, c)
  {
    var a, b := TimePoints(f, z, n - 1, C), Channels(f, z, n - 1, C);
    TimePointsLength(f, z, n - 1, C);
    if t < n - 1 {
      TimePointsIndex(f, z, n - 1, C, t, c);
      ConcatLeft(a, b, t * C + c);
    } else {
      ConcatRight(a, b, c);
    }
  }

  lemma {:induction false} SectionsIndex<A>(f: (int, int, int) -> A, n: nat, T: nat, C: nat, z: int, t: int, c: int)
    requires 0 <= z < n && 0 <= t < T && 0 <= c < C
    ensures (z * T + t) * C + c < |Sections(f, n, T, C)|
    ensures Sections(f, n, T, C)[(z * T + t) * C + c] == f(z, t, c)
  {
    var l, r := Sections(f, n - 1, T, C), TimePoints(f, n - 1, T, C);
    assert Sections(f, n, T, C) == l + r;
    var k := (z * T + t) * C + c;
    if z < n - 1 {
      SectionsIndex(f, n - 1, T, C, z, t, c);
      ConcatLeft(l, r, k);
    } else {
      LastSectionIndex(f, z, T, C, t, c);
    }
  }

  /** Plane (z, t, c) of the last of z + 1 sections lies after the z earlier sections. */
  lemma LastSectionIndex<A>(f: (int, int, int) -> A, z: nat, T: nat, C: nat, t: int, c: int)
    requires 0 <= t < T && 0 <= c < C
    ensures (z * T + t) * C + c < |Sections(f, z + 1, T, C)|
    ensures Sections(f, z + 1, T, C)[(z * T + t) * C + c] == f(z, t, c)
  {
    var l, r := Sections(f, z, T, C), TimePoints(f, z, T, C);
    assert Sections(f, z + 1, T, C) == l + r;
    SectionsLength(f, z, T, C);
    TimePointsIndex(f, z, T, C, t, c);
    Distribute(z, T, t, C);
    assert (z * T + t) * C + c == |l| + (t * C + c);
    ConcatRight(l, r, t * C + c);
  }

  /** Plane k of the enumeration is (k / (T * C), (k / C) % T, k % C). */
  lemma SectionsOrder<A>(f: (int, int, int) -> A, Z: nat, T: nat, C: nat, k: int)
    requires 0 <= k < |Sections(f, Z, T, C)|
    ensures Z > 0 && T > 0 && C > 0
    ensures 0 <= k / (T * C) < Z && 0 <= (k / C) % T < T && 0 <= k % C < C
    ensures Sections(f, Z, T, C)[k] == f(k / (T * C), (k / C) % T, k % C)
  {
    SectionsLength(f, Z, T, C);
    NonZeroFactors(k, Z, T, C);
    var z, r := k / (T * C), k % (T * C);
    var t, c := r / C, r % C;
    DivBelow(k, Z, T * C);
    DivBelow(r, T, C);
    assert k == (z * T + t) * C + c by {
      Distribute(z, T, t, C);
    }
    DivModUnique(k, C, z * T + t, c);
    DivModUnique(z * T + t, T, z, t);
    SectionsIndex(f, Z, T, C, z, t, c);
  }

  lemma ConcatLeft<A>(l: seq<A>, r: seq<A>, i: int)
    requires 0 <= i < |l|
    ensures (l + r)[i] == l[i]
  {
  }

  lemma ConcatRight<A>(l: seq<A>, r: seq<A>, i: int)
    requires 0 <= i < |r|
    ensures (l + r)[|l| + i] == r[i]
  {
  }

  // ---------------------------------------------------------------------------
  // Arithmetic of the plane index

  lemma DivModUnique(k: int, d: int, q: int, r: int)
    requires d > 0 && 0 <= r < d && k == q * d + r
    ensures k / d == q && k % d == r
  {
    var q', r' := k / d, k % d;
    assert (q - q') * d == r' - r;
    ZeroFactor(q - q', d);
  }

  lemma ZeroFactor(a: int, d: int)
    requires d > 0 && -d < a * d < d
    ensures a == 0
  {
    if a > 0 {
      MulMono(1, a, d);
    } else if a < 0 {
      MulMono(a, -1, d);
    }
  }

  lemma MulMono(a: int, b: int, d: int)
    requires a <= b && d > 0
    ensures a * d <= b * d
  {
  }

  lemma DivBelow(k: int, a: int, d: int)
    requires d > 0 && 0 <= k < a * d
    ensures 0 <= k / d < a && 0 <= k % d < d
  {
  }

  lemma Distribute(z: int, t1: int, t: int, c1: int)
    ensures (z * t1 + t) * c1 == z * (t1 * c1) + t * c1
  {
  }

  lemma Associate(a: int, b: int, c: int)
    ensures a * b * c == a * (b * c)
  {
  }

  lemma NonZeroFactors(k: int, z: nat, t: nat, c: nat)
    requires 0 <= k < z * (t * c)
    ensures z > 0 && t > 0 && c > 0
  {
  }

  /** k is recovered from its three coordinates. */
  lemma Recompose(k: int, t: int, c: int)
    requires k >= 0 && t > 0 && c > 0
    ensures k == ((k / (t * c)) * t + (k / c) % t) * c + k % c
  {
    var z, r := k / (t * c), k % (t * c);
    DivBelow(r, t, c);
    assert k == z * (t * c) + r;
    assert r == (r / c) * c + r % c;
    assert k == (z * t + r / c) * c + r % c by {
      Distribute(z, t, r / c, c);
    }
    DivModUnique(k, c, z * t + r / c, r % c);
    DivModUnique(z * t + r / c, t, z, r / c);
  }
}
