/**
 * How output files are named (the enum Naming). Each name is what
 * String.format prints for the source's template: the FOV through %03d
 * (JavaFormat.PadInt(fov, 3)), z, t and c through %d (JavaFormat.IntToString).
 */
module Naming {
  import opened Wrappers
  import opened JavaFormat

  /** The naming strategies; the only one is "standard". */
  datatype Scheme = Standard {

    /** The root every name of the strategy starts with. */
    function Root(): string
    {
      match this
      case Standard => "primary_image-fov"
    }

    /** getTiffPattern: "%s_%03d_Z%%z_T%%t_C%%c.ome.tiff"; %z, %t and %c are left for the converter. */
    function TiffPattern(fov: int): string
    {
      FovPrefix(fov) + "_Z%z_T%t_C%c.ome.tiff"
    }

    /** getTiffFilename: "%s_%03d_Z%d_T%d_C%d.ome.tiff". */
    function TiffFilename(fov: int, z: int, t: int, c: int): string
    {
      FovPrefix(fov) + TileFields(z, t, c) + ".ome.tiff"
    }

    /** getJsonFilename: "%s_%03d.json". */
    function JsonFilename(fov: int): string
    {
      FovPrefix(fov) + ".json"
    }

    /** getCompanionFilename: "%s_%03d.companion.ome". */
    function CompanionFilename(fov: int): string
    {
      FovPrefix(fov) + ".companion.ome"
    }

    /** The part every name of one FOV starts with: root, '_', the padded FOV. */
    function FovPrefix(fov: int): string
    {
      Root() + "_" + PadInt(fov, 3)
    }
  }

  /** The "_Z%d_T%d_C%d" part of a tile name. */
  function TileFields(z: int, t: int, c: int): string
  {
    "_Z" + IntToString(z) + "_T" + IntToString(t) + "_C" + IntToString(c)
  }

  // ---------------------------------------------------------------------------
  // Reading a tile name back

  /** The four numbers a tile name is built from. */
  datatype TileKey = TileKey(fov: int, z: int, t: int, c: int)

  /** The pieces of a string between the '_' characters, like String.split("_", -1). */
  function SplitUnderscores(s: string): (parts: seq<string>)
    ensures |parts| >= 1
    decreases |s|
  {
    if s == [] then [""]
    else
      var rest := SplitUnderscores(s[1..]);
      if s[0] == '_' then [""] + rest else [[s[0]] + rest[0]] + rest[1..]
  }

  /** A field made of one letter followed by a numeral, such as "Z4". */
  predicate Tagged(field: string, tag: char)
  {
    |field| >= 1 && field[0] == tag && IsNumeral(field[1..])
  }

  /**
   * The inverse of Scheme.TiffFilename: recovers (fov, z, t, c) from a tile
   * name of the scheme, or None for a string that is not one.
   */
  function ParseTiffFilename(n: Scheme, name: string): Option<TileKey>
  {
    var pre := n.Root() + "_";
    var suf := ".ome.tiff";
    if |name| < |pre| + |suf| || name[..|pre|] != pre || name[|name| - |suf|..] != suf then None
    else ParseTileFields(name[|pre|..|name| - |suf|])
  }

  /** The middle of a tile name, "%03d_Z%d_T%d_C%d", read back. */
  function ParseTileFields(mid: string): Option<TileKey>
  {
    var f := SplitUnderscores(mid);
    if |f| == 4 && IsNumeral(f[0]) && Tagged(f[1], 'Z') && Tagged(f[2], 'T') && Tagged(f[3], 'C') then
      Some(TileKey(ParseInt(f[0]), ParseInt(f[1][1..]), ParseInt(f[2][1..]), ParseInt(f[3][1..])))
    else None
  }

  lemma {:induction false} SplitWithoutUnderscore(a: string)
    requires '_' !in a
    ensures SplitUnderscores(a) == [a]
    decreases |a|
  {
    if a != [] {
      assert a[1..] == [] || a[1..][0] == a[1];
      SplitWithoutUnderscore(a[1..]);
      assert [a[0]] + a[1..] == a;
    }
  }

  lemma {:induction false} SplitAtFirstUnderscore(a: string, b: string)
    requires '_' !in a
    ensures SplitUnderscores(a + "_" + b) == [a] + SplitUnderscores(b)
    decreases |a|
  {
    var s := a + "_" + b;
    if a == [] {
      assert s == "_" + b && s[1..] == b;
    } else {
      assert s[0] == a[0] && s[1..] == a[1..] + "_" + b;
      SplitAtFirstUnderscore(a[1..], b);
      assert [a[0]] + a[1..] == a;
    }
  }

  lemma NumeralHasNoSeparator(s: string)
    requires IsNumeral(s)
    ensures '_' !in s && '%' !in s
  {
    NumeralChars(s);
  }

  lemma TaggedNumeral(tag: char, n: int)
    requires tag != '_'
    ensures Tagged([tag] + IntToString(n), tag) && ParseInt(([tag] + IntToString(n))[1..]) == n
    ensures '_' !in [tag] + IntToString(n)
  {
    IntToStringRoundTrip(n);
    NumeralHasNoSeparator(IntToString(n));
    assert ([tag] + IntToString(n))[1..] == IntToString(n);
  }

  lemma Slices(pre: string, mid: string, suf: string)
    ensures (pre + mid + suf)[..|pre|] == pre
    ensures (pre + mid + suf)[|pre + mid + suf| - |suf|..] == suf
    ensures (pre + mid + suf)[|pre|..|pre + mid + suf| - |suf|] == mid
  {
  }

  /** The fields of a tile name, joined by '_'. */
  lemma TileFieldsSplit(z: int, t: int, c: int)
    ensures TileFields(z, t, c)
         == "_" + (("Z" + IntToString(z)) + "_" + (("T" + IntToString(t)) + "_" + ("C" + IntToString(c))))
  {
    var zs, ts, cs := IntToString(z), IntToString(t), IntToString(c);
    assert "_Z" == "_" + "Z" && "_T" == "_" + "T" && "_C" == "_" + "C";
  }

  /** The middle of a tile name splits into its four fields. */
  lemma TileMiddleSplits(fov: int, z: int, t: int, c: int)
    ensures SplitUnderscores(PadInt(fov, 3) + TileFields(z, t, c))
         == [PadInt(fov, 3), "Z" + IntToString(z), "T" + IntToString(t), "C" + IntToString(c)]
  {
    var p, zs, ts, cs := PadInt(fov, 3), "Z" + IntToString(z), "T" + IntToString(t), "C" + IntToString(c);
    TileFieldsSplit(z, t, c);
    assert p + TileFields(z, t, c) == p + "_" + (zs + "_" + (ts + "_" + cs));
    PadIntRoundTrip(fov, 3);
    NumeralHasNoSeparator(p);
    TaggedNumeral('Z', z);
    TaggedNumeral('T', t);
    TaggedNumeral('C', c);
    SplitFour(p, zs, ts, cs);
  }

  /** Four fields without '_' joined by '_' split back into those four. */
  lemma SplitFour(a: string, b: string, c: string, d: string)
    requires '_' !in a && '_' !in b && '_' !in c && '_' !in d
    ensures SplitUnderscores(a + "_" + (b + "_" + (c + "_" + d))) == [a, b, c, d]
  {
    SplitAtFirstUnderscore(a, b + "_" + (c + "_" + d));
    SplitAtFirstUnderscore(b, c + "_" + d);
    SplitAtFirstUnderscore(c, d);
    SplitWithoutUnderscore(d);
  }

  /** The four fields of a tile name pass the parser's checks and read back as the numbers. */
  lemma TileFieldsParse(fov: int, z: int, t: int, c: int)
    ensures var f := [PadInt(fov, 3), "Z" + IntToString(z), "T" + IntToString(t), "C" + IntToString(c)];
            && IsNumeral(f[0]) && Tagged(f[1], 'Z') && Tagged(f[2], 'T') && Tagged(f[3], 'C')
            && TileKey(ParseInt(f[0]), ParseInt(f[1][1..]), ParseInt(f[2][1..]), ParseInt(f[3][1..])) == TileKey(fov, z, t, c)
  {
    PadIntRoundTrip(fov, 3);
    TaggedNumeral('Z', z);
    TaggedNumeral('T', t);
    TaggedNumeral('C', c);
  }

  /** The middle of every tile name reads back as the four numbers. */
  lemma TileFieldsRoundTrip(fov: int, z: int, t: int, c: int)
    ensures ParseTileFields(PadInt(fov, 3) + TileFields(z, t, c)) == Some(TileKey(fov, z, t, c))
  {
    TileMiddleSplits(fov, z, t, c);
    TileFieldsParse(fov, z, t, c);
  }

  /** The parser strips the root, '_' and ".ome.tiff" and reads what is between. */
  lemma ParseStripsFrame(n: Scheme, mid: string)
    ensures ParseTiffFilename(n, n.Root() + "_" + mid + ".ome.tiff") == ParseTileFields(mid)
  {
    Slices(n.Root() + "_", mid, ".ome.tiff");
  }

  /** Every tile name reads back as the four numbers it was built from. */
  lemma TiffFilenameRoundTrip(n: Scheme, fov: int, z: int, t: int, c: int)
    ensures ParseTiffFilename(n, n.TiffFilename(fov, z, t, c)) == Some(TileKey(fov, z, t, c))
  {
    var mid := PadInt(fov, 3) + TileFields(z, t, c);
    assert n.TiffFilename(fov, z, t, c) == n.Root() + "_" + mid + ".ome.tiff";
    ParseStripsFrame(n, mid);
    TileFieldsRoundTrip(fov, z, t, c);
  }

  /** Distinct (fov, z, t, c) give distinct tile names. */
  lemma TiffFilenameInjective(n: Scheme, a: TileKey, b: TileKey)
    requires n.TiffFilename(a.fov, a.z, a.t, a.c) == n.TiffFilename(b.fov, b.z, b.t, b.c)
    ensures a == b
  {
    TiffFilenameRoundTrip(n, a.fov, a.z, a.t, a.c);
    TiffFilenameRoundTrip(n, b.fov, b.z, b.t, b.c);
  }

  // ---------------------------------------------------------------------------
  // The FOV field

  /** For 0 <= fov <= 999 the FOV field is exactly three digits with leading zeros. */
  lemma FovFieldIsThreeDigits(n: Scheme, fov: int)
    requires 0 <= fov <= 999
    ensures var p := n.FovPrefix(fov); var k := |n.Root()| + 1;
      && |p| == k + 3
      && p[..k] == n.Root() + "_"
      && AllDigits(p[k..]) && DigitsValue(p[k..]) == fov
  {
    Pad3Width(fov);
    var k := |n.Root()| + 1;
    assert n.FovPrefix(fov)[k..] == PadInt(fov, 3);
  }

  /** FOV 1 is written "001", not "1". */
  lemma FovOneIsPadded()
    ensures PadInt(1, 3) == "001"
    ensures Standard.JsonFilename(1) == "primary_image-fov_001.json"
    ensures Standard.TiffFilename(1, 0, 0, 0) == "primary_image-fov_001_Z0_T0_C0.ome.tiff"
  {
    assert Zeros(2) == "00";
  }

  /** FOV 0, the default of -f, is written as fov_000. */
  lemma FovZeroIsPadded()
    ensures PadInt(0, 3) == "000"
    ensures Standard.JsonFilename(0) == "primary_image-fov_000.json"
  {
    assert Zeros(2) == "00";
  }

  /** The last tile of a 5 x 4 x 3 (z, t, c) image of FOV 0. */
  lemma LastTileOfFiveDimensionalImage()
    ensures Standard.TiffFilename(0, 4, 3, 2) == "primary_image-fov_000_Z4_T3_C2.ome.tiff"
  {
    assert Zeros(2) == "00";
  }

  // ---------------------------------------------------------------------------
  // The per-FOV files

  lemma PrefixOf(p: string, q: string)
    ensures (p + q)[..|p|] == p && (p + q)[|p|..] == q
  {
  }

  /** The JSON, companion and tile names of one FOV all start with its FOV prefix. */
  lemma FovFilesSharePrefix(n: Scheme, fov: int, z: int, t: int, c: int)
    ensures var p := n.FovPrefix(fov);
      && n.JsonFilename(fov)[..|p|] == p && n.JsonFilename(fov)[|p|..] == ".json"
      && n.CompanionFilename(fov)[..|p|] == p && n.CompanionFilename(fov)[|p|..] == ".companion.ome"
      && n.TiffFilename(fov, z, t, c)[..|p| + 2] == p + "_Z"
  {
    var p := n.FovPrefix(fov);
    PrefixOf(p, ".json");
    PrefixOf(p, ".companion.ome");
    TiffFilenameShape(n, fov, z, t, c);
    PrefixOf(p + "_Z", IntToString(z) + ("_T" + (IntToString(t) + ("_C" + (IntToString(c) + ".ome.tiff")))));
  }

  /** The FOV a prefix was built from can be read back from it. */
  lemma FovPrefixRoundTrip(n: Scheme, fov: int)
    ensures var p := n.FovPrefix(fov); var k := |n.Root()| + 1;
      |p| > k && IsNumeral(p[k..]) && ParseInt(p[k..]) == fov
  {
    var k := |n.Root()| + 1;
    assert n.FovPrefix(fov)[k..] == PadInt(fov, 3);
    PadIntRoundTrip(fov, 3);
  }

  lemma FovPrefixInjective(n: Scheme, a: int, b: int, sa: string, sb: string)
    requires n.FovPrefix(a) + sa == n.FovPrefix(b) + sb && |sa| == |sb|
    ensures a == b
  {
    var pa, pb := n.FovPrefix(a), n.FovPrefix(b);
    assert |pa| == |pb|;
    assert pa == (pa + sa)[..|pa|] == (pb + sb)[..|pb|] == pb;
    FovPrefixRoundTrip(n, a);
    FovPrefixRoundTrip(n, b);
  }

  /** Distinct FOVs get distinct JSON files. */
  lemma JsonFilenameInjective(n: Scheme, a: int, b: int)
    requires n.JsonFilename(a) == n.JsonFilename(b)
    ensures a == b
  {
    FovPrefixInjective(n, a, b, ".json", ".json");
  }

  /** Distinct FOVs get distinct companion files. */
  lemma CompanionFilenameInjective(n: Scheme, a: int, b: int)
    requires n.CompanionFilename(a) == n.CompanionFilename(b)
    ensures a == b
  {
    FovPrefixInjective(n, a, b, ".companion.ome", ".companion.ome");
  }

  /**
   * No tile name is a JSON or companion name and no JSON name is a companion
   * name, whatever the FOVs: the three suffixes end in different letters.
   */
  lemma FileKindsAreDistinct(n: Scheme, fov: int, fov': int, z: int, t: int, c: int)
    ensures n.TiffFilename(fov, z, t, c) != n.JsonFilename(fov')
    ensures n.TiffFilename(fov, z, t, c) != n.CompanionFilename(fov')
    ensures n.JsonFilename(fov) != n.CompanionFilename(fov')
  {
    var tile, json, comp := n.TiffFilename(fov, z, t, c), n.JsonFilename(fov'), n.CompanionFilename(fov');
    assert tile[|tile| - 1] == 'f';
    assert json[|json| - 1] == 'n';
    assert comp[|comp| - 1] == 'e';
    assert n.JsonFilename(fov)[|n.JsonFilename(fov)| - 1] == 'n';
  }

  // ---------------------------------------------------------------------------
  // The names are what String.format prints for the source's templates

  /** The pieces of "%s_%03d" followed by the pieces of a rest, filled with a name and a number. */
  lemma PrefixPieces(rest: seq<Piece>, name: string, n: int, args: seq<Arg>)
    requires PlainTexts(rest)
    ensures var ps := [StrConv] + ([Text("_")] + ([Pad3Conv] + rest));
            && PlainTexts(ps) && Render(ps) == "%s" + ("_" + ("%03d" + Render(rest)))
            && Fill(ps, [Str(name), Int(n)] + args) == Prepend(name + ("_" + PadInt(n, 3)), Fill(rest, args))
  {
    var p3 := [Pad3Conv] + rest;
    var p2 := [Text("_")] + p3;
    var p1 := [StrConv] + p2;
    PiecesCons(Pad3Conv, rest);
    PiecesCons(Text("_"), p3);
    PiecesCons(StrConv, p2);
    var a1 := [Str(name), Int(n)] + args;
    assert a1[0] == Str(name) && a1[1..][0] == Int(n) && a1[1..][1..] == args;
    assert Fill(p3, a1[1..]) == Prepend(PadInt(n, 3), Fill(rest, args));
    assert Fill(p2, a1[1..]) == Prepend("_", Prepend(PadInt(n, 3), Fill(rest, args)));
    assert Fill(p1, a1) == Prepend(name, Prepend("_", Prepend(PadInt(n, 3), Fill(rest, args))));
    PrependTwice("_", PadInt(n, 3), Fill(rest, args));
    PrependTwice(name, "_" + PadInt(n, 3), Fill(rest, args));
  }

  /** getJsonFilename: String.format("%s_%03d.json", root, fov). */
  lemma JsonFilenameIsFormatted(n: Scheme, fov: int)
    ensures Format("%s" + ("_" + ("%03d" + ".json")), [Str(n.Root()), Int(fov)]) == Some(n.JsonFilename(fov))
  {
    var rest := [Text(".json")];
    assert rest[1..] == [];
    assert Render(rest) == ".json" && PlainTexts(rest) && Fill(rest, []) == Some(".json");
    PrefixPieces(rest, n.Root(), fov, []);
    var ps := [StrConv] + ([Text("_")] + ([Pad3Conv] + rest));
    assert Fill(ps, [Str(n.Root()), Int(fov)] + []) == Some((n.Root() + ("_" + PadInt(fov, 3))) + ".json");
    assert [Str(n.Root()), Int(fov)] + [] == [Str(n.Root()), Int(fov)];
    FormatRendered(ps, [Str(n.Root()), Int(fov)]);
    assert Render(ps) == "%s" + ("_" + ("%03d" + Render(rest)));
    assert n.Root() + ("_" + PadInt(fov, 3)) == n.FovPrefix(fov);
  }

  /** getCompanionFilename: String.format("%s_%03d.companion.ome", root, fov). */
  lemma CompanionFilenameIsFormatted(n: Scheme, fov: int)
    ensures Format("%s" + ("_" + ("%03d" + ".companion.ome")), [Str(n.Root()), Int(fov)]) == Some(n.CompanionFilename(fov))
  {
    var rest := [Text(".companion.ome")];
    assert rest[1..] == [];
    assert Render(rest) == ".companion.ome" && PlainTexts(rest) && Fill(rest, []) == Some(".companion.ome");
    PrefixPieces(rest, n.Root(), fov, []);
    var ps := [StrConv] + ([Text("_")] + ([Pad3Conv] + rest));
    assert Fill(ps, [Str(n.Root()), Int(fov)] + []) == Some((n.Root() + ("_" + PadInt(fov, 3))) + ".companion.ome");
    assert [Str(n.Root()), Int(fov)] + [] == [Str(n.Root()), Int(fov)];
    FormatRendered(ps, [Str(n.Root()), Int(fov)]);
    assert Render(ps) == "%s" + ("_" + ("%03d" + Render(rest)));
    assert n.Root() + ("_" + PadInt(fov, 3)) == n.FovPrefix(fov);
  }

  /** The pieces of "_Z%d_T%d_C%d.ome.tiff". */
  const TileFieldPieces: seq<Piece> :=
    [Text("_Z"), IntConv, Text("_T"), IntConv, Text("_C"), IntConv, Text(".ome.tiff")]

  /** The pieces of "_Z%%z_T%%t_C%%c.ome.tiff". */
  const PatternFieldPieces: seq<Piece> :=
    [Text("_Z"), Percent, Text("z_T"), Percent, Text("t_C"), Percent, Text("c.ome.tiff")]

  /** The tile fields and the extension, grouped from the right. */
  lemma TileFieldsNested(z: int, t: int, c: int)
    ensures TileFields(z, t, c) + ".ome.tiff"
         == "_Z" + (IntToString(z) + ("_T" + (IntToString(t) + ("_C" + (IntToString(c) + ".ome.tiff")))))
  {
    var zs, ts, cs := IntToString(z), IntToString(t), IntToString(c);
    assert TileFields(z, t, c) + ".ome.tiff" == "_Z" + (zs + ("_T" + (ts + ("_C" + (cs + ".ome.tiff")))));
  }

  /** The tile fields are what "_Z%d_T%d_C%d.ome.tiff" prints for z, t and c. */
  lemma TileFieldPiecesFill(z: int, t: int, c: int)
    ensures PlainTexts(TileFieldPieces)
    ensures Render(TileFieldPieces) == "_Z" + ("%d" + ("_T" + ("%d" + ("_C" + ("%d" + ".ome.tiff")))))
    ensures Fill(TileFieldPieces, [Int(z), Int(t), Int(c)]) == Some(TileFields(z, t, c) + ".ome.tiff")
  {
    var zs, ts, cs := IntToString(z), IntToString(t), IntToString(c);
    var p7 := [Text(".ome.tiff")];
    assert p7[1..] == [];
    assert Render(p7) == ".ome.tiff" && PlainTexts(p7) && Fill(p7, []) == Some(".ome.tiff");
    var p6 := [IntConv] + p7;
    PiecesCons(IntConv, p7);
    var p5 := [Text("_C")] + p6;
    PiecesCons(Text("_C"), p6);
    var p4 := [IntConv] + p5;
    PiecesCons(IntConv, p5);
    var p3 := [Text("_T")] + p4;
    PiecesCons(Text("_T"), p4);
    var p2 := [IntConv] + p3;
    PiecesCons(IntConv, p3);
    var p1 := [Text("_Z")] + p2;
    PiecesCons(Text("_Z"), p2);
    assert p1 == TileFieldPieces;
    var args := [Int(z), Int(t), Int(c)];
    assert args[1..] == [Int(t), Int(c)] && args[1..][1..] == [Int(c)] && args[1..][1..][1..] == [];
    assert Fill(p6, [Int(c)]) == Some(cs + ".ome.tiff");
    assert Fill(p5, [Int(c)]) == Some("_C" + (cs + ".ome.tiff"));
    assert Fill(p4, [Int(t), Int(c)]) == Some(ts + ("_C" + (cs + ".ome.tiff")));
    assert Fill(p3, [Int(t), Int(c)]) == Some("_T" + (ts + ("_C" + (cs + ".ome.tiff"))));
    assert Fill(p2, args) == Some(zs + ("_T" + (ts + ("_C" + (cs + ".ome.tiff")))));
    assert Fill(p1, args) == Some("_Z" + (zs + ("_T" + (ts + ("_C" + (cs + ".ome.tiff"))))));
    TileFieldsNested(z, t, c);
  }

  /** The text the tile pattern's pieces print, written out. */
  lemma PatternTextIsLiteral()
    ensures "_Z" + ("%" + ("z_T" + ("%" + ("t_C" + ("%" + "c.ome.tiff"))))) == "_Z%z_T%t_C%c.ome.tiff"
  {
    var x := ".ome.tiff";
    assert "c.ome.tiff" == "c" + x;
    assert "%" + ("c" + x) == "%c" + x;
    var y := "%c" + x;
    assert "t_C" + y == "t" + ("_C" + y);
    assert "%" + ("t" + ("_C" + y)) == "%t" + ("_C" + y);
    var w := "%t" + ("_C" + y);
    assert "z_T" + w == "z" + ("_T" + w);
    assert "%" + ("z" + ("_T" + w)) == "%z" + ("_T" + w);
    PatternLiteralSplit();
  }

  /** The text of the tile pattern, cut at its placeholders. */
  lemma PatternLiteralSplit()
    ensures "_Z%z_T%t_C%c.ome.tiff" == "_Z" + ("%z" + ("_T" + ("%t" + ("_C" + ("%c" + ".ome.tiff")))))
  {
    assert "_Z%z_T%t_C%c.ome.tiff" == "_Z" + ("%z" + ("_T" + ("%t" + ("_C" + ("%c" + ".ome.tiff")))));
  }

  /** "_Z%%z_T%%t_C%%c.ome.tiff" prints "_Z%z_T%t_C%c.ome.tiff" and takes no argument. */
  lemma PatternFieldPiecesFill()
    ensures PlainTexts(PatternFieldPieces)
    ensures Render(PatternFieldPieces) == "_Z" + ("%%" + ("z_T" + ("%%" + ("t_C" + ("%%" + "c.ome.tiff")))))
    ensures Fill(PatternFieldPieces, []) == Some("_Z%z_T%t_C%c.ome.tiff")
  {
    var p7 := [Text("c.ome.tiff")];
    assert p7[1..] == [];
    assert Render(p7) == "c.ome.tiff" && PlainTexts(p7) && Fill(p7, []) == Some("c.ome.tiff");
    var p6 := [Percent] + p7;
    PiecesCons(Percent, p7);
    var p5 := [Text("t_C")] + p6;
    PiecesCons(Text("t_C"), p6);
    var p4 := [Percent] + p5;
    PiecesCons(Percent, p5);
    var p3 := [Text("z_T")] + p4;
    PiecesCons(Text("z_T"), p4);
    var p2 := [Percent] + p3;
    PiecesCons(Percent, p3);
    var p1 := [Text("_Z")] + p2;
    PiecesCons(Text("_Z"), p2);
    assert p1 == PatternFieldPieces;
    assert Fill(p6, []) == Some("%" + "c.ome.tiff");
    assert Fill(p5, []) == Some("t_C" + ("%" + "c.ome.tiff"));
    assert Fill(p4, []) == Some("%" + ("t_C" + ("%" + "c.ome.tiff")));
    assert Fill(p3, []) == Some("z_T" + ("%" + ("t_C" + ("%" + "c.ome.tiff"))));
    assert Fill(p2, []) == Some("%" + ("z_T" + ("%" + ("t_C" + ("%" + "c.ome.tiff")))));
    assert Fill(p1, []) == Some("_Z" + ("%" + ("z_T" + ("%" + ("t_C" + ("%" + "c.ome.tiff"))))));
    PatternTextIsLiteral();
  }

  /** getTiffFilename: String.format("%s_%03d_Z%d_T%d_C%d.ome.tiff", root, fov, z, t, c). */
  lemma TiffFilenameIsFormatted(n: Scheme, fov: int, z: int, t: int, c: int)
    ensures Format("%s" + ("_" + ("%03d" + ("_Z" + ("%d" + ("_T" + ("%d" + ("_C" + ("%d" + ".ome.tiff")))))))),
                   [Str(n.Root()), Int(fov), Int(z), Int(t), Int(c)])
         == Some(n.TiffFilename(fov, z, t, c))
  {
    TileFieldPiecesFill(z, t, c);
    PrefixPieces(TileFieldPieces, n.Root(), fov, [Int(z), Int(t), Int(c)]);
    var ps := [StrConv] + ([Text("_")] + ([Pad3Conv] + TileFieldPieces));
    var args := [Str(n.Root()), Int(fov), Int(z), Int(t), Int(c)];
    assert args == [Str(n.Root()), Int(fov)] + [Int(z), Int(t), Int(c)];
    var template := "%s" + ("_" + ("%03d" + ("_Z" + ("%d" + ("_T" + ("%d" + ("_C" + ("%d" + ".ome.tiff"))))))));
    assert Render(ps) == template;
    FormatRendered(ps, args);
    assert Format(template, args) == Fill(ps, args);
    assert Fill(ps, args) == Some(n.Root() + ("_" + PadInt(fov, 3)) + (TileFields(z, t, c) + ".ome.tiff"));
    assert n.Root() + ("_" + PadInt(fov, 3)) == n.FovPrefix(fov);
    assert n.FovPrefix(fov) + (TileFields(z, t, c) + ".ome.tiff") == n.TiffFilename(fov, z, t, c);
  }

  /** getTiffPattern: String.format("%s_%03d_Z%%z_T%%t_C%%c.ome.tiff", root, fov); each %% prints one '%'. */
  lemma TiffPatternIsFormatted(n: Scheme, fov: int)
    ensures Format("%s" + ("_" + ("%03d" + ("_Z" + ("%%" + ("z_T" + ("%%" + ("t_C" + ("%%" + "c.ome.tiff")))))))),
                   [Str(n.Root()), Int(fov)])
         == Some(n.TiffPattern(fov))
  {
    PatternFieldPiecesFill();
    PrefixPieces(PatternFieldPieces, n.Root(), fov, []);
    var ps := [StrConv] + ([Text("_")] + ([Pad3Conv] + PatternFieldPieces));
    var args := [Str(n.Root()), Int(fov)];
    assert args == args + [];
    FormatRendered(ps, args);
    assert n.Root() + ("_" + PadInt(fov, 3)) == n.FovPrefix(fov);
  }

  // ---------------------------------------------------------------------------
  // The tile pattern

  /**
   * The meaning of the placeholders of a tile pattern: each "%z", "%t" and
   * "%c" stands for that index in decimal; every other character stays.
   */
  function Instantiate(pattern: string, z: int, t: int, c: int): string
    decreases |pattern|
  {
    if pattern == [] then []
    else if pattern[0] != '%' || |pattern| < 2 || !(pattern[1] == 'z' || pattern[1] == 't' || pattern[1] == 'c') then
      [pattern[0]] + Instantiate(pattern[1..], z, t, c)
    else
      IntToString(if pattern[1] == 'z' then z else if pattern[1] == 't' then t else c) + Instantiate(pattern[2..], z, t, c)
  }

  /** A character other than '%' is copied as it is. */
  lemma InstantiatePlain(s: string, z: int, t: int, c: int)
    requires s != [] && s[0] != '%'
    ensures Instantiate(s, z, t, c) == [s[0]] + Instantiate(s[1..], z, t, c)
  {
  }

  lemma {:induction false} InstantiateLiteral(lit: string, rest: string, z: int, t: int, c: int)
    requires '%' !in lit
    ensures Instantiate(lit + rest, z, t, c) == lit + Instantiate(rest, z, t, c)
    decreases |lit|
  {
    if lit == [] {
      assert lit + rest == rest;
    } else {
      var s := lit + rest;
      assert s[0] == lit[0] && s[1..] == lit[1..] + rest;
      InstantiatePlain(s, z, t, c);
      InstantiateLiteral(lit[1..], rest, z, t, c);
      assert [lit[0]] + (lit[1..] + Instantiate(rest, z, t, c)) == lit + Instantiate(rest, z, t, c);
    }
  }

  lemma InstantiatePlaceholder(ph: string, rest: string, z: int, t: int, c: int)
    requires ph == "%z" || ph == "%t" || ph == "%c"
    ensures Instantiate(ph + rest, z, t, c)
         == (if ph == "%z" then IntToString(z) else if ph == "%t" then IntToString(t) else IntToString(c))
          + Instantiate(rest, z, t, c)
  {
    assert (ph + rest)[0] == '%' && (ph + rest)[1] == ph[1] && (ph + rest)[2..] == rest;
  }

  lemma InstantiateThree(a: string, b: string, d: string, e: string, z: int, t: int, c: int)
    requires '%' !in a && '%' !in b && '%' !in d && '%' !in e
    ensures Instantiate(a + ("%z" + (b + ("%t" + (d + ("%c" + e))))), z, t, c)
         == a + (IntToString(z) + (b + (IntToString(t) + (d + (IntToString(c) + e)))))
  {
    InstantiateLiteral(e, [], z, t, c);
    assert e + [] == e;
    InstantiatePlaceholder("%c", e, z, t, c);
    InstantiateLiteral(d, "%c" + e, z, t, c);
    InstantiatePlaceholder("%t", d + ("%c" + e), z, t, c);
    InstantiateLiteral(b, "%t" + (d + ("%c" + e)), z, t, c);
    InstantiatePlaceholder("%z", b + ("%t" + (d + ("%c" + e))), z, t, c);
    InstantiateLiteral(a, "%z" + (b + ("%t" + (d + ("%c" + e)))), z, t, c);
  }

  /** The text of a pattern around its three placeholders. */
  lemma TiffPatternShape(n: Scheme, fov: int)
    ensures var head := n.FovPrefix(fov) + "_Z";
      && '%' !in head
      && n.TiffPattern(fov) == head + ("%z" + ("_T" + ("%t" + ("_C" + ("%c" + ".ome.tiff")))))
  {
    NumeralHasNoSeparator(PadInt(fov, 3)) by { PadIntRoundTrip(fov, 3); }
    PatternLiteralSplit();
    var rest := "%z" + ("_T" + ("%t" + ("_C" + ("%c" + ".ome.tiff"))));
    assert n.TiffPattern(fov) == n.FovPrefix(fov) + ("_Z" + rest);
    assert n.FovPrefix(fov) + ("_Z" + rest) == (n.FovPrefix(fov) + "_Z") + rest;
  }

  lemma TiffFilenameShape(n: Scheme, fov: int, z: int, t: int, c: int)
    ensures n.TiffFilename(fov, z, t, c)
         == (n.FovPrefix(fov) + "_Z")
          + (IntToString(z) + ("_T" + (IntToString(t) + ("_C" + (IntToString(c) + ".ome.tiff")))))
  {
    TileFieldsNested(z, t, c);
    var rest := IntToString(z) + ("_T" + (IntToString(t) + ("_C" + (IntToString(c) + ".ome.tiff"))));
    assert n.TiffFilename(fov, z, t, c) == n.FovPrefix(fov) + (TileFields(z, t, c) + ".ome.tiff");
    assert n.FovPrefix(fov) + ("_Z" + rest) == (n.FovPrefix(fov) + "_Z") + rest;
  }

  /** Filling the tile pattern of a FOV with (z, t, c) gives that tile's name. */
  lemma TiffPatternInstantiates(n: Scheme, fov: int, z: int, t: int, c: int)
    ensures Instantiate(n.TiffPattern(fov), z, t, c) == n.TiffFilename(fov, z, t, c)
  {
    TiffPatternShape(n, fov);
    TiffFilenameShape(n, fov, z, t, c);
    InstantiateThree(n.FovPrefix(fov) + "_Z", "_T", "_C", ".ome.tiff", z, t, c);
  }
}
