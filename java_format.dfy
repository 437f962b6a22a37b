/**
 * The part of java.util.Formatter (String.format) that the file-name and
 * error-message templates of the system use: the conversions %%, %s, %d and
 * %0Nd (zero padded to a one-digit width N), with decimal digits printed as
 * ASCII. A template outside this subset, a missing argument or a %d given a
 * string yields None, standing for the IllegalFormatException Java throws.
 */
module JavaFormat {
  import opened Wrappers

  predicate IsDigit(ch: char) { '0' <= ch <= '9' }

  predicate AllDigits(s: string) { forall i :: 0 <= i < |s| ==> IsDigit(s[i]) }

  /** A decimal numeral as Java prints an int: digits, optionally after one '-'. */
  predicate IsNumeral(s: string)
  {
    || (|s| >= 1 && AllDigits(s))
    || (|s| >= 2 && s[0] == '-' && AllDigits(s[1..]))
  }

  function DigitChar(d: nat): (ch: char)
    requires d < 10
    ensures IsDigit(ch) && ch as int - '0' as int == d
  {
    ('0' as int + d) as char
  }

  /** Integer.toString of a non-negative value. */
  function NatToString(n: nat): (s: string)
    ensures |s| >= 1 && AllDigits(s)
    decreases n
  {
    if n < 10 then [DigitChar(n)] else NatToString(n / 10) + [DigitChar(n % 10)]
  }

  /** The value of a string of decimal digits (leading zeros allowed). */
  function DigitsValue(s: string): nat
    requires AllDigits(s)
  {
    if s == [] then 0 else DigitsValue(s[..|s| - 1]) * 10 + (s[|s| - 1] as int - '0' as int)
  }

  /** Integer.parseInt restricted to numerals. */
  function ParseInt(s: string): int
    requires IsNumeral(s)
  {
    if s[0] == '-' then 0 - DigitsValue(s[1..]) else DigitsValue(s)
  }

  function Zeros(k: nat): (s: string)
    ensures |s| == k && AllDigits(s)
    ensures forall i :: 0 <= i < k ==> s[i] == '0'
  {
    seq(k, _ => '0')
  }

  /** Left-pads a string of digits with '0' up to the given width. */
  function ZeroPad(s: string, width: nat): (r: string)
    ensures |r| == if |s| < width then width else |s|
  {
    if |s| < width then Zeros(width - |s|) + s else s
  }

  /** What %d prints: Integer.toString. */
  function IntToString(n: int): string
  {
    if n < 0 then "-" + NatToString(-n) else NatToString(n)
  }

  /**
   * What %0<width>d prints. The sign counts toward the width, so
   * String.format("%03d", -1) is "-01".
   */
  function PadInt(n: int, width: nat): string
  {
    if n < 0 then "-" + ZeroPad(NatToString(-n), if width > 0 then width - 1 else 0)
    else ZeroPad(NatToString(n), width)
  }

  /** A format argument: a String (or File, printed by its path) or an int. */
  datatype Arg = Str(s: string) | Int(i: int)

  /** What %s prints for an argument: String.valueOf. */
  function Show(a: Arg): string
  {
    match a
    case Str(s) => s
    case Int(i) => IntToString(i)
  }

  function Prepend(p: string, r: Option<string>): Option<string>
  {
    match r
    case None => None
    case Some(s) => Some(p + s)
  }

  /** String.format(fmt, args...) for the supported conversions. */
  function Format(fmt: string, args: seq<Arg>): Option<string>
    decreases |fmt|
  {
    if fmt == [] then Some([])
    else if fmt[0] != '%' then Prepend([fmt[0]], Format(fmt[1..], args))
    else if |fmt| < 2 then None
    else if fmt[1] == '%' then Prepend("%", Format(fmt[2..], args))
    else if fmt[1] == 's' then
      if args == [] then None else Prepend(Show(args[0]), Format(fmt[2..], args[1..]))
    else if fmt[1] == 'd' then
      if args == [] || !args[0].Int? then None
      else Prepend(IntToString(args[0].i), Format(fmt[2..], args[1..]))
    else if |fmt| >= 4 && fmt[1] == '0' && '1' <= fmt[2] <= '9' && fmt[3] == 'd' then
      if args == [] || !args[0].Int? then None
      else Prepend(PadInt(args[0].i, fmt[2] as int - '0' as int), Format(fmt[4..], args[1..]))
    else None
  }

  // ---------------------------------------------------------------------------
  // Printing and parsing numbers are inverse

  lemma {:induction false} NatToStringRoundTrip(n: nat)
    ensures DigitsValue(NatToString(n)) == n
    decreases n
  {
    if n >= 10 {
      NatToStringRoundTrip(n / 10);
      var s := NatToString(n);
      assert s[..|s| - 1] == NatToString(n / 10);
    }
  }

  lemma {:induction false} LeadingZerosIgnored(k: nat, s: string)
    requires AllDigits(s)
    ensures AllDigits(Zeros(k) + s) && DigitsValue(Zeros(k) + s) == DigitsValue(s)
    decreases |s|, k
  {
    var z := Zeros(k) + s;
    if s == [] {
      assert z == Zeros(k);
      if k > 0 {
        assert z[..|z| - 1] == Zeros(k - 1);
        LeadingZerosIgnored(k - 1, []);
        assert Zeros(k - 1) + [] == Zeros(k - 1);
      }
    } else {
      assert z[..|z| - 1] == Zeros(k) + s[..|s| - 1];
      LeadingZerosIgnored(k, s[..|s| - 1]);
    }
  }

  lemma ZeroPadValue(s: string, width: nat)
    requires AllDigits(s)
    ensures AllDigits(ZeroPad(s, width)) && DigitsValue(ZeroPad(s, width)) == DigitsValue(s)
  {
    if |s| < width { LeadingZerosIgnored(width - |s|, s); }
  }

  /** Every padded decimal Java prints parses back to the same int. */
  lemma PadIntRoundTrip(n: int, width: nat)
    ensures IsNumeral(PadInt(n, width)) && ParseInt(PadInt(n, width)) == n
  {
    if n < 0 {
      var w := if width > 0 then width - 1 else 0;
      var d := ZeroPad(NatToString(-n), w);
      NatToStringRoundTrip(-n);
      ZeroPadValue(NatToString(-n), w);
      assert PadInt(n, width) == "-" + d;
      assert ("-" + d)[0] == '-' && ("-" + d)[1..] == d && |d| >= 1;
    } else {
      var d := ZeroPad(NatToString(n), width);
      NatToStringRoundTrip(n);
      ZeroPadValue(NatToString(n), width);
      assert PadInt(n, width) == d;
      assert |d| >= 1 && IsDigit(d[0]);
    }
  }

  /** %d is %0Nd with no width. */
  lemma IntToStringIsUnpadded(n: int)
    ensures IntToString(n) == PadInt(n, 0)
  {
  }

  lemma IntToStringRoundTrip(n: int)
    ensures IsNumeral(IntToString(n)) && ParseInt(IntToString(n)) == n
  {
    IntToStringIsUnpadded(n);
    PadIntRoundTrip(n, 0);
  }

  /** A numeral holds only digits and '-'. */
  lemma NumeralChars(s: string)
    requires IsNumeral(s)
    ensures forall i :: 0 <= i < |s| ==> IsDigit(s[i]) || s[i] == '-'
  {
    if !AllDigits(s) {
      forall i | 1 <= i < |s| ensures IsDigit(s[i]) { assert s[1..][i - 1] == s[i]; }
    }
  }

  lemma NatToStringBelow1000(n: nat)
    requires n < 1000
    ensures |NatToString(n)| <= 3
  {
    if n >= 10 {
      if n >= 100 { assert |NatToString(n / 10 / 10)| == 1; }
    }
  }

  /** For 0 <= n <= 999, %03d prints exactly three digits. */
  lemma Pad3Width(n: int)
    requires 0 <= n <= 999
    ensures |PadInt(n, 3)| == 3 && AllDigits(PadInt(n, 3)) && DigitsValue(PadInt(n, 3)) == n
  {
    NatToStringBelow1000(n);
    NatToStringRoundTrip(n);
    ZeroPadValue(NatToString(n), 3);
  }

  // ---------------------------------------------------------------------------
  // Evaluating templates one piece at a time

  lemma PrependEmpty(r: Option<string>)
    ensures Prepend("", r) == r
  {
    match r
    case None =>
    case Some(s) => assert "" + s == s;
  }

  lemma PrependTwice(a: string, b: string, r: Option<string>)
    ensures Prepend(a, Prepend(b, r)) == Prepend(a + b, r)
  {
    match r
    case None =>
    case Some(s) => assert a + (b + s) == (a + b) + s;
  }

  /** Text without '%' is copied through unchanged. */
  lemma {:induction false} FormatLiteral(lit: string, rest: string, args: seq<Arg>)
    requires '%' !in lit
    ensures Format(lit + rest, args) == Prepend(lit, Format(rest, args))
    decreases |lit|
  {
    if lit == [] {
      assert lit + rest == rest;
      PrependEmpty(Format(rest, args));
    } else {
      var f := lit + rest;
      assert f[0] == lit[0] && f[1..] == lit[1..] + rest;
      FormatLiteral(lit[1..], rest, args);
      PrependTwice([lit[0]], lit[1..], Format(rest, args));
      assert [lit[0]] + lit[1..] == lit;
    }
  }

  lemma FormatPercent(rest: string, args: seq<Arg>)
    ensures Format("%%" + rest, args) == Prepend("%", Format(rest, args))
  {
    assert ("%%" + rest)[2..] == rest;
  }

  lemma FormatStringArg(rest: string, args: seq<Arg>)
    requires |args| > 0
    ensures Format("%s" + rest, args) == Prepend(Show(args[0]), Format(rest, args[1..]))
  {
    assert ("%s" + rest)[2..] == rest;
  }

  lemma FormatIntArg(rest: string, args: seq<Arg>)
    requires |args| > 0 && args[0].Int?
    ensures Format("%d" + rest, args) == Prepend(IntToString(args[0].i), Format(rest, args[1..]))
  {
    assert ("%d" + rest)[2..] == rest;
  }

  lemma FormatPad3Arg(rest: string, args: seq<Arg>)
    requires |args| > 0 && args[0].Int?
    ensures Format("%03d" + rest, args) == Prepend(PadInt(args[0].i, 3), Format(rest, args[1..]))
  {
    assert ("%03d" + rest)[4..] == rest;
  }

  /** A template of plain text succeeds for any arguments. */
  lemma FormatPlain(lit: string, args: seq<Arg>)
    requires '%' !in lit
    ensures Format(lit, args) == Some(lit)
  {
    FormatLiteral(lit, "", args);
    assert lit + "" == lit;
  }

  // ---------------------------------------------------------------------------
  // Templates with at most two conversions

  /** pre%spost: needs one argument of any kind. */
  lemma FormatOneString(pre: string, post: string, args: seq<Arg>)
    requires '%' !in pre && '%' !in post
    ensures Format(pre + "%s" + post, args)
         == if |args| >= 1 then Some(pre + Show(args[0]) + post) else None
  {
    assert pre + "%s" + post == pre + ("%s" + post);
    FormatLiteral(pre, "%s" + post, args);
    if |args| >= 1 {
      FormatStringArg(post, args);
      FormatPlain(post, args[1..]);
      assert pre + (Show(args[0]) + post) == pre + Show(args[0]) + post;
    } else {
      assert ("%s" + post)[0] == '%' && ("%s" + post)[1] == 's';
    }
  }

  /** pre%dpost: needs one int argument. */
  lemma FormatOneInt(pre: string, post: string, args: seq<Arg>)
    requires '%' !in pre && '%' !in post
    ensures Format(pre + "%d" + post, args)
         == if |args| >= 1 && args[0].Int? then Some(pre + IntToString(args[0].i) + post) else None
  {
    assert pre + "%d" + post == pre + ("%d" + post);
    FormatLiteral(pre, "%d" + post, args);
    if |args| >= 1 && args[0].Int? {
      FormatIntArg(post, args);
      FormatPlain(post, args[1..]);
      assert pre + (IntToString(args[0].i) + post) == pre + IntToString(args[0].i) + post;
    } else {
      assert ("%d" + post)[0] == '%' && ("%d" + post)[1] == 'd';
    }
  }

  /** %smid%dpost: needs any argument and then an int. */
  lemma FormatStringThenInt(mid: string, post: string, args: seq<Arg>)
    requires '%' !in mid && '%' !in post
    ensures Format("%s" + mid + "%d" + post, args)
         == if |args| >= 2 && args[1].Int? then Some(Show(args[0]) + mid + IntToString(args[1].i) + post) else None
  {
    TwoConversions(StrConv, mid, IntConv, post, args);
    FillStringThenInt(mid, post, args);
  }

  lemma FillStringThenInt(mid: string, post: string, args: seq<Arg>)
    ensures Fill([StrConv, Text(mid), IntConv, Text(post)], args)
         == if |args| >= 2 && args[1].Int? then Some(Show(args[0]) + mid + IntToString(args[1].i) + post) else None
  {
    var p2 := [IntConv, Text(post)];
    var p1 := [Text(mid)] + p2;
    assert [StrConv, Text(mid), IntConv, Text(post)] == [StrConv] + p1;
    if |args| >= 2 && args[1].Int? {
      var i := IntToString(args[1].i);
      TextLast(post, args[2..]);
      assert Fill(p2, args[1..]) == Some(i + post);
      assert Fill(p1, args[1..]) == Some(mid + (i + post));
      Concat4(Show(args[0]), mid, i, post);
    } else if |args| >= 1 {
      assert Fill(p2, args[1..]) == None;
    }
  }

  /** %smid%spost: needs two arguments of any kind. */
  lemma FormatTwoStrings(mid: string, post: string, args: seq<Arg>)
    requires '%' !in mid && '%' !in post
    ensures Format("%s" + mid + "%s" + post, args)
         == if |args| >= 2 then Some(Show(args[0]) + mid + Show(args[1]) + post) else None
  {
    TwoConversions(StrConv, mid, StrConv, post, args);
    FillTwoStrings(mid, post, args);
  }

  lemma FillTwoStrings(mid: string, post: string, args: seq<Arg>)
    ensures Fill([StrConv, Text(mid), StrConv, Text(post)], args)
         == if |args| >= 2 then Some(Show(args[0]) + mid + Show(args[1]) + post) else None
  {
    var p2 := [StrConv, Text(post)];
    var p1 := [Text(mid)] + p2;
    assert [StrConv, Text(mid), StrConv, Text(post)] == [StrConv] + p1;
    if |args| >= 2 {
      var b := Show(args[1]);
      TextLast(post, args[2..]);
      assert Fill(p2, args[1..]) == Some(b + post);
      assert Fill(p1, args[1..]) == Some(mid + (b + post));
      Concat4(Show(args[0]), mid, b, post);
    } else if |args| >= 1 {
      assert Fill(p2, args[1..]) == None;
    }
  }

  /** A template of two conversions, each followed by plain text, is filled piece by piece. */
  lemma TwoConversions(first: Piece, mid: string, second: Piece, post: string, args: seq<Arg>)
    requires !first.Text? && !second.Text? && '%' !in mid && '%' !in post
    ensures Format(Spell(first) + mid + Spell(second) + post, args) == Fill([first, Text(mid), second, Text(post)], args)
  {
    var p3 := [Text(post)];
    assert p3[1..] == [];
    assert PlainTexts(p3) && Render(p3) == post + "";
    var p2 := [second] + p3;
    PiecesCons(second, p3);
    var p1 := [Text(mid)] + p2;
    PiecesCons(Text(mid), p2);
    var p0 := [first] + p1;
    PiecesCons(first, p1);
    assert p0 == [first, Text(mid), second, Text(post)];
    assert Spell(first) + (mid + (Spell(second) + (post + ""))) == Spell(first) + mid + Spell(second) + post;
    FormatRendered(p0, args);
  }

  lemma Concat4(a: string, b: string, c: string, d: string)
    ensures a + (b + (c + d)) == a + b + c + d
  {
  }

  /** A last piece of text is filled with itself. */
  lemma TextLast(post: string, args: seq<Arg>)
    ensures Fill([Text(post)], args) == Some(post)
  {
    assert [Text(post)][1..] == [];
    assert post + "" == post;
  }

  // ---------------------------------------------------------------------------
  // Templates as pieces

  /** A piece of a template: plain text or one conversion. */
  datatype Piece = Text(s: string) | StrConv | IntConv | Pad3Conv | Percent

  /** How a piece is written in a template. */
  function Spell(p: Piece): string
  {
    match p
    case Text(s) => s
    case StrConv => "%s"
    case IntConv => "%d"
    case Pad3Conv => "%03d"
    case Percent => "%%"
  }

  /** The template a list of pieces spells. */
  function Render(ps: seq<Piece>): string
  {
    if ps == [] then "" else Spell(ps[0]) + Render(ps[1..])
  }

  /** Text pieces hold no '%', so each conversion is a piece of its own. */
  predicate PlainTexts(ps: seq<Piece>)
  {
    forall i :: 0 <= i < |ps| ==> ps[i].Text? ==> '%' !in ps[i].s
  }

  /** The pieces filled in with the arguments, left to right. */
  function Fill(ps: seq<Piece>, args: seq<Arg>): Option<string>
  {
    if ps == [] then Some("")
    else match ps[0]
      case Text(s) => Prepend(s, Fill(ps[1..], args))
      case Percent => Prepend("%", Fill(ps[1..], args))
      case StrConv => if args == [] then None else Prepend(Show(args[0]), Fill(ps[1..], args[1..]))
      case IntConv => if args == [] || !args[0].Int? then None else Prepend(IntToString(args[0].i), Fill(ps[1..], args[1..]))
      case Pad3Conv => if args == [] || !args[0].Int? then None else Prepend(PadInt(args[0].i, 3), Fill(ps[1..], args[1..]))
  }

  /** Putting a piece in front of a list of pieces. */
  lemma PiecesCons(p: Piece, ps: seq<Piece>)
    requires PlainTexts(ps) && (p.Text? ==> '%' !in p.s)
    ensures PlainTexts([p] + ps)
    ensures Render([p] + ps) == Spell(p) + Render(ps)
    ensures ([p] + ps)[0] == p && ([p] + ps)[1..] == ps
  {
    assert ([p] + ps)[1..] == ps;
    forall i | 0 <= i < |ps| + 1 && ([p] + ps)[i].Text? ensures '%' !in ([p] + ps)[i].s {
      if i > 0 {
        assert ([p] + ps)[i] == ps[i - 1];
      }
    }
  }

  /** Formatting a template is filling its pieces one at a time. */
  lemma {:induction false} FormatRendered(ps: seq<Piece>, args: seq<Arg>)
    requires PlainTexts(ps)
    ensures Format(Render(ps), args) == Fill(ps, args)
    decreases |ps|
  {
    if ps != [] {
      var rest := Render(ps[1..]);
      assert PlainTexts(ps[1..]) by {
        forall i | 0 <= i < |ps| - 1 && ps[1..][i].Text? ensures '%' !in ps[1..][i].s {
          assert ps[1..][i] == ps[i + 1];
        }
      }
      match ps[0]
      case Text(t) =>
        FormatLiteral(t, rest, args);
        FormatRendered(ps[1..], args);
      case Percent =>
        FormatPercent(rest, args);
        FormatRendered(ps[1..], args);
      case StrConv =>
        if args == [] {
          assert ("%s" + rest)[1] == 's';
        } else {
          FormatStringArg(rest, args);
          FormatRendered(ps[1..], args[1..]);
        }
      case IntConv =>
        if args == [] || !args[0].Int? {
          assert ("%d" + rest)[1] == 'd';
        } else {
          FormatIntArg(rest, args);
          FormatRendered(ps[1..], args[1..]);
        }
      case Pad3Conv =>
        var f := "%03d" + rest;
        assert f[1] == '0' && f[2] == '3' && f[3] == 'd';
        if args != [] && args[0].Int? {
          FormatPad3Arg(rest, args);
          FormatRendered(ps[1..], args[1..]);
        }
    }
  }

  // ---------------------------------------------------------------------------
  // Paths

  /** A file name inside a directory, as String.format("%s/%s", dir, name) builds it. */
  function Path(dir: string, name: string): string
  {
    dir + "/" + name
  }

  /** The path is what String.format("%s/%s", dir, name) prints. */
  lemma PathIsFormatted(dir: string, name: string)
    ensures Format("%s/%s", [Str(dir), Str(name)]) == Some(Path(dir, name))
  {
    FormatTwoStrings("/", "", [Str(dir), Str(name)]);
    assert "%s" + "/" + "%s" + "" == "%s/%s";
    assert Show(Str(dir)) + "/" + Show(Str(name)) + "" == dir + "/" + name;
  }

  /** A name fixed in the template: String.format("%s/" + name, dir). */
  lemma FixedNameInDirectory(dir: string, name: string)
    requires '%' !in name
    ensures Format("%s/" + name, [Str(dir)]) == Some(Path(dir, name))
  {
    FormatOneString("", "/" + name, [Str(dir)]);
    assert "" + "%s" + ("/" + name) == "%s/" + name;
    assert "" + Show(Str(dir)) + ("/" + name) == dir + "/" + name;
  }

  /** Within one directory, different names give different paths. */
  lemma PathInjective(dir: string, a: string, b: string)
    requires Path(dir, a) == Path(dir, b)
    ensures a == b
  {
    var k := |dir| + 1;
    assert Path(dir, a)[k..] == a;
    assert Path(dir, b)[k..] == b;
  }
}
