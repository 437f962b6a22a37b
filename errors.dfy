/**
 * The closed table of usage errors (the enum Errors): each variant has a
 * fixed process exit code and a message template, and raising one throws a
 * UsageException carrying that code and the formatted message.
 */
module Errors {
  import opened Wrappers
  import opened JavaFormat

  datatype Error =
    | DoesNotExist
    | Usage
    | OutputExists
    | MultipleImages
    | FovIsPositive
    | TooManyPlates
    | TooManyWells
    | SingleScreening
    | PatternFiles
    | NeedAction
    | UnknownFormat
  {
    /** The exit code, rc. */
    function Rc(): int
    {
      match this
      case DoesNotExist => 1
      case Usage => 2
      case OutputExists => 3
      case MultipleImages => 4
      case FovIsPositive => 5
      case TooManyPlates => 6
      case TooManyWells => 7
      case SingleScreening => 8
      case PatternFiles => 9
      case NeedAction => 10
      case UnknownFormat => 11
    }

    /** The message template, msg, written split at its conversions. */
    function Msg(): string
    {
      match this
      case DoesNotExist => "input does not exist (" + "%s" + ")"
      case Usage => "DEFAULT FAILURE CODE"
      case OutputExists => "output location already exists! (" + "%s" + ")"
      case MultipleImages => "%s" + " contains multiple images (count=" + "%d" + "). Please choose one."
      case FovIsPositive => "FOV must be a greater than or equal to 0 (" + "%d" + ")"
      case TooManyPlates => "Too many plates found (count=" + "%d" + ")"
      case TooManyWells => "Too many wells found (count=" + "%d" + ")"
      case SingleScreening => "only a single screening fileset is supported"
      case PatternFiles => "pattern files must end in '.pattern'"
      case NeedAction => "one of --output, --info, --guess required"
      case UnknownFormat => "unknown format: " + "%s"
    }

    /**
     * raise(args): never returns normally. It throws the UsageException of
     * this variant, or, when String.format rejects the arguments, the
     * formatter's own exception.
     */
    function Raise(args: seq<Arg>): (thrown: Thrown)
      ensures thrown.UsageException? <==> Format(Msg(), args).Some?
      ensures thrown.UsageException? ==> thrown.rc == Rc() && Some(thrown.message) == Format(Msg(), args)
      ensures thrown.UsageException? ==> 1 <= thrown.rc <= 11 && FromRc(thrown.rc) == Some(this)
    {
      RcIdentifiesVariant(this);
      match Format(Msg(), args)
      case Some(message) => UsageException(Rc(), message)
      case None => IllegalFormat
    }
  }

  /** What raise throws. */
  datatype Thrown = UsageException(rc: int, message: string) | IllegalFormat

  /** The variants in declaration order, as Errors.values() lists them. */
  const Values: seq<Error> := [DoesNotExist, Usage, OutputExists, MultipleImages, FovIsPositive,
    TooManyPlates, TooManyWells, SingleScreening, PatternFiles, NeedAction, UnknownFormat]

  /** The variant that owns an exit code, if any. */
  function FromRc(rc: int): (e: Option<Error>)
    ensures e.Some? <==> 1 <= rc <= 11
    ensures e.Some? ==> e.value.Rc() == rc
  {
    if 1 <= rc <= 11 then Some(Values[rc - 1]) else None
  }

  /** The code identifies the variant. */
  lemma RcIdentifiesVariant(e: Error)
    ensures FromRc(e.Rc()) == Some(e)
  {
  }

  /** The table lists every variant once, and variant i has code i + 1. */
  lemma ValuesAreNumbered()
    ensures |Values| == 11
    ensures forall e: Error :: e in Values
    ensures forall i :: 0 <= i < |Values| ==> Values[i].Rc() == i + 1
  {
    forall e: Error ensures e in Values {
      RcIdentifiesVariant(e);
    }
  }

  /** Distinct variants have distinct codes. */
  lemma RcInjective(a: Error, b: Error)
    requires a.Rc() == b.Rc()
    ensures a == b
  {
    RcIdentifiesVariant(a);
    RcIdentifiesVariant(b);
  }

  /** usage carries the default failure code 2, and its message takes no arguments. */
  lemma UsageIsDefaultFailure(args: seq<Arg>)
    ensures Usage.Rc() == 2 && FromRc(2) == Some(Usage)
    ensures Usage.Raise(args) == UsageException(2, "DEFAULT FAILURE CODE")
  {
    FormatPlain(Usage.Msg(), args);
  }

  // ---------------------------------------------------------------------------
  // What each template needs

  /** The argument a conversion takes: %s accepts any, %d only an int. */
  datatype Kind = AnyArg | IntArg

  /** The conversions of each template, in order. */
  function Needs(e: Error): seq<Kind>
  {
    match e
    case DoesNotExist => [AnyArg]
    case OutputExists => [AnyArg]
    case MultipleImages => [AnyArg, IntArg]
    case FovIsPositive => [IntArg]
    case TooManyPlates => [IntArg]
    case TooManyWells => [IntArg]
    case UnknownFormat => [AnyArg]
    case _ => []
  }

  /** Enough arguments, each %d given an int; extra arguments are ignored. */
  predicate Conforms(args: seq<Arg>, kinds: seq<Kind>)
  {
    |args| >= |kinds| && forall i :: 0 <= i < |kinds| ==> kinds[i] == IntArg ==> args[i].Int?
  }

  /** DoesNotExist formats the input path with %s. */
  lemma RaiseDoesNotExist(args: seq<Arg>)
    ensures DoesNotExist.Raise(args)
         == if |args| >= 1 then UsageException(1, "input does not exist (" + Show(args[0]) + ")") else IllegalFormat
  {
    var pre, post := "input does not exist (", ")";
    FormatOneString(pre, post, args);
  }

  /** The Usage template holds no conversion. */
  lemma UsageIsPlain()
    ensures '%' !in Usage.Msg()
  {
    var m := "DEFAULT FAILURE CODE";
    assert Usage.Msg() == m;
    assert '%' !in m;
  }

  /** Usage takes no arguments: its message is the template itself. */
  lemma RaiseUsage(args: seq<Arg>)
    ensures Usage.Raise(args) == UsageException(2, "DEFAULT FAILURE CODE")
  {
    UsageIsPlain();
    FormatPlain(Usage.Msg(), args);
  }

  /** OutputExists formats the output path with %s. */
  lemma RaiseOutputExists(args: seq<Arg>)
    ensures OutputExists.Raise(args)
         == if |args| >= 1 then UsageException(3, "output location already exists! (" + Show(args[0]) + ")") else IllegalFormat
  {
    var pre, post := "output location already exists! (", ")";
    FormatOneString(pre, post, args);
  }

  /** MultipleImages formats the input and the series count with %s and %d. */
  lemma RaiseMultipleImages(args: seq<Arg>)
    ensures MultipleImages.Raise(args)
         == if |args| >= 2 && args[1].Int?
            then UsageException(4, Show(args[0]) + " contains multiple images (count=" + IntToString(args[1].i) + "). Please choose one.")
            else IllegalFormat
  {
    var mid, post := " contains multiple images (count=", "). Please choose one.";
    FormatStringThenInt(mid, post, args);
  }

  /** FovIsPositive formats the FOV with %d. */
  lemma RaiseFovIsPositive(args: seq<Arg>)
    ensures FovIsPositive.Raise(args)
         == if |args| >= 1 && args[0].Int? then UsageException(5, "FOV must be a greater than or equal to 0 (" + IntToString(args[0].i) + ")") else IllegalFormat
  {
    var pre, post := "FOV must be a greater than or equal to 0 (", ")";
    FormatOneInt(pre, post, args);
  }

  /** TooManyPlates formats the plate count with %d. */
  lemma RaiseTooManyPlates(args: seq<Arg>)
    ensures TooManyPlates.Raise(args)
         == if |args| >= 1 && args[0].Int? then UsageException(6, "Too many plates found (count=" + IntToString(args[0].i) + ")") else IllegalFormat
  {
    var pre, post := "Too many plates found (count=", ")";
    FormatOneInt(pre, post, args);
  }

  /** TooManyWells formats the well count with %d. */
  lemma RaiseTooManyWells(args: seq<Arg>)
    ensures TooManyWells.Raise(args)
         == if |args| >= 1 && args[0].Int? then UsageException(7, "Too many wells found (count=" + IntToString(args[0].i) + ")") else IllegalFormat
  {
    var pre, post := "Too many wells found (count=", ")";
    FormatOneInt(pre, post, args);
  }

  /** The SingleScreening template holds no conversion. */
  lemma SingleScreeningIsPlain()
    ensures '%' !in SingleScreening.Msg()
  {
    var m := "only a single screening fileset is supported";
    assert SingleScreening.Msg() == m;
    assert '%' !in m;
  }

  /** SingleScreening takes no arguments: its message is the template itself. */
  lemma RaiseSingleScreening(args: seq<Arg>)
    ensures SingleScreening.Raise(args) == UsageException(8, "only a single screening fileset is supported")
  {
    SingleScreeningIsPlain();
    FormatPlain(SingleScreening.Msg(), args);
  }

  /** The PatternFiles template holds no conversion. */
  lemma PatternFilesIsPlain()
    ensures '%' !in PatternFiles.Msg()
  {
    var m := "pattern files must end in '.pattern'";
    assert PatternFiles.Msg() == m;
    assert '%' !in m;
  }

  /** PatternFiles takes no arguments: its message is the template itself. */
  lemma RaisePatternFiles(args: seq<Arg>)
    ensures PatternFiles.Raise(args) == UsageException(9, "pattern files must end in '.pattern'")
  {
    PatternFilesIsPlain();
    FormatPlain(PatternFiles.Msg(), args);
  }

  /** The NeedAction template holds no conversion. */
  lemma NeedActionIsPlain()
    ensures '%' !in NeedAction.Msg()
  {
    var m := "one of --output, --info, --guess required";
    assert NeedAction.Msg() == m;
    assert '%' !in m;
  }

  /** NeedAction takes no arguments: its message is the template itself. */
  lemma RaiseNeedAction(args: seq<Arg>)
    ensures NeedAction.Raise(args) == UsageException(10, "one of --output, --info, --guess required")
  {
    NeedActionIsPlain();
    FormatPlain(NeedAction.Msg(), args);
  }

  /** UnknownFormat formats the format name with %s. */
  lemma RaiseUnknownFormat(args: seq<Arg>)
    ensures UnknownFormat.Raise(args)
         == if |args| >= 1 then UsageException(11, "unknown format: " + Show(args[0])) else IllegalFormat
  {
    var pre, post := "unknown format: ", "";
    assert UnknownFormat.Msg() == pre + "%s" + post;
    FormatOneString(pre, post, args);
    if |args| >= 1 {
      assert pre + Show(args[0]) + post == pre + Show(args[0]);
    }
  }

  /**
   * raise throws the variant's UsageException, with the variant's code,
   * exactly when the arguments fit its template; otherwise the formatter
   * throws. It never returns normally.
   */
  lemma RaiseThrowsUsageException(e: Error, args: seq<Arg>)
    ensures e.Raise(args).UsageException? <==> Conforms(args, Needs(e))
    ensures e.Raise(args).UsageException? ==> e.Raise(args).rc == e.Rc()
  {
    match e
    case DoesNotExist => RaiseDoesNotExist(args);
    case Usage => RaiseUsage(args);
    case OutputExists => RaiseOutputExists(args);
    case MultipleImages => RaiseMultipleImages(args);
    case FovIsPositive => RaiseFovIsPositive(args);
    case TooManyPlates => RaiseTooManyPlates(args);
    case TooManyWells => RaiseTooManyWells(args);
    case SingleScreening => RaiseSingleScreening(args);
    case PatternFiles => RaisePatternFiles(args);
    case NeedAction => RaiseNeedAction(args);
    case UnknownFormat => RaiseUnknownFormat(args);
  }
}
