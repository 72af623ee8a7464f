/** The report decorators of prac9/prac9p1/src/Main.java. A report is a base
    report wrapped in any number of decorators; generating it yields the base
    report's fixed text followed by each decorator's suffix, innermost
    first. */
module ReportDecorators {

  /** `SalesReport` and `UserReport`. */
  datatype BaseKind = SalesReport | UserReport

  /** The concrete decorators; `Pass` is the plain `ReportDecorator`, which
      only forwards to the report it wraps. */
  datatype Layer =
    | Pass
    | DateFilter(startDate: string, endDate: string)
    | Sorting(sortBy: string)
    | CsvExport
    | PdfExport

  /** An `IReport`: a base report, or a decorator around another report. */
  datatype Report = Base(kind: BaseKind) | Decorated(layer: Layer, inner: Report)

  function BaseText(k: BaseKind): string
  {
    match k
    case SalesReport => "Sales Report: [date, sale amount, customer]"
    case UserReport => "User Report: [user name, registration date, purchases]"
  }

  const DateFilterLabel := " | Filtered by date: "
  const DateRangeLabel := " to "
  const SortingLabel := " | Sorted by: "

  /** What a decorator appends to the output of the report it wraps. */
  function Suffix(l: Layer): string
  {
    match l
    case Pass => ""
    case DateFilter(s, e) => DateFilterLabel + s + DateRangeLabel + e
    case Sorting(key) => SortingLabel + key
    case CsvExport => " | Exported as CSV"
    case PdfExport => " | Exported as PDF"
  }

  /** The base report at the bottom of a chain. */
  function BaseOf(r: Report): BaseKind
  {
    match r
    case Base(k) => k
    case Decorated(_, inner) => BaseOf(inner)
  }

  /** A report rendered from given texts for the base reports and given
      suffixes for the decorators: each `generate()` of the program returns
      its base text, or what the wrapped report returns followed by its own
      suffix. */
  function Render(r: Report, base: BaseKind -> string, suffix: Layer -> string): string
  {
    match r
    case Base(k) => base(k)
    case Decorated(l, inner) => Render(inner, base, suffix) + suffix(l)
  }

  /** `generate()`, with the program's texts. */
  function Generate(r: Report): string
  {
    Render(r, BaseText, Suffix)
  }

  /** A concrete decorator always adds something after what it wraps; the
      plain one adds nothing. */
  lemma WrappedIsPrefix(l: Layer, inner: Report)
    ensures Generate(inner) <= Generate(Decorated(l, inner))
    ensures l != Pass <==> Generate(inner) < Generate(Decorated(l, inner))
  {
    assert Generate(Decorated(l, inner)) == Generate(inner) + Suffix(l);
    if l != Pass {
      assert |Suffix(l)| > 0 by {
        match l
        case DateFilter(_, _) => assert |DateFilterLabel| > 0;
        case Sorting(_) => assert |SortingLabel| > 0;
        case CsvExport => assert Suffix(l)[0] == ' ';
        case PdfExport => assert Suffix(l)[0] == ' ';
      }
    }
  }

  // ---------------------------------------------------------------------
  // Chains as a base report and a list of decorators

  /** The decorators of a chain, innermost first. */
  function Layers(r: Report): (ls: seq<Layer>)
    ensures |ls| == Depth(r)
  {
    match r
    case Base(_) => []
    case Decorated(l, inner) => Layers(inner) + [l]
  }

  function Depth(r: Report): nat
  {
    match r
    case Base(_) => 0
    case Decorated(_, inner) => 1 + Depth(inner)
  }

  /** Builds the chain that wraps base report `k` in `ls`, innermost first,
      as the sample client does with nested constructor calls. */
  function Wrap(k: BaseKind, ls: seq<Layer>): (r: Report)
    ensures BaseOf(r) == k && Depth(r) == |ls|
    decreases |ls|
  {
    if |ls| == 0 then Base(k) else Decorated(ls[|ls| - 1], Wrap(k, ls[..|ls| - 1]))
  }

  /** Every report is the chain of its base and its decorators ... */
  lemma {:induction false} WrapOfLayers(r: Report)
    ensures Wrap(BaseOf(r), Layers(r)) == r
  {
    match r
    case Base(_) =>
    case Decorated(l, inner) =>
      WrapOfLayers(inner);
      assert (Layers(inner) + [l])[..|Layers(inner)|] == Layers(inner);
  }

  /** ... and a chain gives back the decorators it was built from. */
  lemma {:induction false} LayersOfWrap(k: BaseKind, ls: seq<Layer>)
    ensures Layers(Wrap(k, ls)) == ls
    decreases |ls|
  {
    if |ls| > 0 {
      LayersOfWrap(k, ls[..|ls| - 1]);
      assert ls[..|ls| - 1] + [ls[|ls| - 1]] == ls;
    }
  }

  /** The suffixes of a list of decorators, read front to back. */
  function Suffixes(ls: seq<Layer>, suffix: Layer -> string): string
  {
    if |ls| == 0 then "" else suffix(ls[0]) + Suffixes(ls[1..], suffix)
  }

  /** The program's suffixes of a list of decorators. */
  function SuffixText(ls: seq<Layer>): string
  {
    Suffixes(ls, Suffix)
  }

  lemma {:induction false} SuffixesConcat(a: seq<Layer>, b: seq<Layer>, suffix: Layer -> string)
    ensures Suffixes(a + b, suffix) == Suffixes(a, suffix) + Suffixes(b, suffix)
  {
    if |a| == 0 {
      assert a + b == b;
    } else {
      assert (a + b)[1..] == a[1..] + b;
      SuffixesConcat(a[1..], b, suffix);
    }
  }

  /** The layout of a rendered chain: the base text, then each decorator's
      suffix, innermost first. */
  lemma {:induction false} RenderLayout(r: Report, base: BaseKind -> string, suffix: Layer -> string)
    ensures Render(r, base, suffix) == base(BaseOf(r)) + Suffixes(Layers(r), suffix)
  {
    match r
    case Base(_) =>
    case Decorated(l, inner) =>
      RenderLayout(inner, base, suffix);
      SuffixesConcat(Layers(inner), [l], suffix);
      assert Suffixes([l], suffix) == suffix(l);
  }

  /** The layout of the program's reports: the base report's text, then each
      decorator's suffix, innermost first. */
  lemma GenerateLayout(r: Report)
    ensures Generate(r) == BaseText(BaseOf(r)) + SuffixText(Layers(r))
  {
    RenderLayout(r, BaseText, Suffix);
  }

  /** The same layout, for a chain built from a list of decorators. */
  lemma WrapLayout(k: BaseKind, ls: seq<Layer>)
    ensures Generate(Wrap(k, ls)) == BaseText(k) + SuffixText(ls)
  {
    GenerateLayout(Wrap(k, ls));
    LayersOfWrap(k, ls);
  }

  /** The plain decorator forwards unchanged, wherever it sits in a chain. */
  lemma PassIsTransparent(k: BaseKind, a: seq<Layer>, b: seq<Layer>)
    ensures Generate(Wrap(k, a + [Pass] + b)) == Generate(Wrap(k, a + b))
  {
    WrapLayout(k, a + [Pass] + b);
    WrapLayout(k, a + b);
    assert Suffix(Pass) == "";
    SuffixesSkip(a, b, Pass, Suffix);
  }

  /** A decorator with an empty suffix adds nothing to a list's suffixes. */
  lemma SuffixesSkip(a: seq<Layer>, b: seq<Layer>, x: Layer, suffix: Layer -> string)
    requires suffix(x) == ""
    ensures Suffixes(a + [x] + b, suffix) == Suffixes(a + b, suffix)
  {
    SuffixesConcat(a + [x], b, suffix);
    SuffixesConcat(a, [x], suffix);
    SuffixesConcat(a, b, suffix);
    assert Suffixes([x], suffix) == "";
  }

  // ---------------------------------------------------------------------
  // Prefixes and arguments

  /** The reports of a chain, outermost first. */
  function Chain(r: Report): (c: seq<Report>)
    ensures |c| == Depth(r) + 1 && c[0] == r
  {
    match r
    case Base(_) => [r]
    case Decorated(_, inner) => [r] + Chain(inner)
  }

  /** Every report inside a chain generates a prefix of the chain's output. */
  lemma {:induction false} SubReportIsPrefix(r: Report, i: nat)
    requires i < |Chain(r)|
    ensures Generate(Chain(r)[i]) <= Generate(r)
  {
    if i > 0 {
      SubReportIsPrefix(r.inner, i - 1);
    }
  }

  /** A date filter's arguments appear verbatim right after its label. */
  lemma DateFilterArguments(inner: Report, start: string, end: string)
    ensures var s := Generate(Decorated(DateFilter(start, end), inner));
      var k := |Generate(inner)| + |DateFilterLabel|;
      && s[k..k + |start|] == start
      && s[k + |start|..k + |start| + |DateRangeLabel|] == DateRangeLabel
      && s[k + |start| + |DateRangeLabel|..] == end
  {
    DateFilterText(inner, start, end);
    PiecesAt(Generate(Decorated(DateFilter(start, end), inner)), Generate(inner), DateFilterLabel, start, DateRangeLabel, end);
  }

  /** What a date filter generates. */
  lemma DateFilterText(inner: Report, start: string, end: string)
    ensures Generate(Decorated(DateFilter(start, end), inner))
            == Generate(inner) + (DateFilterLabel + start + DateRangeLabel + end)
  {
  }

  /** Where each piece of a five-piece concatenation sits. */
  lemma PiecesAt(s: string, a: string, b: string, c: string, d: string, e: string)
    requires s == a + (b + c + d + e)
    ensures var k := |a| + |b|;
      && s[k..k + |c|] == c
      && s[k + |c|..k + |c| + |d|] == d
      && s[k + |c| + |d|..] == e
  {
  }

  /** A sorting decorator's key appears verbatim right after its label. */
  lemma SortingArgument(inner: Report, key: string)
    ensures var s := Generate(Decorated(Sorting(key), inner));
      var k := |Generate(inner)| + |SortingLabel|;
      s[k..] == key
  {
  }

  /** Wrapping more decorators around a report keeps its arguments where
      they were: a date range filtered deep in a chain still appears at the
      same position of the whole chain's output. */
  lemma DateFilterArgumentsInChain(r: Report, i: nat)
    requires i < |Chain(r)| && Chain(r)[i].Decorated? && Chain(r)[i].layer.DateFilter?
    ensures var sub := Chain(r)[i];
      var k := |Generate(sub.inner)| + |DateFilterLabel|;
      var start := sub.layer.startDate;
      k + |start| <= |Generate(r)| && Generate(r)[k..k + |start|] == start
  {
    var sub := Chain(r)[i];
    SubReportIsPrefix(r, i);
    DateFilterArguments(sub.inner, sub.layer.startDate, sub.layer.endDate);
  }

  // ---------------------------------------------------------------------
  // The sample client

  /** The sales chain of the sample client: date filter, then sorting, then
      CSV export, each suffix in that order after the sales report's text. */
  lemma SampleSalesChain()
    ensures
      var r := Decorated(CsvExport, Decorated(Sorting("date"),
                 Decorated(DateFilter("2023-01-01", "2023-12-31"), Base(SalesReport))));
      && Layers(r) == [DateFilter("2023-01-01", "2023-12-31"), Sorting("date"), CsvExport]
      && Generate(r) == "Sales Report: [date, sale amount, customer]"
           + (" | Filtered by date: " + "2023-01-01" + " to " + "2023-12-31")
           + (" | Sorted by: " + "date")
           + " | Exported as CSV"
  {
    var d := Decorated(DateFilter("2023-01-01", "2023-12-31"), Base(SalesReport));
    assert Layers(d) == [DateFilter("2023-01-01", "2023-12-31")];
  }

  /** The user chain of the sample client: sorting, then PDF export. */
  lemma SampleUserChain()
    ensures
      var r := Decorated(PdfExport, Decorated(Sorting("registration date"), Base(UserReport)));
      Generate(r) == "User Report: [user name, registration date, purchases]"
        + (" | Sorted by: " + "registration date")
        + " | Exported as PDF"
  {
  }
}
