/** The report builders of prac6shablon/src/Main.java: a plain-text and an
    HTML builder fill the same `Report`, the `ReportCreator` drives either one
    through a fixed sequence of calls, and `Report.toString` lays the report
    out line by line. Fields never set stay null. */
module ReportBuilder {
  import opened Wrappers
  import Seqs
  import Strings

  datatype ReportFormat = ReportFormat(background: string, text: string, font: int)

  /** `None` is a field still null. */
  datatype Report = Report(title: Option<string>, body: Option<string>, end: Option<string>,
                           sections: seq<string>, format: Option<ReportFormat>)

  /** What `new Report()` holds: no fields set and an empty section list. */
  const EmptyReport := Report(None, None, None, [], None)

  datatype Markup = PlainText | Html

  /** A builder is its markup and the report it is filling. */
  datatype Builder = Builder(markup: Markup, report: Report)

  function NewBuilder(m: Markup): (b: Builder)
    ensures b.markup == m && b.report == EmptyReport
  {
    Builder(m, EmptyReport)
  }

  /** The plain builder stores text verbatim; the HTML one wraps it in the
      given tags. */
  function Wrap(m: Markup, open: string, close: string, s: string): string
  {
    match m
    case PlainText => s
    case Html => open + s + close
  }

  /** Either way the argument sits intact inside what is stored, after the
      opening tag if there is one and before the closing one. */
  lemma WrapHoldsArgument(m: Markup, open: string, close: string, s: string)
    ensures var r := Wrap(m, open, close, s);
      var k := TagWidth(m, open);
      && |r| == k + |s| + TagWidth(m, close) && r[k..k + |s|] == s
      && (m == Html ==> r[..|open|] == open && r[|open| + |s|..] == close)
  {
  }

  /** How many characters a tag adds under a markup. */
  function TagWidth(m: Markup, tag: string): nat
  {
    if m == Html then |tag| else 0
  }

  /** Reads back the argument of a stored field by cutting the tags off. */
  function Unwrap(m: Markup, open: string, close: string, r: string): string
  {
    var k := TagWidth(m, open);
    if k + TagWidth(m, close) <= |r| then r[k..|r| - TagWidth(m, close)] else r
  }

  /** What a builder stores gives back exactly the text it was handed. */
  lemma UnwrapWrap(m: Markup, open: string, close: string, s: string)
    ensures Unwrap(m, open, close, Wrap(m, open, close, s)) == s
  {
    WrapHoldsArgument(m, open, close, s);
  }

  function TitleText(m: Markup, title: string): string { Wrap(m, "<h1>", "</h1>", title) }

  function BodyText(m: Markup, body: string): string { Wrap(m, "<p>", "</p>", body) }

  function EndText(m: Markup, end: string): string { Wrap(m, "<footer>", "</footer>", end) }

  /** `Report.addSection` joins the (possibly wrapped) title and body with
      ": ". */
  function SectionText(m: Markup, sectionTitle: string, sectionBody: string): string
  {
    Wrap(m, "<h2>", "</h2>", sectionTitle) + ": " + Wrap(m, "<p>", "</p>", sectionBody)
  }

  /** One builder call. */
  datatype Step =
    | SetTitle(title: string)
    | SetBody(body: string)
    | SetEnd(end: string)
    | AddSection(sectionTitle: string, sectionBody: string)
    | ApplyStyle(format: ReportFormat)

  /** The effect of one call on the builder's report. */
  function Apply(b: Builder, step: Step): (r: Builder)
    ensures r.markup == b.markup
  {
    var rep := b.report;
    match step
    case SetTitle(t) => b.(report := rep.(title := Some(TitleText(b.markup, t))))
    case SetBody(t) => b.(report := rep.(body := Some(BodyText(b.markup, t))))
    case SetEnd(t) => b.(report := rep.(end := Some(EndText(b.markup, t))))
    case AddSection(t, s) => b.(report := rep.(sections := rep.sections + [SectionText(b.markup, t, s)]))
    case ApplyStyle(f) => b.(report := rep.(format := Some(f)))
  }

  /** A chain of calls, made first to last. */
  function Run(b: Builder, steps: seq<Step>): (r: Builder)
    ensures r.markup == b.markup
  {
    if |steps| == 0 then b else Apply(Run(b, steps[..|steps| - 1]), steps[|steps| - 1])
  }

  // Reference view of a chain of calls: what each field ends up holding.

  /** The argument of the last `setTitle` in the chain. */
  function LastTitle(steps: seq<Step>): Option<string>
  {
    if |steps| == 0 then None
    else if steps[|steps| - 1].SetTitle? then Some(steps[|steps| - 1].title)
    else LastTitle(steps[..|steps| - 1])
  }

  function LastBody(steps: seq<Step>): Option<string>
  {
    if |steps| == 0 then None
    else if steps[|steps| - 1].SetBody? then Some(steps[|steps| - 1].body)
    else LastBody(steps[..|steps| - 1])
  }

  function LastEnd(steps: seq<Step>): Option<string>
  {
    if |steps| == 0 then None
    else if steps[|steps| - 1].SetEnd? then Some(steps[|steps| - 1].end)
    else LastEnd(steps[..|steps| - 1])
  }

  function LastFormat(steps: seq<Step>): Option<ReportFormat>
  {
    if |steps| == 0 then None
    else if steps[|steps| - 1].ApplyStyle? then Some(steps[|steps| - 1].format)
    else LastFormat(steps[..|steps| - 1])
  }

  /** The texts of the `addSection` calls of the chain, in call order. */
  function SectionsOf(m: Markup, steps: seq<Step>): seq<string>
  {
    if |steps| == 0 then []
    else
      var last := steps[|steps| - 1];
      SectionsOf(m, steps[..|steps| - 1])
      + (if last.AddSection? then [SectionText(m, last.sectionTitle, last.sectionBody)] else [])
  }

  function MapOption(o: Option<string>, f: string -> string): Option<string>
  {
    match o
    case None => None
    case Some(s) => Some(f(s))
  }

  /** Whatever the order of calls on a fresh builder, each field holds its
      last setter's argument (wrapped by the HTML builder, verbatim
      otherwise), unset fields stay null, and the sections are those of the
      `addSection` calls in call order. */
  lemma {:induction false} RunFromNew(m: Markup, steps: seq<Step>)
    ensures Run(NewBuilder(m), steps).report ==
              Report(MapOption(LastTitle(steps), t => TitleText(m, t)),
                     MapOption(LastBody(steps), t => BodyText(m, t)),
                     MapOption(LastEnd(steps), t => EndText(m, t)),
                     SectionsOf(m, steps),
                     LastFormat(steps))
  {
    if |steps| > 0 {
      RunFromNew(m, steps[..|steps| - 1]);
    }
  }

  /** `ReportCreator.buildReport`. */
  function CreatorSteps(format: ReportFormat): seq<Step>
  {
    StepsInCreatorOrder("Месячный отчет", "Данные за месяц.",
                        "Результаты", "Прирост на 10%", "Расходы", "Сокращение на 3%",
                        "Конец.", format)
  }

  /** The creator's order of calls, for any texts. */
  function StepsInCreatorOrder(title: string, body: string, t1: string, b1: string,
                               t2: string, b2: string, end: string, format: ReportFormat): seq<Step>
  {
    [ SetTitle(title), SetBody(body), AddSection(t1, b1), AddSection(t2, b2), SetEnd(end), ApplyStyle(format) ]
  }

  function BuildReport(b: Builder, format: ReportFormat): Builder
  {
    Run(b, CreatorSteps(format))
  }

  /** The creator's order of calls fills every field once, adds the two
      sections in order and applies the style. */
  lemma CreatorOrderReport(m: Markup, title: string, body: string, t1: string, b1: string,
                           t2: string, b2: string, end: string, format: ReportFormat)
    ensures Run(NewBuilder(m), StepsInCreatorOrder(title, body, t1, b1, t2, b2, end, format)).report ==
              Report(Some(TitleText(m, title)), Some(BodyText(m, body)), Some(EndText(m, end)),
                     [SectionText(m, t1, b1), SectionText(m, t2, b2)], Some(format))
  {
    var steps := StepsInCreatorOrder(title, body, t1, b1, t2, b2, end, format);
    RunFromNew(m, steps);
    var s5, s4, s3, s2, s1 := steps[..5], steps[..4], steps[..3], steps[..2], steps[..1];
    assert s5[..4] == s4 && s4[..3] == s3 && s3[..2] == s2 && s2[..1] == s1 && s1[..0] == [];
    assert LastTitle(s1) == Some(title) && LastBody(s1) == None && LastEnd(s1) == None;
    assert LastFormat(s1) == None && SectionsOf(m, s1) == [];
    assert LastBody(s2) == Some(body) && LastTitle(s2) == LastTitle(s1);
    assert LastEnd(s2) == None && LastFormat(s2) == None && SectionsOf(m, s2) == [];
    assert LastEnd(s3) == None && LastFormat(s3) == None && LastTitle(s3) == LastTitle(s1) && LastBody(s3) == LastBody(s2);
    assert LastEnd(s4) == None && LastFormat(s4) == None && LastTitle(s4) == LastTitle(s1) && LastBody(s4) == LastBody(s2);
    assert LastEnd(s5) == Some(end) && LastFormat(s5) == None && LastTitle(s5) == LastTitle(s1) && LastBody(s5) == LastBody(s2);
    assert SectionsOf(m, s3) == [SectionText(m, t1, b1)];
    assert SectionsOf(m, s5) == SectionsOf(m, s4) == SectionsOf(m, s3) + [SectionText(m, t2, b2)];
  }

  /** On a fresh builder the creator fills every field, the sections being
      "Результаты" then "Расходы", and applies the style. */
  lemma CreatorReport(m: Markup, format: ReportFormat)
    ensures BuildReport(NewBuilder(m), format).report ==
              Report(Some(TitleText(m, "Месячный отчет")),
                     Some(BodyText(m, "Данные за месяц.")),
                     Some(EndText(m, "Конец.")),
                     [SectionText(m, "Результаты", "Прирост на 10%"),
                      SectionText(m, "Расходы", "Сокращение на 3%")],
                     Some(format))
  {
    CreatorOrderReport(m, "Месячный отчет", "Данные за месяц.",
                       "Результаты", "Прирост на 10%", "Расходы", "Сокращение на 3%",
                       "Конец.", format);
  }

  // ---------------------------------------------------------------------
  // Report.toString

  /** String concatenation of a null reference. */
  function NullText(o: Option<string>): string
  {
    match o
    case None => "null"
    case Some(s) => s
  }

  function StyleLine(f: ReportFormat): string
  {
    "Отчет (Стиль: фон " + f.background + ", цвет текста " + f.text
    + ", размер шрифта " + Strings.IntToString(f.font) + ")"
  }

  function SectionLine(section: string): string { "Раздел: " + section }

  /** The lines of the text, in order: style, title, body, one line per
      section, conclusion. */
  function ReportLines(r: Report): (lines: seq<string>)
    requires r.format.Some?
    ensures |lines| == |r.sections| + 4
    ensures lines[0] == StyleLine(r.format.value)
    ensures lines[1] == "Заголовок: " + NullText(r.title)
    ensures lines[2] == "Содержание: " + NullText(r.body)
    ensures forall i | 0 <= i < |r.sections| :: lines[3 + i] == "Раздел: " + r.sections[i]
    ensures lines[|lines| - 1] == "Заключение: " + NullText(r.end)
  {
    [StyleLine(r.format.value), "Заголовок: " + NullText(r.title), "Содержание: " + NullText(r.body)]
    + Seqs.Map(SectionLine, r.sections)
    + ["Заключение: " + NullText(r.end)]
  }

  /** Each line followed by a newline. */
  function Unlines(lines: seq<string>): string
  {
    if |lines| == 0 then "" else lines[0] + "\n" + Unlines(lines[1..])
  }

  lemma {:induction false} UnlinesAppend(a: seq<string>, b: seq<string>)
    ensures Unlines(a + b) == Unlines(a) + Unlines(b)
  {
    if |a| > 0 {
      assert (a + b)[1..] == a[1..] + b;
      UnlinesAppend(a[1..], b);
    } else {
      assert a + b == b;
    }
  }

  datatype ReportError = NullFormat

  lemma UnlinesSnoc(done: seq<string>, line: string)
    ensures Unlines(done + [line]) == Unlines(done) + line + "\n"
  {
    UnlinesAppend(done, [line]);
    assert Unlines([line]) == line + "\n" by {
      assert [line][1..] == [];
    }
  }

  lemma UnlinesThree(a: string, b: string, c: string)
    ensures Unlines([a, b, c]) == a + "\n" + b + "\n" + c + "\n"
  {
    UnlinesSnoc([a, b], c);
    UnlinesSnoc([a], b);
    UnlinesSnoc([], a);
    assert [a, b] == [a] + [b] && [a, b, c] == [a, b] + [c] && [a] == [] + [a];
  }

  /** The lines written after `k` sections, one more section on. */
  lemma SectionsStep(head: seq<string>, sections: seq<string>, k: nat)
    requires k < |sections|
    ensures head + Seqs.Map(SectionLine, sections[..k + 1])
            == head + Seqs.Map(SectionLine, sections[..k]) + [SectionLine(sections[k])]
  {
    assert sections[..k + 1] == sections[..k] + [sections[k]];
    Seqs.MapAppend(SectionLine, sections[..k], [sections[k]]);
  }

  /** `Report.toString` with its `StringBuilder`: fails when no style was
      applied, otherwise yields the report's lines each ended by a newline. */
  method ReportToString(r: Report) returns (res: Result<string, ReportError>)
    ensures res.Failure? <==> r.format.None?
    ensures res.Success? ==> res.value == Unlines(ReportLines(r))
  {
    if r.format.None? {
      return Failure(NullFormat);
    }
    var style, title, body := StyleLine(r.format.value), "Заголовок: " + NullText(r.title), "Содержание: " + NullText(r.body);
    var head := [style, title, body];
    var text := style + "\n" + title + "\n" + body + "\n";
    UnlinesThree(style, title, body);
    assert head + Seqs.Map(SectionLine, r.sections[..0]) == head;
    var k := 0;
    while k < |r.sections|
      invariant 0 <= k <= |r.sections|
      invariant text == Unlines(head + Seqs.Map(SectionLine, r.sections[..k]))
    {
      SectionsStep(head, r.sections, k);
      UnlinesSnoc(head + Seqs.Map(SectionLine, r.sections[..k]), SectionLine(r.sections[k]));
      text := text + SectionLine(r.sections[k]) + "\n";
      k := k + 1;
    }
    assert r.sections[..k] == r.sections;
    var conclusion := "Заключение: " + NullText(r.end);
    UnlinesSnoc(head + Seqs.Map(SectionLine, r.sections), conclusion);
    text := text + conclusion + "\n";
    return Success(text);
  }
}
