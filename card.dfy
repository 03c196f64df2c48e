/** The pure display helpers of src/components/ProjectCoverageCard.tsx. */
module Card {
  import opened Wrappers
  import opened Types

  const Green := "#16a34a"
  const Amber := "#f59e0b"
  const Orange := "#f97316"
  const Red := "#dc2626"

  /** `coverageColor`: the colour band of a percentage. */
  function CoverageColor(pct: real): (c: string)
    ensures c == Green <==> pct >= 90.0
    ensures c == Amber <==> 75.0 <= pct < 90.0
    ensures c == Orange <==> 50.0 <= pct < 75.0
    ensures c == Red <==> pct < 50.0
  {
    if pct >= 90.0 then Green
    else if pct >= 75.0 then Amber
    else if pct >= 50.0 then Orange
    else Red
  }

  /** The bands from worst to best. */
  function Band(c: string): nat {
    if c == Red then 0 else if c == Orange then 1 else if c == Amber then 2 else 3
  }

  /** More coverage never moves a project into a worse band. */
  lemma CoverageColorMonotone(p: real, q: real)
    requires p <= q
    ensures Band(CoverageColor(p)) <= Band(CoverageColor(q))
  {
  }

  /** The four numbers a card shows. */
  datatype Shown = Shown(lines: real, statements: real, branches: real, functions: real)

  function ShownMetric(s: Shown, f: MetricName): real {
    match f
    case Lines => s.lines
    case Statements => s.statements
    case Branches => s.branches
    case Functions => s.functions
  }

  /** `coverage?.<field> ?? 0`: a reported value is shown as it is; an absent
      coverage object or an unset field is shown as 0. */
  function ShownMetrics(coverage: Option<CoverageMetrics>): (s: Shown)
    ensures forall f: MetricName ::
      ShownMetric(s, f) == (if coverage.Some? && Metric(coverage.value, f).Some?
                            then Metric(coverage.value, f).value else 0.0)
  {
    match coverage
    case None => Shown(0.0, 0.0, 0.0, 0.0)
    case Some(m) => Shown(m.lines.GetOr(0.0), m.statements.GetOr(0.0), m.branches.GetOr(0.0), m.functions.GetOr(0.0))
  }

  /** `Math.min(100, Math.max(0, lines))`: the progress bar's value. */
  function ProgressValue(lines: real): (v: real)
    ensures 0.0 <= v <= 100.0
    ensures 0.0 <= lines <= 100.0 ==> v == lines
    ensures lines < 0.0 ==> v == 0.0
    ensures lines > 100.0 ==> v == 100.0
  {
    var atLeastZero := if 0.0 >= lines then 0.0 else lines;
    if 100.0 <= atLeastZero then 100.0 else atLeastZero
  }

  /** The card's colour, taken from the shown line coverage. */
  function CardColor(coverage: Option<CoverageMetrics>): (c: string)
    ensures c == Green <==> coverage.Some? && coverage.value.lines.Some? && coverage.value.lines.value >= 90.0
    ensures coverage.None? ==> c == Red
  {
    CoverageColor(ShownMetrics(coverage).lines)
  }

  /** The card colour depends on line coverage alone; this holds by the
      definition of `CardColor`, which reads nothing else. */
  lemma CardColorOnlyFromLines(a: Option<CoverageMetrics>, b: Option<CoverageMetrics>)
    requires ShownMetrics(a).lines == ShownMetrics(b).lines
    ensures CardColor(a) == CardColor(b)
  {
  }

  /** A card with no line coverage is red and its bar is empty. */
  lemma NoLinesShowsRedAndEmpty(coverage: Option<CoverageMetrics>)
    requires coverage.None? || coverage.value.lines.None?
    ensures CardColor(coverage) == Red
    ensures ProgressValue(ShownMetrics(coverage).lines) == 0.0
  {
    assert ShownMetric(ShownMetrics(coverage), Lines) == 0.0;
  }

  // Language lookup

  /** MUI's chip palette. */
  datatype ChipColor = Primary | Secondary | Success | Warning | Info | Error | Default

  const LanguageChipColor: map<string, ChipColor> := map[
    "react" := Primary, "javascript" := Warning, "typescript" := Info,
    "java" := Secondary, "python" := Success]

  const LanguageAccentColor: map<string, string> := map[
    "react" := "#2563eb", "javascript" := "#1c8bbfff", "typescript" := "#0b79acff",
    "java" := "#5592c0ff", "python" := "#16a34a"]

  const DefaultAccent := "#0f172a"

  predicate IsUpper(c: char) {
    'A' <= c <= 'Z'
  }

  function LowerChar(c: char): char {
    if IsUpper(c) then (c as int + 32) as char else c
  }

  /** `toLowerCase`, on the ASCII letters. */
  function ToLower(s: string): (r: string)
    ensures |r| == |s|
    ensures forall i :: 0 <= i < |s| ==> !IsUpper(r[i])
    ensures forall i :: 0 <= i < |s| ==>
      (IsUpper(s[i]) ==> r[i] as int == s[i] as int + 32) && (!IsUpper(s[i]) ==> r[i] == s[i])
  {
    seq(|s|, i requires 0 <= i < |s| => LowerChar(s[i]))
  }

  /** `(language || '').toLowerCase()`. */
  function LangKey(language: Option<string>): (k: string)
    ensures language.None? ==> k == ""
    ensures language.Some? ==> k == ToLower(language.value)
  {
    ToLower(language.GetOr(""))
  }

  /** `languageChipColor[langKey] || 'default'` (no table value is falsy). */
  function ChipColorFor(language: Option<string>): (c: ChipColor)
    ensures c == Default <==> LangKey(language) !in LanguageChipColor
    ensures LangKey(language) in LanguageChipColor ==> c == LanguageChipColor[LangKey(language)]
  {
    var key := LangKey(language);
    if key in LanguageChipColor then LanguageChipColor[key] else Default
  }

  /** `languageAccentColor[langKey] || '#0f172a'`. */
  function AccentColorFor(language: Option<string>): (a: string)
    ensures a == DefaultAccent <==> LangKey(language) !in LanguageAccentColor
    ensures LangKey(language) in LanguageAccentColor ==> a == LanguageAccentColor[LangKey(language)]
  {
    var key := LangKey(language);
    if key in LanguageAccentColor then LanguageAccentColor[key] else DefaultAccent
  }

  /** Two characters that are the same letter up to ASCII case. */
  predicate SameIgnoringCase(c: char, d: char) {
    c == d || (IsUpper(c) && d as int == c as int + 32) || (IsUpper(d) && c as int == d as int + 32)
  }

  /** Spellings that differ only in letter case get the same chip and accent. */
  lemma LookupIgnoresCase(a: string, b: string)
    requires |a| == |b| && forall i :: 0 <= i < |a| ==> SameIgnoringCase(a[i], b[i])
    ensures ChipColorFor(Some(a)) == ChipColorFor(Some(b))
    ensures AccentColorFor(Some(a)) == AccentColorFor(Some(b))
  {
    assert ToLower(a) == ToLower(b);
  }

  /** An absent language is looked up as the empty key and falls back to the defaults. */
  lemma AbsentLanguageFallsBack()
    ensures LangKey(None) == "" && LangKey(Some("")) == ""
    ensures ChipColorFor(None) == Default && AccentColorFor(None) == DefaultAccent
  {
  }

  /** A key that is not in a table gets that table's fallback. */
  lemma UnknownLanguageFallsBack(language: Option<string>)
    requires LangKey(language) !in LanguageChipColor
    ensures ChipColorFor(language) == Default && AccentColorFor(language) == DefaultAccent
  {
    assert LanguageChipColor.Keys == LanguageAccentColor.Keys;
  }

  lemma MixedCaseExamples()
    ensures ChipColorFor(Some("Java")) == Secondary && AccentColorFor(Some("Java")) == "#5592c0ff"
    ensures ChipColorFor(Some("JavaScript")) == Warning
    ensures ChipColorFor(Some("Cobol")) == Default
  {
    assert ToLower("Java") == "java";
    assert ToLower("JavaScript") == "javascript";
    assert ToLower("Cobol") == "cobol";
  }
}
