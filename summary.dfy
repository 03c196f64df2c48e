/** Reading a coverage-summary document: each metric is `data?.total?.<field>?.pct`. */
module Summary {
  import opened Wrappers
  import opened Document
  import opened Types

  /** `v?.key`: the member `key` of an object; undefined for a missing member,
      for `null`, for an undefined `v` and for every value that is not an object. */
  function Member(v: Option<Json>, key: string): Option<Json> {
    match v
    case Some(JObject(members)) => if key in members then Some(members[key]) else None
    case _ => None
  }

  /** `data?.total?.<field>?.pct`, kept when it is a number. */
  function Pct(data: Json, f: MetricName): Option<real> {
    match Member(Member(Member(Some(data), "total"), Key(f)), "pct")
    case Some(JNumber(p)) => Some(p)
    case _ => None
  }

  /** The whole path `total.<field>.pct` exists in `data` and ends in the number `p`. */
  ghost predicate ReportsPct(data: Json, f: MetricName, p: real) {
    && data.JObject? && "total" in data.members
    && data.members["total"].JObject? && Key(f) in data.members["total"].members
    && data.members["total"].members[Key(f)].JObject?
    && "pct" in data.members["total"].members[Key(f)].members
    && data.members["total"].members[Key(f)].members["pct"] == JNumber(p)
  }

  /** The `CoverageMetrics` a JSON summary yields: a field is set to `p` exactly
      when the document reports `p` for it; every missing step leaves it unset. */
  function ExtractMetrics(data: Json): (m: CoverageMetrics)
    ensures forall f: MetricName, p: real {:trigger ReportsPct(data, f, p)} ::
      Metric(m, f) == Some(p) <==> ReportsPct(data, f, p)
    ensures !(data.JObject? && "total" in data.members) ==>
      m == CoverageMetrics(None, None, None, None)
  {
    CoverageMetrics(Pct(data, Lines), Pct(data, Statements), Pct(data, Branches), Pct(data, Functions))
  }

  /** A summary that reports only `f`, with percentage `p`. */
  function SummaryReporting(f: MetricName, p: real): Json {
    JObject(map["total" := JObject(map[Key(f) := JObject(map["pct" := JNumber(p)])])])
  }

  /** No range check: any number, also below 0 or above 100, is taken as it is,
      and the fields the document does not report stay unset rather than 0. */
  lemma NoRangeCheck(f: MetricName, p: real)
    ensures Metric(ExtractMetrics(SummaryReporting(f, p)), f) == Some(p)
    ensures forall g: MetricName :: g != f ==> Metric(ExtractMetrics(SummaryReporting(f, p)), g) == None
  {
    var data := SummaryReporting(f, p);
    assert ReportsPct(data, f, p);
    forall g: MetricName | g != f
      ensures Metric(ExtractMetrics(data), g) == None
    {
      assert Key(g) != Key(f);
    }
  }
}
