/** The stages put together: load, group, display. */
module Pipeline {
  import opened Wrappers
  import opened Document
  import opened Types
  import opened Summary
  import opened Loader
  import opened Ordering
  import opened Grouping
  import opened Card

  /** A dispatched project without a fetch route gets a record that shows zeros. */
  lemma IneligibleProjectShowsZeros(config: ProjectInfo, env: Env)
    requires Dispatched(config) && !Eligible(config)
    ensures Build(config, env) == Step(Built(ProjectCoverage(config, None, None)), [])
    ensures ShownMetrics(Build(config, env).outcome.record.coverage) == Shown(0.0, 0.0, 0.0, 0.0)
  {
  }

  /** A summary without `total` yields all fields unset, which the card shows as zeros. */
  lemma SummaryWithoutTotalShowsZeros(data: Json)
    requires !(data.JObject? && "total" in data.members)
    ensures ShownMetrics(Some(ExtractMetrics(data))) == Shown(0.0, 0.0, 0.0, 0.0)
  {
  }

  const Frontend := ProjectInfo(Some("1"), Some("X"), Some("javascript"), Some("react"), "web", "web.json")
  const Backend := ProjectInfo(Some("2"), Some("X"), Some("java"), Some("spring"), "api", "api.xml")

  function FrontendSummary(): Json {
    JObject(map["total" := JObject(map["lines" := JObject(map["pct" := JNumber(92.5)])])])
  }

  /** Both reports answer; the JaCoCo parser reads 90% line coverage from the XML. */
  function Answering(backendStatus: int): Env {
    Env(
      link => if link == "web.json" then Response(200, Some(FrontendSummary()), "")
              else if link == "api.xml" then Response(backendStatus, None, "<report/>")
              else NetworkError,
      text => CoverageMetrics(Some(90.0), None, None, None))
  }

  const FrontendRecord := ProjectCoverage(Frontend, Some(CoverageMetrics(Some(92.5), None, None, None)), None)
  const BackendRecord := ProjectCoverage(Backend, Some(CoverageMetrics(Some(90.0), None, None, None)), None)

  lemma FrontendBuilds()
    ensures Build(Frontend, Answering(200)) == Step(Built(FrontendRecord), ["web.json"])
  {
    NoRangeCheck(Lines, 92.5);
  }

  lemma BackendBuilds(status: int)
    ensures IsOk(status) ==> Build(Backend, Answering(status)) == Step(Built(BackendRecord), ["api.xml"])
    ensures !IsOk(status) ==> Build(Backend, Answering(status)).outcome.Thrown?
  {
  }

  /** A React and a Spring project both load, in configuration order, each with
      its own line coverage, after one fetch each. */
  method TwoProjectsLoad()
  {
    var env := Answering(200);
    var configs := [Frontend, Backend];
    FrontendBuilds();
    BackendBuilds(200);
    assert configs[..1] == [Frontend] && [Frontend][..0] == [];
    assert Selected([Frontend]) == [Frontend];
    assert Selected(configs) == configs;
    assert Requests([Frontend], env) == ["web.json"];
    assert Requests(configs, env) == ["web.json", "api.xml"];
    var r, fetched := Load(configs, env);
    assert forall k :: 0 <= k < |configs| ==> !Throws(configs[k], env);
    assert r.Loaded?;
    assert r.projects == [FrontendRecord, BackendRecord];
    assert fetched == ["web.json", "api.xml"];
  }

  /** The two records share one group "X", in load order, and both cards are green. */
  method TwoProjectsOneParent()
  {
    var projects := [FrontendRecord, BackendRecord];
    var grouped, parentNames := GroupByParent(projects);
    assert projects[..1] == [FrontendRecord] && [FrontendRecord][..0] == [];
    assert Labels([FrontendRecord]) == {"X"};
    assert Labels(projects) == {"X"};
    assert Members([FrontendRecord], "X") == [FrontendRecord];
    assert grouped["X"] == projects;
    StrictlySortedSingleton(parentNames, "X");
    assert CardColor(FrontendRecord.coverage) == Green && CardColor(BackendRecord.coverage) == Green;
  }

  /** When the Spring report answers 500 the whole run fails: no record is kept,
      not even the React project's. */
  method FailedBackendLosesEverything()
  {
    var env := Answering(500);
    BackendBuilds(500);
    assert Throws(Backend, env);
    var r, fetched := Load([Frontend, Backend], env);
    assert r == LoadFailed(LoadFailureMessage);
  }
}
