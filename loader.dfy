/** The per-language builders and the load driver of src/App.tsx. */
module Loader {
  import opened Wrappers
  import opened Document
  import opened Types
  import opened Summary

  /** What `fetch(link)` settles to: a rejection, or a response whose body is
      seen both as parsed JSON (`None` when `res.json()` would reject) and as text. */
  datatype FetchOutcome =
    | NetworkError
    | Response(status: int, json: Option<Json>, text: string)

  /** `res.ok`: a status in the range 200 to 299. */
  predicate IsOk(status: int) {
    200 <= status <= 299
  }

  /** The world one run sees: the remote report documents and the JaCoCo
      parser of src/utils/Java, whose definition is not part of this model. */
  datatype Env = Env(fetch: string -> FetchOutcome, parseJacocoXml: string -> CoverageMetrics)

  /** The exceptions a builder throws. */
  datatype LoadError =
    | FetchRejected(link: string)
    | SummaryNotOk(id: Option<string>, status: int)
    | SummaryNotJson(id: Option<string>)
    | JacocoNotOk(id: Option<string>, status: int)

  datatype Outcome = Built(record: ProjectCoverage) | Thrown(error: LoadError)

  /** A builder's outcome and the links it fetched, in order. */
  datatype Step = Step(outcome: Outcome, fetched: seq<string>)

  /** A response with an ok status whose body parses as JSON. */
  predicate DeliversJson(o: FetchOutcome) {
    o.Response? && IsOk(o.status) && o.json.Some?
  }

  /** `getJavascriptCoverageInfo`: only a React project is fetched; its record is
      the config with the metrics of its JSON summary, and a failed fetch throws. */
  function JavascriptCoverageInfo(config: ProjectInfo, env: Env): (s: Step)
    ensures config.framework != Some("react") ==>
      s == Step(Built(ProjectCoverage(config, None, None)), [])
    ensures config.framework == Some("react") ==>
      && s.fetched == [config.coverageReportLink]
      && (s.outcome.Built? <==> DeliversJson(env.fetch(config.coverageReportLink)))
      && (s.outcome.Built? ==>
            s.outcome.record ==
            ProjectCoverage(config, Some(ExtractMetrics(env.fetch(config.coverageReportLink).json.value)), None))
  {
    var result := ProjectCoverage(config, None, None);
    if config.framework == Some("react") then
      var link := config.coverageReportLink;
      match env.fetch(link)
      case NetworkError => Step(Thrown(FetchRejected(link)), [link])
      case Response(status, json, _) =>
        if !IsOk(status) then Step(Thrown(SummaryNotOk(config.id, status)), [link])
        else match json
          case None => Step(Thrown(SummaryNotJson(config.id)), [link])
          case Some(data) => Step(Built(result.(coverage := Some(ExtractMetrics(data)))), [link])
    else
      Step(Built(result), [])
  }

  /** `getJavaCoverageInfo`: only a Spring project is fetched; its record is the
      config with what the JaCoCo parser makes of the body, and a non-ok response throws. */
  function JavaCoverageInfo(config: ProjectInfo, env: Env): (s: Step)
    ensures config.framework != Some("spring") ==>
      s == Step(Built(ProjectCoverage(config, None, None)), [])
    ensures config.framework == Some("spring") ==>
      var o := env.fetch(config.coverageReportLink);
      && s.fetched == [config.coverageReportLink]
      && (s.outcome.Built? <==> o.Response? && IsOk(o.status))
      && (s.outcome.Built? ==>
            s.outcome.record == ProjectCoverage(config, Some(env.parseJacocoXml(o.text)), None))
  {
    var result := ProjectCoverage(config, None, None);
    if config.framework == Some("spring") then
      var link := config.coverageReportLink;
      match env.fetch(link)
      case NetworkError => Step(Thrown(FetchRejected(link)), [link])
      case Response(status, _, text) =>
        if !IsOk(status) then Step(Thrown(JacocoNotOk(config.id, status)), [link])
        else Step(Built(result.(coverage := Some(env.parseJacocoXml(text)))), [link])
    else
      Step(Built(result), [])
  }

  /** The load loop calls a builder for a config exactly when its language is
      `'javascript'` or `'java'`; every other or absent language is skipped. */
  predicate Dispatched(config: ProjectInfo) {
    config.language == Some("javascript") || config.language == Some("java")
  }

  /** The builder the loop calls for a dispatched config. */
  function Build(config: ProjectInfo, env: Env): (s: Step)
    requires Dispatched(config)
    ensures s.outcome.Built? ==> s.outcome.record.projectInfo == config && s.outcome.record.total == None
    ensures s.fetched == (if Eligible(config) then [config.coverageReportLink] else [])
  {
    if config.language == Some("javascript") then JavascriptCoverageInfo(config, env)
    else JavaCoverageInfo(config, env)
  }

  predicate Throws(config: ProjectInfo, env: Env) {
    Dispatched(config) && Build(config, env).outcome.Thrown?
  }

  /** The configs the loop dispatches, in configuration order. */
  function Selected(configs: seq<ProjectInfo>): (r: seq<ProjectInfo>)
    ensures forall c :: c in r ==> Dispatched(c)
    ensures |r| <= |configs|
  {
    if configs == [] then []
    else
      var last := configs[|configs| - 1];
      Selected(configs[..|configs| - 1]) + (if Dispatched(last) then [last] else [])
  }

  /** Every dispatched config of the input is kept, and nothing else. */
  lemma {:induction false} SelectedExactly(configs: seq<ProjectInfo>, c: ProjectInfo)
    ensures c in Selected(configs) <==> c in configs && Dispatched(c)
    decreases |configs|
  {
    if configs != [] {
      var init := configs[..|configs| - 1];
      SelectedExactly(init, c);
      assert configs == init + [configs[|configs| - 1]];
    }
  }

  /** The links the dispatched builders fetch, in order. */
  function Requests(configs: seq<ProjectInfo>, env: Env): seq<string> {
    if configs == [] then []
    else
      var last := configs[|configs| - 1];
      Requests(configs[..|configs| - 1], env) + (if Dispatched(last) then Build(last, env).fetched else [])
  }

  /** The language and framework pairs for which a report is fetched. */
  predicate Eligible(config: ProjectInfo) {
    || (config.language == Some("javascript") && config.framework == Some("react"))
    || (config.language == Some("java") && config.framework == Some("spring"))
  }

  function Links(configs: seq<ProjectInfo>): seq<string> {
    if configs == [] then []
    else
      var last := configs[|configs| - 1];
      Links(configs[..|configs| - 1]) + (if Eligible(last) then [last.coverageReportLink] else [])
  }

  /** Whatever the remote documents hold, the reports fetched are those of the
      eligible configs, one fetch each, in configuration order. */
  lemma {:induction false} RequestsAreEligibleLinks(configs: seq<ProjectInfo>, env: Env)
    ensures Requests(configs, env) == Links(configs)
    decreases |configs|
  {
    if configs != [] {
      RequestsAreEligibleLinks(configs[..|configs| - 1], env);
    }
  }

  const LoadFailureMessage := "Failed to load coverage data"

  /** A run either commits all its records or ends in the error state with none. */
  datatype LoadResult = Loaded(projects: seq<ProjectCoverage>) | LoadFailed(message: string)

  /** No dispatched config's builder throws. */
  predicate NoneThrows(configs: seq<ProjectInfo>, env: Env) {
    forall k :: 0 <= k < |configs| ==> !Throws(configs[k], env)
  }

  /** `projects` holds, in order, the records the builders return for the
      dispatched configs: each is its config and nothing else changed in it. */
  predicate RecordsOf(configs: seq<ProjectInfo>, env: Env, projects: seq<ProjectCoverage>) {
    var selected := Selected(configs);
    && |projects| == |selected|
    && (forall i :: 0 <= i < |projects| ==> projects[i].projectInfo == selected[i])
    && (forall i :: 0 <= i < |projects| ==> Build(selected[i], env).outcome == Built(projects[i]))
  }

  /** The config at `k` is the first whose builder throws. */
  predicate FirstThrowAt(configs: seq<ProjectInfo>, env: Env, k: int) {
    && 0 <= k < |configs|
    && Throws(configs[k], env)
    && NoneThrows(configs[..k], env)
  }

  /** `load`: walks the configs in order, appends one record per dispatched config,
      and gives up the whole run at the first builder that throws. */
  method Load(configs: seq<ProjectInfo>, env: Env) returns (r: LoadResult, fetched: seq<string>)
    ensures r.Loaded? <==> NoneThrows(configs, env)
    ensures r.Loaded? ==> RecordsOf(configs, env, r.projects) && fetched == Requests(configs, env)
    ensures r.LoadFailed? ==>
      && r.message == LoadFailureMessage
      && exists k :: FirstThrowAt(configs, env, k) && fetched == Requests(configs[..k + 1], env)
  {
    var results: seq<ProjectCoverage> := [];
    fetched := [];
    var i := 0;
    while i < |configs|
      invariant 0 <= i <= |configs|
      invariant NoneThrows(configs[..i], env)
      invariant RecordsOf(configs[..i], env, results)
      invariant fetched == Requests(configs[..i], env)
    {
      var config := configs[i];
      assert configs[..i + 1][..i] == configs[..i];
      if config.language == Some("javascript") {
        var s := JavascriptCoverageInfo(config, env);
        fetched := fetched + s.fetched;
        if s.outcome.Thrown? {
          assert FirstThrowAt(configs, env, i);
          r := LoadFailed(LoadFailureMessage);
          return;
        }
        results := results + [s.outcome.record];
      }
      if config.language == Some("java") {
        var s := JavaCoverageInfo(config, env);
        fetched := fetched + s.fetched;
        if s.outcome.Thrown? {
          assert FirstThrowAt(configs, env, i);
          r := LoadFailed(LoadFailureMessage);
          return;
        }
        results := results + [s.outcome.record];
      }
      i := i + 1;
    }
    assert configs[..i] == configs;
    r := Loaded(results);
  }
}
