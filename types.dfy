/** The records of src/Types.ts. Every `?:` field is an `Option`. */
module Types {
  import opened Wrappers
  import opened Document

  /** Four independent percentages; an unset field is distinct from 0. */
  datatype CoverageMetrics = CoverageMetrics(
    lines: Option<real>,
    statements: Option<real>,
    branches: Option<real>,
    functions: Option<real>)

  /** The four dimensions of `CoverageMetrics`, to speak of one field at a time. */
  datatype MetricName = Lines | Statements | Branches | Functions

  /** The member name under which a coverage summary reports the dimension. */
  function Key(f: MetricName): string {
    match f
    case Lines => "lines"
    case Statements => "statements"
    case Branches => "branches"
    case Functions => "functions"
  }

  function Metric(m: CoverageMetrics, f: MetricName): Option<real> {
    match f
    case Lines => m.lines
    case Statements => m.statements
    case Branches => m.branches
    case Functions => m.functions
  }

  /** One configured project: only the name and the report link are required. */
  datatype ProjectInfo = ProjectInfo(
    id: Option<string>,
    parentProject: Option<string>,
    language: Option<string>,
    framework: Option<string>,
    projectName: string,
    coverageReportLink: string)

  /** A project with the coverage read for it; `total` is an untyped passthrough. */
  datatype ProjectCoverage = ProjectCoverage(
    projectInfo: ProjectInfo,
    coverage: Option<CoverageMetrics>,
    total: Option<Json>)

  datatype CoverageSummary = CoverageSummary(
    generatedAt: Option<string>,
    projects: seq<ProjectCoverage>)
}
