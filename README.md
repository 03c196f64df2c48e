# Coverage dashboard core, modelled in Dafny

This project models the core of a coverage dashboard. The dashboard reads each configured project's coverage report and reduces it to four percentages: lines, statements, branches and functions. It then groups the projects by parent project and colours each project card by its line coverage.

- JavaScript/React projects publish a JSON coverage summary.
- Java/Spring projects publish a JaCoCo XML report.

## Modules

- `Wrappers`: `Option`, which stands for TypeScript's optional fields and for `undefined`.
- `Document`: a parsed JSON value. An object is a map from member name to value.
- `Types`: the records of `src/Types.ts`: `CoverageMetrics`, `ProjectInfo`, `ProjectCoverage` and `CoverageSummary`.
  - Every `?:` field is an `Option`.
  - So the four metrics are independently optional, and an absent metric is a different value from 0.
  - `ProjectInfo` always has `projectName` and `coverageReportLink`.
  - `ProjectCoverage` always has `projectInfo`.
  - `total` (typed `any`) is an optional JSON value.
- `Summary`: the `data?.total?.<field>?.pct` extraction. Each optional-chaining step is modelled as `Member`.
- `Loader`: the two builders and the `load` loop.
  - The network is `Env.fetch`, a map from link to outcome. The outcome is a rejection, or a response with a status, the body parsed as JSON and the body as text.
  - The JaCoCo parser is `Env.parseJacocoXml`, passed in as a function parameter. Its definition is not part of this model.
  - Each builder also returns the links it fetched, which makes "no fetch happened" visible.
  - Each builder creates its result record and then sets `coverage` once. The model writes this as a record update.
  - `Load` is a method with a loop. It returns `Loaded(results)` or `LoadFailed("Failed to load coverage data")`.
- `Ordering`: the order that `Array.prototype.sort()` uses on strings, and a sort by that order.
  - The library sort is modelled by an insertion sort.
  - `SortedPermutationUnique` shows that any correct sort gives the same result.
- `Grouping`:
  - `GroupByParent` is the grouping loop over a map, plus the sort of the keys.
  - `GroupAsWritten` models the loop as the code runs it, on a plain JavaScript object (see Findings).
- `Card`: the display helpers of the project card: the colour bands, the `?? 0` defaults, the progress clamp, and the chip/accent lookup by lower-cased language.
- `Pipeline`: lemmas that join the stages, and scenario methods. The scenarios show:
  - a React project and a Spring project under one parent load in order and share one group;
  - a non-ok Spring response fails the whole run.

The model follows the code:
- Any builder exception aborts the whole run, with no partial results; no single project's failure is absorbed.
- Configs whose language is neither `'javascript'` nor `'java'` produce no record at all.
- No range check is applied to percentages.
- `parseJacocoXml` comes from `src/utils/Java`, which is not part of this model.

## Model

| member | source | states |
|---|---|---|
| `Summary.ExtractMetrics` | src/App.tsx:19-24 | field `f` is `Some(p)` exactly when `total.<f>.pct` exists and is the number `p`; a document without `total` gives four unset fields, never 0 |
| `Summary.NoRangeCheck` | src/App.tsx:19-24 | any number, also outside [0,100], is taken unchanged; fields the document does not report stay unset |
| `Loader.JavascriptCoverageInfo` | src/App.tsx:8-29 | not React: the record is the config with no coverage and nothing is fetched; React: exactly the report link is fetched, the call throws unless the response is ok and JSON, and otherwise the record is the unchanged config plus the extracted metrics |
| `Loader.JavaCoverageInfo` | src/App.tsx:31-47 | not Spring: config only, no fetch; Spring: exactly the report link is fetched, a rejection or non-ok status throws, and otherwise the record is the unchanged config plus the parser's metrics for the body text |
| `Loader.Selected` | src/App.tsx:59-67 | reference definition of the configs the loop dispatches: only configs with language `'javascript'` or `'java'` are kept, never more than the input; `SelectedExactly` states the converse |
| `Loader.SelectedExactly` | src/App.tsx:59-67 | a config is kept exactly when it is in the input and its language is `'javascript'` or `'java'` |
| `Loader.Build` | src/App.tsx:60-67 | reference definition of the dispatch on `language`: the result keeps its config and adds no `total`, and it fetched the report link exactly when the config is (javascript, react) or (java, spring) |
| `Loader.RequestsAreEligibleLinks` | src/App.tsx:58-68 | whatever the remote documents are, the links fetched are those of the (javascript, react) and (java, spring) configs, once each, in configuration order |
| `Loader.Load` | src/App.tsx:56-74 | success iff no dispatched builder throws; on success, one record per javascript/java config in configuration order, each with exactly its config and equal to its builder's result; on failure, the fixed error message, no records, and fetching stopped at the first config that threw |
| `Ordering.LexLeReflexive` | src/App.tsx:94 | the string order is reflexive |
| `Ordering.LexLeTotal` | src/App.tsx:94 | any two strings are comparable |
| `Ordering.LexLeTransitive` | src/App.tsx:94 | the string order is transitive |
| `Ordering.LexLeAntisymmetric` | src/App.tsx:94 | two strings that sort no later than each other are equal |
| `Ordering.Insert` | src/App.tsx:94 | inserting into a sorted sequence keeps it sorted and adds exactly that element |
| `Ordering.Sort` | src/App.tsx:94 | the result is ascending and a permutation of the input |
| `Ordering.SortedPermutationUnique` | src/App.tsx:94 | two sorted permutations of the same elements are equal, so the choice of sort algorithm does not matter |
| `Ordering.PermutationKeepsDistinct` | src/App.tsx:94 | a permutation of a sequence without repeats has no repeats |
| `Ordering.SortDistinct` | src/App.tsx:94 | sorting distinct keys gives a strictly ascending sequence with the same elements |
| `Grouping.Label` | src/App.tsx:90 | reference definition of the label (`parentProject`, falling back to `'Ungrouped'`): the label is never empty, and it is `'Ungrouped'` exactly when the parent is absent, empty or itself `'Ungrouped'`; `MembersExactly` and `GroupsPartition` use it |
| `Grouping.MembersNonEmptyIffLabel` | src/App.tsx:89-93 | a group is non-empty exactly when its label occurs in the input |
| `Grouping.MembersExactly` | src/App.tsx:88-93 | a group holds exactly the records with its label (`parentProject`, or `'Ungrouped'` when that is absent or empty) |
| `Grouping.GroupsPartition` | src/App.tsx:88-93 | each record is in the group of its own label and in no other |
| `Grouping.GroupsOfSnoc` | src/App.tsx:89-93 | one more record is appended to the end of its own group, creating the group if its label is new, and no other group changes |
| `Grouping.BucketByParent` | src/App.tsx:88-93 | the loop leaves `grouped` equal to the reference grouping, and its key list names each key exactly once |
| `Grouping.GroupByParent` | src/App.tsx:88-94 | the keys are the labels in use; each group is the input filtered by its label, in input order, and is non-empty; `parentNames` is strictly ascending (sorted, no duplicates) and holds exactly the keys |
| `Grouping.GroupAsWritten` | src/App.tsx:88-93 | the loop as written on a plain object: it completes exactly when no label is an `Object.prototype` member name, and then its keys are the labels in use; `AsWrittenThrowsOnInheritedLabel` and `AsWrittenAgreesElsewhere` state the rest |
| `Grouping.AsWrittenThrowsOnInheritedLabel` | src/App.tsx:89-93 | in the loop as written, a record labelled with an `Object.prototype` member name makes the grouping throw |
| `Grouping.AsWrittenThrowsOnConstructor` | src/App.tsx:89-93 | the concrete case: parent project `"constructor"` |
| `Grouping.AsWrittenAgreesElsewhere` | src/App.tsx:88-93 | when no label is an inherited name, the loop as written produces exactly the groups of the corrected grouping |
| `Card.CoverageColor` | src/components/ProjectCoverageCard.tsx:50-55 | green iff pct >= 90, amber iff 75 <= pct < 90, orange iff 50 <= pct < 75, red iff pct < 50 |
| `Card.CoverageColorMonotone` | src/components/ProjectCoverageCard.tsx:50-55 | a higher percentage never gives a worse band |
| `Card.ShownMetrics` | src/components/ProjectCoverageCard.tsx:64-67 | each shown value is the reported metric, or 0 when the coverage object or that field is absent |
| `Card.ProgressValue` | src/components/ProjectCoverageCard.tsx:147 | the bar value lies in [0,100]; it equals `lines` inside that range, 0 below it and 100 above it |
| `Card.CardColor` | src/components/ProjectCoverageCard.tsx:73 | reference definition of `coverageColor(lines)`: green exactly when a line metric of at least 90 is reported, red when there is no coverage object; `CardColorOnlyFromLines` and `NoLinesShowsRedAndEmpty` use it |
| `Card.CardColorOnlyFromLines` | src/components/ProjectCoverageCard.tsx:73 | cards with the same shown line coverage get the same colour, whatever their other metrics |
| `Card.NoLinesShowsRedAndEmpty` | src/components/ProjectCoverageCard.tsx:64-147 | with no line metric the card is red and its progress bar shows 0 |
| `Card.ToLower` | src/components/ProjectCoverageCard.tsx:69 | the key keeps its length; each ASCII capital becomes its own lower-case letter and every other character is kept |
| `Card.LangKey` | src/components/ProjectCoverageCard.tsx:69 | reference definition of the lowered language key (an absent language read as `''`): an absent language gives `''`, a present one its lowered spelling |
| `Card.ChipColorFor` | src/components/ProjectCoverageCard.tsx:70 | reference definition of the chip lookup: `'default'` exactly when the lowered key is not in the table, otherwise the table's entry |
| `Card.AccentColorFor` | src/components/ProjectCoverageCard.tsx:71 | reference definition of the accent lookup: `#0f172a` exactly when the lowered key is not in the table, otherwise the table's entry |
| `Card.LookupIgnoresCase` | src/components/ProjectCoverageCard.tsx:69-71 | language names that differ only in letter case get the same chip colour and accent |
| `Card.AbsentLanguageFallsBack` | src/components/ProjectCoverageCard.tsx:69-71 | an absent language is looked up as `''` and gets chip `'default'` and accent `#0f172a` |
| `Card.UnknownLanguageFallsBack` | src/components/ProjectCoverageCard.tsx:70-71 | a key missing from the tables gets chip `'default'` and accent `#0f172a` |
| `Card.MixedCaseExamples` | src/components/ProjectCoverageCard.tsx:69-71 | `"Java"` maps to secondary/`#5592c0ff`, `"JavaScript"` to warning, and an unknown language to default |
| `Pipeline.IneligibleProjectShowsZeros` | src/App.tsx:8-47 | a javascript/java config without the react/spring framework gets its config back, with no fetch and no coverage, and its card shows zeros |
| `Pipeline.SummaryWithoutTotalShowsZeros` | src/components/ProjectCoverageCard.tsx:64-67 | a summary without `total` is shown as four zeros |

## Findings

| source | as written | input that shows it | evidently intended | confidence | as-written member | corrected member |
|---|---|---|---|---|---|---|
| src/App.tsx:88-93 | `grouped` is the object literal `{}`, so `grouped[parent]` also finds members inherited from `Object.prototype`. The value found is truthy, so it is not replaced by `[]`, and calling `.push` on it throws a TypeError while the page is rendered. | one project whose `parentProject` is `"constructor"` (likewise `"toString"`, `"valueOf"`, `"__proto__"`, ...) | the label forms a group like any other | medium, not executed | `Grouping.AsWrittenThrowsOnInheritedLabel` | `Grouping.GroupByParent` |

## Left out

- Network I/O: `fetch`, the `cache: 'no-store'` option, and `res.json()` / `res.text()` are replaced by `Env.fetch`. A response carries both views of its body, and the model does not check that they agree. No timeouts are modelled.
- `parseJacocoXml`: its source is not part of this model. It is the function parameter `Env.parseJacocoXml`, assumed total, so a parser exception is not modelled.
- React state and rendering: `useState`, `useEffect`, `setLoading`, `setError`, JSX/MUI markup, `toFixed(1)`, `console.log` and `console.error`. The "Projects not found." branch is also left out.
  - On failure, the component's `projects` stays at its initial `[]`. The model says the same thing in the type: `LoadFailed` carries no records.
- The `languageColor` table in the card component: nothing reads it.
- `src/config/Projects.ts`: static data whose link key is misspelled and which `App.tsx` does not import by that name. It has no `language`, so `Load` would produce no record for it.
- Floating-point numbers are modelled as `real`, so there is no NaN, no -0 and no rounding.
- Summary.ExtractMetrics: a `pct` that is present but not a number is stored unchanged by the source, in a field typed `number`. The model treats it as unset. A `null` is shown as 0 either way.
- Ordering.LexLe: compares Unicode scalar values, while JavaScript compares UTF-16 code units. The two orders differ only between characters above U+FFFF and characters from U+E000 to U+FFFF.
- Card.ToLower: lowers ASCII letters only. The table keys are ASCII, so only a non-ASCII character whose lower case is ASCII could change a lookup. The Kelvin sign is the one case, and no table key contains `k`.
- Card.ChipColorFor: a language key that is an `Object.prototype` member name (such as `"constructor"`) finds an inherited function in the source tables. The model falls back to the defaults instead.
- Card.CoverageColor: no NaN input, which the source would colour red.
