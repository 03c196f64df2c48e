/** Grouping the loaded records by parent project, with the labels sorted. */
module Grouping {
  import opened Wrappers
  import opened Types
  import opened Ordering

  const UngroupedLabel := "Ungrouped"

  /** `parentProject || 'Ungrouped'`: an absent or empty parent falls back to the sentinel. */
  function Label(p: ProjectCoverage): (l: string)
    ensures l != ""
    ensures l == UngroupedLabel <==>
      p.projectInfo.parentProject in {None, Some(""), Some(UngroupedLabel)}
  {
    match p.projectInfo.parentProject
    case Some(parent) => if parent != "" then parent else UngroupedLabel
    case None => UngroupedLabel
  }

  /** The labels that occur among `ps`. */
  function Labels(ps: seq<ProjectCoverage>): set<string> {
    if ps == [] then {} else Labels(ps[..|ps| - 1]) + {Label(ps[|ps| - 1])}
  }

  /** The records of `ps` labelled `l`, in their order in `ps`. */
  function Members(ps: seq<ProjectCoverage>, l: string): seq<ProjectCoverage> {
    if ps == [] then []
    else
      var last := ps[|ps| - 1];
      Members(ps[..|ps| - 1], l) + (if Label(last) == l then [last] else [])
  }

  /** One group per label in use, each the records with that label. */
  function GroupsOf(ps: seq<ProjectCoverage>): map<string, seq<ProjectCoverage>> {
    map l | l in Labels(ps) :: Members(ps, l)
  }

  /** Every label in use names a group, and no other string does. */
  lemma {:induction false} MembersNonEmptyIffLabel(ps: seq<ProjectCoverage>, l: string)
    ensures Members(ps, l) != [] <==> l in Labels(ps)
    decreases |ps|
  {
    if ps != [] {
      MembersNonEmptyIffLabel(ps[..|ps| - 1], l);
    }
  }

  /** A group holds exactly the records with its label. */
  lemma {:induction false} MembersExactly(ps: seq<ProjectCoverage>, l: string, x: ProjectCoverage)
    ensures x in Members(ps, l) <==> x in ps && Label(x) == l
    decreases |ps|
  {
    if ps != [] {
      MembersExactly(ps[..|ps| - 1], l, x);
      assert ps == ps[..|ps| - 1] + [ps[|ps| - 1]];
    }
  }

  /** Every record lands in the group of its own label and in no other. */
  lemma GroupsPartition(ps: seq<ProjectCoverage>, i: nat, l: string)
    requires i < |ps|
    ensures ps[i] in Members(ps, l) <==> l == Label(ps[i])
  {
    MembersExactly(ps, l, ps[i]);
  }

  /** Appending one record adds it at the end of its group, creating the group
      if its label is new; no other group changes. */
  lemma GroupsOfSnoc(init: seq<ProjectCoverage>, p: ProjectCoverage)
    ensures GroupsOf(init + [p]) ==
      var before := GroupsOf(init);
      var l := Label(p);
      before[l := (if l in before then before[l] else []) + [p]]
  {
    var ps := init + [p];
    assert ps[..|ps| - 1] == init && ps[|ps| - 1] == p;
    var before := GroupsOf(init);
    var after := GroupsOf(ps);
    var l := Label(p);
    var step := before[l := (if l in before then before[l] else []) + [p]];
    assert step.Keys == after.Keys;
    forall k | k in after ensures step[k] == after[k] {
      if k == l && l !in before {
        MembersNonEmptyIffLabel(init, l);
      }
    }
  }

  /** The bucketing loop: `grouped` ends as `GroupsOf(projects)` and `keys`, the
      object's keys in insertion order, lists each of its keys once. */
  method BucketByParent(projects: seq<ProjectCoverage>)
    returns (grouped: map<string, seq<ProjectCoverage>>, keys: seq<string>)
    ensures grouped == GroupsOf(projects)
    ensures Distinct(keys)
    ensures forall l :: l in keys <==> l in grouped
  {
    grouped := map[];
    keys := [];
    var i := 0;
    while i < |projects|
      invariant 0 <= i <= |projects|
      invariant grouped == GroupsOf(projects[..i])
      invariant Distinct(keys)
      invariant forall l :: l in keys <==> l in grouped
    {
      var p := projects[i];
      var parent := Label(p);
      GroupsOfSnoc(projects[..i], p);
      assert projects[..i + 1] == projects[..i] + [p];
      if parent !in grouped {
        grouped := grouped[parent := []];
        keys := keys + [parent];
      }
      grouped := grouped[parent := grouped[parent] + [p]];
      i := i + 1;
    }
    assert projects[..i] == projects;
  }

  /** The grouping at the end of `App`: `grouped[l]` is the input filtered by
      label `l`, and `parentNames` lists the keys ascending. */
  method GroupByParent(projects: seq<ProjectCoverage>)
    returns (grouped: map<string, seq<ProjectCoverage>>, parentNames: seq<string>)
    ensures grouped.Keys == Labels(projects)
    ensures forall l :: l in grouped ==> grouped[l] == Members(projects, l) && grouped[l] != []
    ensures StrictlySorted(parentNames)
    ensures forall l :: l in parentNames <==> l in grouped
  {
    var keys;
    grouped, keys := BucketByParent(projects);
    forall l | l in grouped ensures grouped[l] != [] {
      MembersNonEmptyIffLabel(projects, l);
    }
    parentNames := Sort(keys);
    SortDistinct(keys);
  }

  // The loop as written indexes a plain object literal, so `grouped[parent]`
  // also finds what every object inherits from `Object.prototype`.

  /** The members every plain object inherits. */
  const ObjectPrototypeMembers: set<string> := {
    "constructor", "hasOwnProperty", "isPrototypeOf", "propertyIsEnumerable",
    "toLocaleString", "toString", "valueOf", "__proto__",
    "__defineGetter__", "__defineSetter__", "__lookupGetter__", "__lookupSetter__"}

  /** `grouped[key]` on a plain object: an own array, an inherited member (always
      truthy and never an array) or undefined. */
  datatype Slot = Own(list: seq<ProjectCoverage>) | Inherited | Undefined

  function Lookup(grouped: map<string, seq<ProjectCoverage>>, key: string): Slot {
    if key in grouped then Own(grouped[key])
    else if key in ObjectPrototypeMembers then Inherited
    else Undefined
  }

  /** The grouping loop as written: `None` when `grouped[parent].push(p)` meets an
      inherited member and throws a TypeError. */
  function GroupAsWritten(ps: seq<ProjectCoverage>): (r: Option<map<string, seq<ProjectCoverage>>>)
    ensures r.Some? ==> r.value.Keys == Labels(ps)
    ensures r.Some? ==> forall l :: l in r.value ==> l !in ObjectPrototypeMembers
    ensures r.Some? <==> forall i :: 0 <= i < |ps| ==> Label(ps[i]) !in ObjectPrototypeMembers
  {
    if ps == [] then Some(map[])
    else
      match GroupAsWritten(ps[..|ps| - 1])
      case None => None
      case Some(grouped) =>
        var p := ps[|ps| - 1];
        var parent := Label(p);
        match Lookup(grouped, parent)
        case Own(list) => Some(grouped[parent := list + [p]])
        case Undefined => Some(grouped[parent := [p]])
        case Inherited => None
  }

  /** A single project whose parent is called `constructor` (or any other
      inherited member) makes the grouping as written throw. */
  lemma AsWrittenThrowsOnInheritedLabel(p: ProjectCoverage)
    requires Label(p) in ObjectPrototypeMembers
    ensures GroupAsWritten([p]) == None
  {
    assert [p][..0] == [];
  }

  /** The concrete case: parent project "constructor". */
  lemma AsWrittenThrowsOnConstructor(info: ProjectInfo)
    requires info.parentProject == Some("constructor")
    ensures GroupAsWritten([ProjectCoverage(info, None, None)]) == None
  {
    AsWrittenThrowsOnInheritedLabel(ProjectCoverage(info, None, None));
  }

  /** Away from inherited labels the loop as written builds exactly the groups
      `GroupByParent` returns. */
  lemma {:induction false} AsWrittenAgreesElsewhere(ps: seq<ProjectCoverage>)
    requires forall i :: 0 <= i < |ps| ==> Label(ps[i]) !in ObjectPrototypeMembers
    ensures GroupAsWritten(ps) == Some(GroupsOf(ps))
    decreases |ps|
  {
    if ps != [] {
      var init := ps[..|ps| - 1];
      var p := ps[|ps| - 1];
      AsWrittenAgreesElsewhere(init);
      GroupsOfSnoc(init, p);
      assert init + [p] == ps;
      var before := GroupsOf(init);
      var l := Label(p);
      var step := before[l := (if l in before then before[l] else []) + [p]];
      assert GroupsOf(ps) == step;
      assert GroupAsWritten(init) == Some(before);
      if l in before {
        assert Lookup(before, l) == Own(before[l]);
      } else {
        assert Lookup(before, l) == Undefined;
        assert [] + [p] == [p];
      }
      assert GroupAsWritten(ps) == Some(step);
    }
  }
}
