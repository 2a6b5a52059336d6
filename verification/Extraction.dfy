/** What the session holds after `extractRequirements` and what is submitted for it (odc/Controller.cpp,
    odc/DDSSubmit.h), counted and quoted from the topology itself. */
module Extraction {
  import opened Basics
  import opened TopologyDefs
  import opened AsyncOps
  import opened Resources

  // ---------------------------------------------------------------- requirements of one collection
  // `i` is the position of the last requirement of its kind, or -1 if there is none.

  lemma {:induction false} GroupIsLast(reqs: seq<Requirement>, i: int)
    requires -1 <= i < |reqs| && (i >= 0 ==> reqs[i].GroupName?)
    requires forall j :: i < j < |reqs| ==> !reqs[j].GroupName?
    ensures GroupOf(reqs) == if i < 0 then "" else reqs[i].value
  {
    if i < |reqs| - 1 {
      GroupIsLast(reqs[..|reqs| - 1], i);
    }
  }

  lemma {:induction false} ZoneIsLast(reqs: seq<Requirement>, i: int)
    requires -1 <= i < |reqs| && (i >= 0 ==> reqs[i].ZoneName?)
    requires forall j :: i < j < |reqs| ==> !reqs[j].ZoneName?
    ensures ZoneGiven(reqs) == if i < 0 then "" else reqs[i].value
    ensures ZoneOf(reqs) == if i < 0 || reqs[i].value == "" then GroupOf(reqs) else reqs[i].value
  {
    if i < |reqs| - 1 {
      ZoneIsLast(reqs[..|reqs| - 1], i);
    }
  }

  lemma {:induction false} CoresAreLast(reqs: seq<Requirement>, i: int)
    requires -1 <= i < |reqs| && (i >= 0 ==> reqs[i].NCores? && reqs[i].number.Some?)
    requires forall j :: i < j < |reqs| ==> !reqs[j].NCores?
    ensures CoresOf(reqs) == if i < 0 then 0 else reqs[i].number.value
  {
    if i < |reqs| - 1 {
      CoresAreLast(reqs[..|reqs| - 1], i);
    }
  }

  /** nMin is 0 outside of a group, and a signed 32-bit number in one. */
  lemma {:induction false} NMinIsLast(reqs: seq<Requirement>, inGroup: bool, i: int)
    requires -1 <= i < |reqs| && (i >= 0 ==> reqs[i].NMin? && reqs[i].number.Some?)
    requires forall j :: i < j < |reqs| ==> !reqs[j].NMin?
    ensures i < 0 || !inGroup ==> NMinOf(reqs, inGroup) == 0
    ensures i >= 0 && inGroup ==>
      var n := NMinOf(reqs, inGroup);
      (n - reqs[i].number.value) % UINT32_RANGE == 0 && 0 <= n + INT32_RANGE < UINT32_RANGE
  {
    if reqs != [] && (i < |reqs| - 1 || !inGroup) {
      var front := reqs[..|reqs| - 1];
      if i < |reqs| - 1 {
        NMinIsLast(front, inGroup, i);
      } else {
        NMinOutside(front);
      }
    }
  }

  lemma {:induction false} NMinOutside(reqs: seq<Requirement>)
    ensures NMinOf(reqs, false) == 0
  {
    if reqs != [] {
      NMinOutside(reqs[..|reqs| - 1]);
    }
  }

  /** A collection can be read if every number of cores can, and in a group every nMin. */
  lemma ReadableExactly(c: TopoCollection)
    ensures Readable(c) <==> forall i :: 0 <= i < |c.reqs| ==>
      (c.reqs[i].NCores? ==> c.reqs[i].number.Some?) && (c.inGroup && c.reqs[i].NMin? ==> c.reqs[i].number.Some?)
  {
    assert forall i :: 0 <= i < |c.reqs| ==> c.reqs[i] in c.reqs;
  }

  // ---------------------------------------------------------------- tasks

  /** A task is expendable if one of its requirements has the value "true". */
  lemma ExpendableExactly(tasks: seq<FlaggedTask>, id: TaskId)
    ensures id in Expendables(tasks) <==>
      exists i, j :: 0 <= i < |tasks| && tasks[i].id == id && 0 <= j < |tasks[i].values| && tasks[i].values[j] == "true"
  {
  }

  // ---------------------------------------------------------------- sums and lists
  // Each is fixed by what it is for a single element and by what it is for two parts.

  /** Stand-alone tasks are those outside of main, in order. */
  lemma {:induction false} StandaloneAdds(a: seq<TopoTask>, b: seq<TopoTask>)
    ensures Standalone(a + b) == Standalone(a) + Standalone(b)
    decreases |b|
  {
    if b == [] {
      assert a + b == a;
    } else {
      StandaloneAdds(a, b[..|b| - 1]);
      assert (a + b)[..|a + b| - 1] == a + b[..|b| - 1];
    }
  }

  lemma StandaloneOfOne(t: TopoTask)
    ensures Standalone([t]) ==
      if t.parent == "main" then [] else [TaskInfo(t.name, ZoneGiven(t.reqs), GroupOf(t.reqs), t.parent, t.n)]
  {
    assert [t][..0] == [];
  }

  /** Agents, slots and tasks of an agent group are sums over its collections. */
  lemma {:induction false} SumsAdd(a: seq<TopoCollection>, b: seq<TopoCollection>, g: string)
    ensures AgentsIn(a + b, g) == AgentsIn(a, g) + AgentsIn(b, g)
    ensures SlotsIn(a + b, g) == SlotsIn(a, g) + SlotsIn(b, g)
    ensures TasksIn(a + b, g) == TasksIn(a, g) + TasksIn(b, g)
    decreases |b|
  {
    if b == [] {
      assert a + b == a;
    } else {
      SumsAdd(a, b[..|b| - 1], g);
      assert (a + b)[..|a + b| - 1] == a + b[..|b| - 1];
    }
  }

  /** The agent groups of a zone are listed in order. */
  lemma {:induction false} ZoneGroupsAdd(a: seq<TopoCollection>, b: seq<TopoCollection>, z: string)
    ensures GroupsOfZone(a + b, z) == GroupsOfZone(a, z) + GroupsOfZone(b, z)
    decreases |b|
  {
    if b == [] {
      assert a + b == a;
    } else {
      ZoneGroupsAdd(a, b[..|b| - 1], z);
      assert (a + b)[..|a + b| - 1] == a + b[..|b| - 1];
    }
  }

  lemma SumsOfOne(c: TopoCollection, g: string)
    ensures GroupOf(c.reqs) == g ==>
      AgentsIn([c], g) == c.n && SlotsIn([c], g) == c.numTasks && TasksIn([c], g) == c.n * c.numTasks
    ensures GroupOf(c.reqs) != g ==> AgentsIn([c], g) == SlotsIn([c], g) == TasksIn([c], g) == 0
    ensures GroupsOfZone([c], g) ==
      if GroupOf(c.reqs) != "" && ZoneOf(c.reqs) == g && g != ""
        then [ZoneGroup(c.n, CoresOf(c.reqs), GroupOf(c.reqs))] else []
  {
    assert [c][..0] == [];
  }

  // ---------------------------------------------------------------- which collection decides

  lemma {:induction false} LastInGroup(cols: seq<TopoCollection>, g: string, i: int)
    requires -1 <= i < |cols| && (i >= 0 ==> GroupOf(cols[i].reqs) == g)
    requires forall j :: i < j < |cols| ==> GroupOf(cols[j].reqs) != g
    ensures LastIn(cols, g) == if i < 0 then None else Some(cols[i])
  {
    if i < |cols| - 1 {
      LastInGroup(cols[..|cols| - 1], g, i);
    }
  }

  lemma {:induction false} LastOfName(cols: seq<TopoCollection>, name: string, i: int)
    requires -1 <= i < |cols| && (i >= 0 ==> cols[i].name == name)
    requires forall j :: i < j < |cols| ==> cols[j].name != name
    ensures LastNamed(cols, name) == if i < 0 then None else Some(cols[i])
  {
    if i < |cols| - 1 {
      LastOfName(cols[..|cols| - 1], name, i);
    }
  }

  lemma {:induction false} FirstWithGroup(cols: seq<TopoCollection>, name: string, i: nat)
    requires i <= |cols| && (i < |cols| ==> cols[i].name == name && GroupOf(cols[i].reqs) != "")
    requires forall j :: 0 <= j < i ==> cols[j].name != name || GroupOf(cols[j].reqs) == ""
    ensures FirstGrouped(cols, name) == if i < |cols| then Some(cols[i]) else None
  {
    if cols != [] {
      FirstWithGroup(cols[..|cols| - 1], name, if i < |cols| then i else |cols| - 1);
    }
  }

  /** What is kept of a collection: the numbers of the last one of its name. */
  lemma CollectionKept(cols: seq<TopoCollection>, collections: map<string, CollectionInfo>, i: nat)
    requires CollectionsMatch(cols, collections) && i < |cols|
    requires forall j :: i < j < |cols| ==> cols[j].name != cols[i].name
    ensures var c := cols[i];
      && c.name in collections
      && var info := collections[c.name];
      && info.nOriginal == c.n && info.nCurrent == c.n && info.nMin == NMinOf(c.reqs, c.inGroup)
      && info.nCores == CoresOf(c.reqs) && info.numTasks == c.numTasks && info.totalTasks == c.n * c.numTasks
      && info.zone == ZoneOf(c.reqs) && info.agentGroup == GroupOf(c.reqs)
  {
    LastOfName(cols, cols[i].name, i);
  }

  /** What is kept of an agent group: the sums of its collections, and the rest from the last one. */
  lemma GroupKept(cols: seq<TopoCollection>, groups: map<string, AgentGroupInfo>, i: nat)
    requires GroupsMatch(cols, groups) && i < |cols|
    requires forall j :: i < j < |cols| ==> GroupOf(cols[j].reqs) != GroupOf(cols[i].reqs)
    ensures var c, g := cols[i], GroupOf(cols[i].reqs);
      && g in groups
      && var info := groups[g];
      && info.numAgents == AgentsIn(cols, g) && info.numSlots == SlotsIn(cols, g)
      && info.minAgents == NMinOf(c.reqs, c.inGroup) && info.numCores == CoresOf(c.reqs)
      && info.zone == ZoneOf(c.reqs)
  {
    LastInGroup(cols, GroupOf(cols[i].reqs), i);
  }

  /** What is kept for recovery: the first collection of a name that has an agent group. */
  lemma NInfoKept(cols: seq<TopoCollection>, ninfo: map<string, CollectionNInfo>, i: nat)
    requires NInfoMatches(cols, ninfo) && i < |cols| && GroupOf(cols[i].reqs) != ""
    requires forall j :: 0 <= j < i ==> cols[j].name != cols[i].name || GroupOf(cols[j].reqs) == ""
    ensures var c := cols[i];
      && c.name in ninfo
      && var info := ninfo[c.name];
      && info.nOriginal == c.n && info.nCurrent == c.n && info.nMin == NMinOf(c.reqs, c.inGroup)
      && info.agentGroup == GroupOf(c.reqs)
  {
    FirstWithGroup(cols, cols[i].name, i);
  }

  // ---------------------------------------------------------------- submission

  /** The file of the zone, if it is configured. */
  ghost predicate Configured(zoneCfgs: map<string, ZoneConfig>, p: SubmitParams) {
    if p.zone in zoneCfgs
      then p.configFile == zoneCfgs[p.zone].cfgPath && p.envFile == zoneCfgs[p.zone].envPath
      else p.configFile == "" && p.envFile == ""
  }

  /** The sets for one agent group: on localhost as many sets of one agent as there are agents, and else a single set;
      all other fields are those of the group, as unsigned numbers. */
  lemma SetsOfGroup(rms: string, zoneCfgs: map<string, ZoneConfig>, g: string, info: AgentGroupInfo)
    ensures var sets := SetsFor(rms, zoneCfgs, g, info);
      && |sets| == (if rms == "localhost" && info.numAgents > 1 then info.numAgents else 1)
      && forall j :: 0 <= j < |sets| ==>
           var p := sets[j];
           && p.rms == rms && p.zone == info.zone && p.agentGroup == g && Configured(zoneCfgs, p)
           && p.numAgents == (if rms == "localhost" && info.numAgents > 1 then 1 else info.numAgents % UINT32_RANGE)
           && p.minAgents == info.minAgents % UINT32_RANGE && p.numSlots == info.numSlots % UINT32_RANGE
           && p.numCores == info.numCores % UINT32_RANGE
  {
  }

  lemma {:induction false} SlotsAdd(a: seq<SubmitParams>, b: seq<SubmitParams>)
    ensures CountedSlots(a + b) == CountedSlots(a) + CountedSlots(b)
    decreases |b|
  {
    if b == [] {
      assert a + b == a;
    } else {
      SlotsAdd(a, b[..|b| - 1]);
      assert (a + b)[..|a + b| - 1] == a + b[..|b| - 1];
    }
  }

  lemma SlotsOfOne(p: SubmitParams)
    ensures CountedSlots([p]) == (p.numAgents * p.numSlots) % UINT32_RANGE
  {
    assert [p][..0] == [];
  }

  // ---------------------------------------------------------------- recovery

  /** Which agents are counted: none of a group that was asked for is missing, and each launched one counts once. */
  lemma LaunchedCounted(params: seq<SubmitParams>, agents: Option<seq<string>>, g: string)
    ensures var counts, launched := CountsOf(params, agents), if agents.Some? then agents.value else [];
      && (g in counts <==> g in launched || exists i :: 0 <= i < |params| && params[i].agentGroup == g)
      && (g in counts ==> counts[g] == multiset(launched)[g])
  {
    var launched := if agents.Some? then agents.value else [];
    assert g in GroupNames(params) <==> exists i :: 0 <= i < |params| && params[i].agentGroup == g;
  }

  /** A set is served if as many agents as it asks for were launched, or at least its minimum, which is not 0. */
  lemma ServedExactly(p: SubmitParams, counts: map<string, nat>)
    requires p.agentGroup in counts
    ensures EnoughAgents(p, counts) <==>
      counts[p.agentGroup] == p.numAgents || (p.minAgents > 0 && counts[p.agentGroup] >= p.minAgents)
  {
  }

  lemma RecoverableExactly(params: seq<SubmitParams>, counts: map<string, nat>)
    requires forall i :: 0 <= i < |params| ==> params[i].agentGroup in counts
    ensures Recoverable(params, counts) <==>
      forall i :: 0 <= i < |params| ==>
        var p, launched := params[i], counts[params[i].agentGroup];
        launched == p.numAgents || (p.minAgents > 0 && launched >= p.minAgents)
  {
    assert forall i :: 0 <= i < |params| ==> (EnoughAgents(params[i], counts) <==>
      counts[params[i].agentGroup] == params[i].numAgents ||
      (params[i].minAgents > 0 && counts[params[i].agentGroup] >= params[i].minAgents));
  }

  /** The corrected entries: the current count is that of the launched agents of the group, if it is known, and nothing
      else changes. */
  lemma CorrectedFields(before: map<string, CollectionNInfo>, counts: map<string, nat>,
                        after: map<string, CollectionNInfo>, name: string)
    requires Corrected(before, counts, after)
    ensures name in after <==> name in before
    ensures name in before ==>
      var x, y := before[name], after[name];
      && y.nOriginal == x.nOriginal && y.nMin == x.nMin && y.agentGroup == x.agentGroup
      && y.nCurrent == if x.agentGroup in counts then counts[x.agentGroup] else x.nCurrent
  {
  }
}
