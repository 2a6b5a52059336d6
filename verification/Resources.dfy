/** From a topology's requirements to agent submissions: `extractRequirements`, `submit` and
    `attemptSubmitRecovery` (odc/Controller.cpp) and `makeParams` for agent groups (odc/DDSSubmit.h). */
module Resources {
  import opened Basics
  import opened TopologyDefs
  import opened AsyncOps

  /** A requirement of a collection; the numbers are what `stoi` and `stoll` make of the text, None if they throw. */
  datatype Requirement =
    | GroupName(value: string)
    | ZoneName(value: string)
    | NCores(number: Option<int>)
    | NMin(number: Option<int>)
    | Unused

  /** A collection of the DDS topology; `inGroup` if its parent is a group other than main. */
  datatype TopoCollection = TopoCollection(name: string, inGroup: bool, n: nat, numTasks: nat, reqs: seq<Requirement>)

  /** A task of the running topology and the values of its requirements named `odc_expendable_*`. */
  datatype FlaggedTask = FlaggedTask(id: TaskId, values: seq<string>)

  /** A task of the DDS topology that is in no collection; `parent` is "main" or the name of its group. */
  datatype TopoTask = TopoTask(name: string, parent: string, n: nat, reqs: seq<Requirement>)

  datatype TaskInfo = TaskInfo(name: string, zone: string, agentGroup: string, topoParent: string, n: nat)

  datatype AgentGroupInfo = AgentGroupInfo(zone: string, numAgents: int, minAgents: int, numSlots: int, numCores: int)

  datatype CollectionNInfo = CollectionNInfo(nOriginal: int, nCurrent: int, nMin: int, agentGroup: string)

  datatype ZoneGroup = ZoneGroup(n: int, nCores: int, agentGroup: string)

  datatype ZoneConfig = ZoneConfig(cfgPath: string, envPath: string)

  datatype SubmitParams = SubmitParams(
    rms: string, zone: string, agentGroup: string, configFile: string, envFile: string,
    numAgents: nat, minAgents: nat, numSlots: nat, numCores: nat)

  function ToUint32(i: int): nat {
    i % UINT32_RANGE
  }

  function ToInt32(i: int): int {
    (i + INT32_RANGE) % UINT32_RANGE - INT32_RANGE
  }

  // ---------------------------------------------------------------- requirements of one collection

  /** The last agent group named, if any. */
  function GroupOf(reqs: seq<Requirement>): string {
    if reqs == [] then "" else
    var r := reqs[|reqs| - 1];
    if r.GroupName? then r.value else GroupOf(reqs[..|reqs| - 1])
  }

  function ZoneGiven(reqs: seq<Requirement>): string {
    if reqs == [] then "" else
    var r := reqs[|reqs| - 1];
    if r.ZoneName? then r.value else ZoneGiven(reqs[..|reqs| - 1])
  }

  function CoresOf(reqs: seq<Requirement>): int {
    if reqs == [] then 0 else
    var r := reqs[|reqs| - 1];
    if r.NCores? && r.number.Some? then r.number.value else CoresOf(reqs[..|reqs| - 1])
  }

  /** nMin only matters in a group. */
  function NMinOf(reqs: seq<Requirement>, inGroup: bool): int {
    if reqs == [] then 0 else
    var r := reqs[|reqs| - 1];
    if r.NMin? && r.number.Some? && inGroup then ToInt32(r.number.value) else NMinOf(reqs[..|reqs| - 1], inGroup)
  }

  /** Without a zone of its own a collection is in the zone named like its agent group. */
  function ZoneOf(reqs: seq<Requirement>): string {
    if ZoneGiven(reqs) == "" then GroupOf(reqs) else ZoneGiven(reqs)
  }

  predicate Throws(r: Requirement, inGroup: bool) {
    (r.NCores? && r.number.None?) || (r.NMin? && inGroup && r.number.None?)
  }

  ghost predicate Readable(c: TopoCollection) {
    forall r :: r in c.reqs ==> !Throws(r, c.inGroup)
  }

  method ReadRequirements(c: TopoCollection)
    returns (o: Outcome, agentGroup: string, zone: string, nCores: int, nMin: int)
    ensures o == Returned <==> Readable(c)
    ensures o == Returned ==>
      agentGroup == GroupOf(c.reqs) && zone == ZoneOf(c.reqs) && nCores == CoresOf(c.reqs) &&
        nMin == NMinOf(c.reqs, c.inGroup)
  {
    agentGroup, zone, nCores, nMin := "", "", 0, 0;
    for i := 0 to |c.reqs|
      invariant forall j :: 0 <= j < i ==> !Throws(c.reqs[j], c.inGroup)
      invariant agentGroup == GroupOf(c.reqs[..i]) && zone == ZoneGiven(c.reqs[..i])
      invariant nCores == CoresOf(c.reqs[..i]) && nMin == NMinOf(c.reqs[..i], c.inGroup)
    {
      var r := c.reqs[i];
      assert c.reqs[..i + 1][..i] == c.reqs[..i];
      match r
      case GroupName(value) => agentGroup := value;
      case ZoneName(value) => zone := value;
      case NCores(number) =>
        if number.None? {
          assert Throws(r, c.inGroup);
          return Threw, agentGroup, zone, nCores, nMin;
        }
        nCores := number.value;
      case NMin(number) =>
        if c.inGroup {
          if number.None? {
            assert Throws(r, c.inGroup);
            return Threw, agentGroup, zone, nCores, nMin;
          }
          nMin := ToInt32(number.value);
        }
      case Unused =>
    }
    assert c.reqs[..|c.reqs|] == c.reqs;
    if zone == "" {
      zone := agentGroup;
    }
    return Returned, agentGroup, zone, nCores, nMin;
  }

  // ---------------------------------------------------------------- tasks

  /** Only the value "true" makes a task expendable; one such requirement is enough. */
  ghost function Expendables(tasks: seq<FlaggedTask>): set<TaskId> {
    set t | t in tasks && "true" in t.values :: t.id
  }

  method ReadExpendables(tasks: seq<FlaggedTask>, before: set<TaskId>) returns (r: set<TaskId>)
    ensures r == before + Expendables(tasks)
  {
    r := before;
    for i := 0 to |tasks|
      invariant r == before + Expendables(tasks[..i])
    {
      var task := tasks[i];
      assert tasks[..i + 1] == tasks[..i] + [task];
      var flagged := false;
      for j := 0 to |task.values|
        invariant flagged <==> "true" in task.values[..j]
        invariant r == before + Expendables(tasks[..i]) + if flagged then {task.id} else {}
      {
        if task.values[j] == "true" {
          flagged := true;
          r := r + {task.id};
        }
      }
      assert task.values[..|task.values|] == task.values;
    }
    assert tasks[..|tasks|] == tasks;
  }

  /** The tasks that are in a group other than main, in order, with the last zone and agent group named. */
  function Standalone(tasks: seq<TopoTask>): seq<TaskInfo> {
    if tasks == [] then []
    else
      var t := tasks[|tasks| - 1];
      Standalone(tasks[..|tasks| - 1]) +
      if t.parent == "main" then [] else [TaskInfo(t.name, ZoneGiven(t.reqs), GroupOf(t.reqs), t.parent, t.n)]
  }

  method ReadTask(t: TopoTask) returns (info: TaskInfo)
    ensures info == TaskInfo(t.name, ZoneGiven(t.reqs), GroupOf(t.reqs), t.parent, t.n)
  {
    var zone, agentGroup := "", "";
    for i := 0 to |t.reqs|
      invariant zone == ZoneGiven(t.reqs[..i]) && agentGroup == GroupOf(t.reqs[..i])
    {
      assert t.reqs[..i + 1][..i] == t.reqs[..i];
      if t.reqs[i].GroupName? {
        agentGroup := t.reqs[i].value;
      } else if t.reqs[i].ZoneName? {
        zone := t.reqs[i].value;
      }
    }
    assert t.reqs[..|t.reqs|] == t.reqs;
    return TaskInfo(t.name, zone, agentGroup, t.parent, t.n);
  }

  method ReadStandalone(tasks: seq<TopoTask>) returns (r: seq<TaskInfo>)
    ensures r == Standalone(tasks)
  {
    r := [];
    for i := 0 to |tasks|
      invariant r == Standalone(tasks[..i])
    {
      assert tasks[..i + 1][..i] == tasks[..i];
      if tasks[i].parent != "main" {
        var info := ReadTask(tasks[i]);
        r := r + [info];
      }
    }
    assert tasks[..|tasks|] == tasks;
  }

  // ---------------------------------------------------------------- what all collections ask for

  function Group(c: TopoCollection): string {
    GroupOf(c.reqs)
  }

  /** The agents asked for by the collections of agent group `g`. */
  function AgentsIn(cols: seq<TopoCollection>, g: string): nat {
    if cols == [] then 0 else
    var c := cols[|cols| - 1];
    AgentsIn(cols[..|cols| - 1], g) + if Group(c) == g then c.n else 0
  }

  /** The tasks of one instance of each collection of agent group `g`. */
  function SlotsIn(cols: seq<TopoCollection>, g: string): nat {
    if cols == [] then 0 else
    var c := cols[|cols| - 1];
    SlotsIn(cols[..|cols| - 1], g) + if Group(c) == g then c.numTasks else 0
  }

  /** The tasks of all instances of the collections of agent group `g`. */
  function TasksIn(cols: seq<TopoCollection>, g: string): nat {
    if cols == [] then 0 else
    var c := cols[|cols| - 1];
    TasksIn(cols[..|cols| - 1], g) + if Group(c) == g then c.n * c.numTasks else 0
  }

  /** The last collection of agent group `g`. */
  function LastIn(cols: seq<TopoCollection>, g: string): Option<TopoCollection> {
    if cols == [] then None else
    var c := cols[|cols| - 1];
    if Group(c) == g then Some(c) else LastIn(cols[..|cols| - 1], g)
  }

  /** The last collection of this name. */
  function LastNamed(cols: seq<TopoCollection>, name: string): Option<TopoCollection> {
    if cols == [] then None else
    var c := cols[|cols| - 1];
    if c.name == name then Some(c) else LastNamed(cols[..|cols| - 1], name)
  }

  /** The first collection of this name that has an agent group. */
  function FirstGrouped(cols: seq<TopoCollection>, name: string): Option<TopoCollection> {
    if cols == [] then None else
    var c, before := cols[|cols| - 1], FirstGrouped(cols[..|cols| - 1], name);
    if before.Some? then before else if c.name == name && Group(c) != "" then Some(c) else None
  }

  /** The agent groups of zone `z`, in the order of the topology. */
  function GroupsOfZone(cols: seq<TopoCollection>, z: string): seq<ZoneGroup> {
    if cols == [] then [] else
    var c := cols[|cols| - 1];
    GroupsOfZone(cols[..|cols| - 1], z) +
    (if Group(c) != "" && ZoneOf(c.reqs) != "" && ZoneOf(c.reqs) == z then [ZoneGroup(c.n, CoresOf(c.reqs), Group(c))]
      else [])
  }

  function InfoOfCollection(c: TopoCollection): CollectionInfo {
    CollectionInfo(ZoneOf(c.reqs), Group(c), c.n, c.n, NMinOf(c.reqs, c.inGroup), CoresOf(c.reqs), c.numTasks,
      c.numTasks * c.n)
  }

  ghost predicate CollectionsMatch(cols: seq<TopoCollection>, collections: map<string, CollectionInfo>) {
    forall name :: (name in collections <==> LastNamed(cols, name).Some?) &&
                   (name in collections ==> collections[name] == InfoOfCollection(LastNamed(cols, name).value))
  }

  /** Agents and slots are sums over the group's collections, everything else is that of the last one. */
  ghost predicate GroupsMatch(cols: seq<TopoCollection>, groups: map<string, AgentGroupInfo>) {
    forall g :: (g in groups <==> LastIn(cols, g).Some?) &&
      (g in groups ==> var c := LastIn(cols, g).value;
        groups[g] == AgentGroupInfo(ZoneOf(c.reqs), AgentsIn(cols, g), NMinOf(c.reqs, c.inGroup), SlotsIn(cols, g),
          CoresOf(c.reqs)))
  }

  ghost predicate NInfoMatches(cols: seq<TopoCollection>, ninfo: map<string, CollectionNInfo>) {
    forall name :: (name in ninfo <==> FirstGrouped(cols, name).Some?) &&
      (name in ninfo ==> var c := FirstGrouped(cols, name).value;
        ninfo[name] == CollectionNInfo(c.n, c.n, NMinOf(c.reqs, c.inGroup), Group(c)))
  }

  ghost predicate ZonesMatch(cols: seq<TopoCollection>, zoneInfo: map<string, seq<ZoneGroup>>) {
    forall z :: (z in zoneInfo <==> GroupsOfZone(cols, z) != []) &&
      (z in zoneInfo ==> zoneInfo[z] == GroupsOfZone(cols, z))
  }

  lemma {:induction false} NothingInAbsentGroup(cols: seq<TopoCollection>, g: string)
    ensures LastIn(cols, g).None? ==> AgentsIn(cols, g) == 0 && SlotsIn(cols, g) == 0
  {
    if cols != [] {
      NothingInAbsentGroup(cols[..|cols| - 1], g);
    }
  }

  lemma CollectionsAppend(cols: seq<TopoCollection>, c: TopoCollection, collections: map<string, CollectionInfo>)
    requires CollectionsMatch(cols, collections)
    ensures CollectionsMatch(cols + [c], collections[c.name := InfoOfCollection(c)])
  {
  }

  method AddAgentGroup(groups: map<string, AgentGroupInfo>, agentGroup: string, zone: string, c: TopoCollection,
                       info: CollectionInfo, ghost cols: seq<TopoCollection>)
    returns (r: map<string, AgentGroupInfo>)
    requires info == InfoOfCollection(c) && agentGroup == Group(c) && zone == ZoneOf(c.reqs)
    requires GroupsMatch(cols, groups)
    ensures GroupsMatch(cols + [c], r)
  {
    assert (cols + [c])[..|cols|] == cols;
    NothingInAbsentGroup(cols, agentGroup);
    if agentGroup !in groups {
      r := groups[agentGroup := AgentGroupInfo(zone, c.n, info.nMin, c.numTasks, info.nCores)];
    } else {
      var agi := groups[agentGroup];
      r := groups[agentGroup := AgentGroupInfo(zone, agi.numAgents + c.n, info.nMin, agi.numSlots + c.numTasks,
        info.nCores)];
    }
  }

  method AddNInfo(ninfo: map<string, CollectionNInfo>, agentGroup: string, c: TopoCollection, info: CollectionInfo,
                  ghost cols: seq<TopoCollection>)
    returns (r: map<string, CollectionNInfo>)
    requires info == InfoOfCollection(c) && agentGroup == Group(c)
    requires NInfoMatches(cols, ninfo)
    ensures NInfoMatches(cols + [c], r)
  {
    assert (cols + [c])[..|cols|] == cols;
    r := ninfo;
    if agentGroup != "" && c.name !in ninfo {
      r := ninfo[c.name := CollectionNInfo(c.n, c.n, info.nMin, agentGroup)];
    }
  }

  method AddZoneGroup(zoneInfo: map<string, seq<ZoneGroup>>, agentGroup: string, zone: string, c: TopoCollection,
                      info: CollectionInfo, ghost cols: seq<TopoCollection>)
    returns (r: map<string, seq<ZoneGroup>>)
    requires info == InfoOfCollection(c) && agentGroup == Group(c) && zone == ZoneOf(c.reqs)
    requires ZonesMatch(cols, zoneInfo)
    ensures ZonesMatch(cols + [c], r)
  {
    assert (cols + [c])[..|cols|] == cols;
    r := zoneInfo;
    if agentGroup != "" && zone != "" {
      if zone !in zoneInfo {
        r := zoneInfo[zone := [ZoneGroup(c.n, info.nCores, agentGroup)]];
      } else {
        r := zoneInfo[zone := zoneInfo[zone] + [ZoneGroup(c.n, info.nCores, agentGroup)]];
      }
    }
  }

  // ---------------------------------------------------------------- submission parameters

  /** The parameter set for a whole agent group; the numbers become unsigned. */
  function ParamsOf(rms: string, zoneCfgs: map<string, ZoneConfig>, g: string, info: AgentGroupInfo): SubmitParams {
    var known := info.zone in zoneCfgs;
    SubmitParams(rms, info.zone, g,
      if known then zoneCfgs[info.zone].cfgPath else "", if known then zoneCfgs[info.zone].envPath else "",
      ToUint32(info.numAgents), ToUint32(info.minAgents), ToUint32(info.numSlots), ToUint32(info.numCores))
  }

  predicate Split(rms: string, info: AgentGroupInfo) {
    rms == "localhost" && info.numAgents > 1
  }

  function Copies(p: SubmitParams, k: nat): seq<SubmitParams> {
    seq(k, _ => p)
  }

  /** The parameter sets for one agent group: localhost takes one agent at a time. */
  function SetsFor(rms: string, zoneCfgs: map<string, ZoneConfig>, g: string, info: AgentGroupInfo): seq<SubmitParams> {
    var p := ParamsOf(rms, zoneCfgs, g, info);
    if Split(rms, info) then Copies(p.(numAgents := 1), info.numAgents) else [p]
  }

  function SetsInOrder(rms: string, zoneCfgs: map<string, ZoneConfig>, groups: map<string, AgentGroupInfo>,
                       order: seq<string>): seq<SubmitParams>
    requires Elements(order) <= groups.Keys
  {
    if order == [] then []
    else
      var g := order[|order| - 1];
      assert g in Elements(order);
      assert Elements(order[..|order| - 1]) <= Elements(order);
      SetsInOrder(rms, zoneCfgs, groups, order[..|order| - 1]) + SetsFor(rms, zoneCfgs, g, groups[g])
  }

  /** `order` lists every agent group once. */
  ghost predicate Lists(order: seq<string>, groups: map<string, AgentGroupInfo>) {
    Distinct(order) && Elements(order) == groups.Keys
  }

  lemma SetsOfAppend(rms: string, zoneCfgs: map<string, ZoneConfig>, groups: map<string, AgentGroupInfo>,
                     order: seq<string>, g: string)
    requires Elements(order) <= groups.Keys && g in groups
    ensures Elements(order + [g]) == Elements(order) + {g}
    ensures SetsInOrder(rms, zoneCfgs, groups, order + [g]) ==
      SetsInOrder(rms, zoneCfgs, groups, order) + SetsFor(rms, zoneCfgs, g, groups[g])
  {
  }

  /** The parameter sets of all agent groups; the order of the groups is that of an unordered map. */
  method MakeParams(rms: string, zoneCfgs: map<string, ZoneConfig>, groups: map<string, AgentGroupInfo>)
    returns (params: seq<SubmitParams>)
    ensures exists order :: Lists(order, groups) && params == SetsInOrder(rms, zoneCfgs, groups, order)
  {
    params := [];
    ghost var order: seq<string> := [];
    var todo := groups.Keys;
    while todo != {}
      invariant Distinct(order) && todo !! Elements(order) && Elements(order) + todo == groups.Keys
      invariant params == SetsInOrder(rms, zoneCfgs, groups, order)
      decreases todo
    {
      var groupName :| groupName in todo;
      SetsOfAppend(rms, zoneCfgs, groups, order, groupName);
      var sets := MakeGroupParams(rms, zoneCfgs, groupName, groups[groupName]);
      params := params + sets;
      order := order + [groupName];
      todo := todo - {groupName};
    }
    assert Lists(order, groups);
  }

  method MakeGroupParams(rms: string, zoneCfgs: map<string, ZoneConfig>, groupName: string, groupInfo: AgentGroupInfo)
    returns (params: seq<SubmitParams>)
    ensures params == SetsFor(rms, zoneCfgs, groupName, groupInfo)
  {
    params := [];
    var configFile, envFile := "", "";
    if groupInfo.zone in zoneCfgs {
      envFile := zoneCfgs[groupInfo.zone].envPath;
      configFile := zoneCfgs[groupInfo.zone].cfgPath;
    }
    var par := SubmitParams(rms, groupInfo.zone, groupName, configFile, envFile,
      ToUint32(groupInfo.numAgents), ToUint32(groupInfo.minAgents), ToUint32(groupInfo.numSlots),
        ToUint32(groupInfo.numCores));
    if rms == "localhost" && groupInfo.numAgents > 1 {
      par := par.(numAgents := 1);
      for i := 0 to groupInfo.numAgents - 1
        invariant params == Copies(par, i)
      {
        params := params + [par];
      }
    }
    params := params + [par];
  }

  // ---------------------------------------------------------------- conservation of slots

  /** The slots that the sets of agent group `g` ask for. */
  function SlotsAskedFor(params: seq<SubmitParams>, g: string): nat {
    if params == [] then 0
    else
      var p := params[|params| - 1];
      SlotsAskedFor(params[..|params| - 1], g) + if p.agentGroup == g then p.numAgents * p.numSlots else 0
  }

  /** All slots asked for. */
  function AllSlots(params: seq<SubmitParams>): nat {
    if params == [] then 0
    else
      var p := params[|params| - 1];
      AllSlots(params[..|params| - 1]) + p.numAgents * p.numSlots
  }

  /** What `submit` adds up: each product is one of unsigned 32-bit numbers. */
  function CountedSlots(params: seq<SubmitParams>): nat {
    if params == [] then 0
    else
      var p := params[|params| - 1];
      CountedSlots(params[..|params| - 1]) + (p.numAgents * p.numSlots) % UINT32_RANGE
  }

  lemma {:induction false} SlotsOfConcat(a: seq<SubmitParams>, b: seq<SubmitParams>, g: string)
    ensures SlotsAskedFor(a + b, g) == SlotsAskedFor(a, g) + SlotsAskedFor(b, g)
    ensures AllSlots(a + b) == AllSlots(a) + AllSlots(b)
    decreases |b|
  {
    if b == [] {
      assert a + b == a;
    } else {
      var n := |b| - 1;
      SlotsOfConcat(a, b[..n], g);
      assert (a + b)[..|a + b| - 1] == a + b[..n];
    }
  }

  lemma {:induction false} SlotsOfCopies(p: SubmitParams, k: nat, g: string)
    requires p.numAgents == 1
    ensures SlotsAskedFor(Copies(p, k), g) == if p.agentGroup == g then k * p.numSlots else 0
    ensures AllSlots(Copies(p, k)) == k * p.numSlots
  {
    if k > 0 {
      SlotsOfCopies(p, k - 1, g);
      assert Copies(p, k)[..k - 1] == Copies(p, k - 1);
      assert k * p.numSlots == (k - 1) * p.numSlots + p.numSlots;
    }
  }

  /** The localhost split asks for as many slots as the unsplit set. */
  lemma SlotsOfSets(rms: string, zoneCfgs: map<string, ZoneConfig>, g: string, info: AgentGroupInfo, h: string)
    requires 0 <= info.numAgents < UINT32_RANGE && 0 <= info.numSlots < UINT32_RANGE
    ensures SlotsAskedFor(SetsFor(rms, zoneCfgs, g, info), h) == if g == h then info.numAgents * info.numSlots else 0
    ensures AllSlots(SetsFor(rms, zoneCfgs, g, info)) == info.numAgents * info.numSlots
  {
    var p := ParamsOf(rms, zoneCfgs, g, info);
    if Split(rms, info) {
      SlotsOfCopies(p.(numAgents := 1), info.numAgents, h);
    } else {
      SlotsOfConcat([], [p], h);
      assert [p][..0] == [];
    }
  }

  ghost predicate Fits(groups: map<string, AgentGroupInfo>) {
    forall g :: g in groups ==> 0 <= groups[g].numAgents < UINT32_RANGE && 0 <= groups[g].numSlots < UINT32_RANGE
  }

  lemma {:induction false} SlotsOfOrder(rms: string, zoneCfgs: map<string, ZoneConfig>,
                                        groups: map<string, AgentGroupInfo>, order: seq<string>, g: string)
    requires Distinct(order) && Elements(order) <= groups.Keys && Fits(groups)
    ensures SlotsAskedFor(SetsInOrder(rms, zoneCfgs, groups, order), g) ==
            if g in Elements(order) then groups[g].numAgents * groups[g].numSlots else 0
  {
    if order != [] {
      var n := |order| - 1;
      assert order == order[..n] + [order[n]];
      ElementsOfAppend(order[..n], order[n]);
      SlotsOfOrder(rms, zoneCfgs, groups, order[..n], g);
      SlotsOfConcat(SetsInOrder(rms, zoneCfgs, groups, order[..n]),
        SetsFor(rms, zoneCfgs, order[n], groups[order[n]]), g);
      SlotsOfSets(rms, zoneCfgs, order[n], groups[order[n]], g);
    }
  }

  lemma ProductGrows(a: nat, s: nat, n: nat, k: nat)
    ensures a * s + n * k <= (a + n) * (s + k)
  {
    assert (a + n) * (s + k) == a * s + a * k + n * s + n * k;
  }

  lemma {:induction false} TasksWithinProduct(cols: seq<TopoCollection>, g: string)
    ensures TasksIn(cols, g) <= AgentsIn(cols, g) * SlotsIn(cols, g)
  {
    if cols != [] {
      var n := |cols| - 1;
      TasksWithinProduct(cols[..n], g);
      if Group(cols[n]) == g {
        ProductGrows(AgentsIn(cols[..n], g), SlotsIn(cols[..n], g), cols[n].n, cols[n].numTasks);
      }
    }
  }

  /** Resource coverage: what the sets of an agent group ask for is the product of its agents and slots, split
      for localhost or not, and so at least the number of tasks of all its collections. */
  lemma GroupIsCovered(cols: seq<TopoCollection>, groups: map<string, AgentGroupInfo>, rms: string,
                       zoneCfgs: map<string, ZoneConfig>, order: seq<string>, g: string)
    requires GroupsMatch(cols, groups) && Lists(order, groups) && Fits(groups)
    ensures var asked := SlotsAskedFor(SetsInOrder(rms, zoneCfgs, groups, order), g);
      asked == AgentsIn(cols, g) * SlotsIn(cols, g) && asked >= TasksIn(cols, g)
  {
    SlotsOfOrder(rms, zoneCfgs, groups, order, g);
    TasksWithinProduct(cols, g);
    NothingInAbsentGroup(cols, g);
  }

  /** The slots all agent groups need. */
  function Needed(cols: seq<TopoCollection>, order: seq<string>): nat {
    if order == [] then 0
    else
      var g := order[|order| - 1];
      Needed(cols, order[..|order| - 1]) + AgentsIn(cols, g) * SlotsIn(cols, g)
  }

  lemma {:induction false} AllSlotsNeeded(cols: seq<TopoCollection>, groups: map<string, AgentGroupInfo>, rms: string,
                                          zoneCfgs: map<string, ZoneConfig>, order: seq<string>)
    requires GroupsMatch(cols, groups) && Elements(order) <= groups.Keys && Fits(groups)
    ensures AllSlots(SetsInOrder(rms, zoneCfgs, groups, order)) == Needed(cols, order)
  {
    if order != [] {
      var n := |order| - 1;
      assert order == order[..n] + [order[n]];
      ElementsOfAppend(order[..n], order[n]);
      AllSlotsNeeded(cols, groups, rms, zoneCfgs, order[..n]);
      var sets := SetsFor(rms, zoneCfgs, order[n], groups[order[n]]);
      SlotsOfConcat(SetsInOrder(rms, zoneCfgs, groups, order[..n]), sets, "");
      SlotsOfSets(rms, zoneCfgs, order[n], groups[order[n]], "");
    }
  }

  /** What `submit` counts is what the sets ask for if and only if no product overflows 32 bits; else it counts less. */
  lemma {:induction false} CountedExactly(params: seq<SubmitParams>)
    ensures CountedSlots(params) <= AllSlots(params)
    ensures CountedSlots(params) == AllSlots(params) <==>
      forall p :: p in params ==> p.numAgents * p.numSlots < UINT32_RANGE
  {
    if params != [] {
      var n := |params| - 1;
      CountedExactly(params[..n]);
      assert params == params[..n] + [params[n]];
      WrapShrinks(params[n].numAgents * params[n].numSlots);
    }
  }

  lemma WrapShrinks(product: nat)
    ensures product % UINT32_RANGE <= product
    ensures product % UINT32_RANGE == product <==> product < UINT32_RANGE
  {
  }

  lemma ProductOfSets(rms: string, zoneCfgs: map<string, ZoneConfig>, g: string, info: AgentGroupInfo, p: SubmitParams)
    requires 0 <= info.numAgents < UINT32_RANGE && 0 <= info.numSlots < UINT32_RANGE
    requires p in SetsFor(rms, zoneCfgs, g, info)
    ensures p.numAgents * p.numSlots < UINT32_RANGE <==>
      Split(rms, info) || info.numAgents * info.numSlots < UINT32_RANGE
  {
  }

  lemma {:induction false} ProductsOfOrder(rms: string, zoneCfgs: map<string, ZoneConfig>,
                                           groups: map<string, AgentGroupInfo>, order: seq<string>)
    requires Elements(order) <= groups.Keys && Fits(groups)
    ensures (forall p :: p in SetsInOrder(rms, zoneCfgs, groups, order) ==>
      p.numAgents * p.numSlots < UINT32_RANGE) <==>
            (forall g :: g in Elements(order) ==>
              Split(rms, groups[g]) || groups[g].numAgents * groups[g].numSlots < UINT32_RANGE)
  {
    if order != [] {
      var n := |order| - 1;
      assert order == order[..n] + [order[n]];
      ElementsOfAppend(order[..n], order[n]);
      ProductsOfOrder(rms, zoneCfgs, groups, order[..n]);
      var sets := SetsFor(rms, zoneCfgs, order[n], groups[order[n]]);
      forall p | p in sets
        ensures p.numAgents * p.numSlots < UINT32_RANGE <==>
                Split(rms, groups[order[n]]) || groups[order[n]].numAgents * groups[order[n]].numSlots < UINT32_RANGE
      {
        ProductOfSets(rms, zoneCfgs, order[n], groups[order[n]], p);
      }
      assert sets[0] in sets;
    }
  }

  /** A clean submission of the extracted resources raises the slots of the session by exactly what the agent
      groups need if and only if no agent group submitted in one set needs 2^32 slots or more. */
  lemma SubmissionCountsNeed(cols: seq<TopoCollection>, groups: map<string, AgentGroupInfo>, rms: string,
                             zoneCfgs: map<string, ZoneConfig>, order: seq<string>)
    requires GroupsMatch(cols, groups) && Lists(order, groups) && Fits(groups)
    ensures CountedSlots(SetsInOrder(rms, zoneCfgs, groups, order)) == Needed(cols, order) <==>
            forall g :: g in groups ==> Split(rms, groups[g]) || AgentsIn(cols, g) * SlotsIn(cols, g) < UINT32_RANGE
  {
    AllSlotsNeeded(cols, groups, rms, zoneCfgs, order);
    CountedExactly(SetsInOrder(rms, zoneCfgs, groups, order));
    ProductsOfOrder(rms, zoneCfgs, groups, order);
    assert forall g :: g in groups <==> g in Elements(order);
  }

  // ---------------------------------------------------------------- the session

  class Session {
    var collections: map<string, CollectionInfo>
    var agentGroups: map<string, AgentGroupInfo>
    var ninfo: map<string, CollectionNInfo>
    var zoneInfo: map<string, seq<ZoneGroup>>
    var expendable: set<TaskId>
    var standalone: seq<TaskInfo>
    var totalSlots: nat

    constructor ()
      ensures totalSlots == 0 && expendable == {}
    {
      collections, agentGroups, ninfo, zoneInfo := map[], map[], map[], map[];
      expendable, standalone, totalSlots := {}, [], 0;
    }

    /** The session's maps hold what these collections ask for. */
    ghost predicate Holds(cols: seq<TopoCollection>)
      reads this
    {
      CollectionsMatch(cols, collections) && GroupsMatch(cols, agentGroups) && NInfoMatches(cols, ninfo) &&
        ZonesMatch(cols, zoneInfo)
    }

    method AddCollection(agentGroup: string, zone: string, nCores: int, nMin: int, c: TopoCollection,
                         ghost cols: seq<TopoCollection>)
      requires Holds(cols)
      requires agentGroup == Group(c) && zone == ZoneOf(c.reqs) && nCores == CoresOf(c.reqs) &&
        nMin == NMinOf(c.reqs, c.inGroup)
      modifies `collections, `agentGroups, `ninfo, `zoneInfo
      ensures Holds(cols + [c])
    {
      var info := CollectionInfo(zone, agentGroup, c.n, c.n, nMin, nCores, c.numTasks, c.numTasks * c.n);
      CollectionsAppend(cols, c, collections);
      collections := collections[c.name := info];
      agentGroups := AddAgentGroup(agentGroups, agentGroup, zone, c, info, cols);
      ninfo := AddNInfo(ninfo, agentGroup, c, info, cols);
      zoneInfo := AddZoneGroup(zoneInfo, agentGroup, zone, c, info, cols);
    }

    /** The expendable tasks of an earlier topology stay. */
    method Clear()
      modifies `collections, `agentGroups, `ninfo, `zoneInfo, `standalone
      ensures Holds([]) && standalone == []
    {
      ninfo, zoneInfo, standalone, collections, agentGroups := map[], map[], [], map[], map[];
    }

    /** Fills the session. A number that cannot be read throws in the middle of it: the maps then hold the
        collections up to that one. Expendable tasks are only ever added. */
    method ExtractRequirements(runtime: seq<FlaggedTask>, tasks: seq<TopoTask>, cols: seq<TopoCollection>)
      returns (o: Outcome, ghost done: seq<TopoCollection>)
      modifies `collections, `agentGroups, `ninfo, `zoneInfo, `expendable, `standalone
      ensures expendable == old(expendable) + Expendables(runtime) && standalone == Standalone(tasks)
      ensures Holds(done) && done <= cols
      ensures forall c :: c in done ==> Readable(c)
      ensures if o == Returned then done == cols else |done| < |cols| && !Readable(cols[|done|])
    {
      Clear();
      expendable := ReadExpendables(runtime, expendable);
      standalone := ReadStandalone(tasks);
      o, done := ExtractCollections(cols);
    }

    method ExtractCollections(cols: seq<TopoCollection>) returns (o: Outcome, ghost done: seq<TopoCollection>)
      requires Holds([])
      modifies `collections, `agentGroups, `ninfo, `zoneInfo
      ensures Holds(done) && done <= cols
      ensures forall c :: c in done ==> Readable(c)
      ensures if o == Returned then done == cols else |done| < |cols| && !Readable(cols[|done|])
    {
      done := [];
      for i := 0 to |cols|
        invariant Holds(done) && done <= cols && |done| == i
        invariant forall c :: c in done ==> Readable(c)
      {
        var c := cols[i];
        var read, agentGroup, zone, nCores, nMin := ReadRequirements(c);
        if read == Threw {
          return Threw, done;
        }
        AddCollection(agentGroup, zone, nCores, nMin, c, done);
        done := done + [c];
      }
      return Returned, done;
    }

    /** Submits the parameter sets one by one. What others answer is given: `made` are the sets, unless making
        them threw; DDS says which submissions it accepts, whether the slots appear in time, whether the session
        runs before and after, the agent groups of the agents it launched, and what recovery finds out. */
    method Submit(running: bool, made: Option<seq<SubmitParams>>, accepted: seq<bool>, arrived: bool,
                  stillRunning: bool, agents: Option<seq<string>>, numSlots: Option<nat>, updated: bool)
      returns (ok: bool)
      requires made.Some? ==> |accepted| == |made.value|
      modifies `totalSlots, `ninfo
      ensures !running || made.None? ==> !ok && totalSlots == old(totalSlots) && ninfo == old(ninfo)
      ensures running && made.Some? ==>
        var params, clean := made.value, arrived && forall i :: 0 <= i < |accepted| ==> accepted[i];
        var counts, trouble := CountsOf(params, agents), stillRunning && !(clean && agents.Some?);
        && ok == (if trouble then Recoverable(params, counts) && numSlots.Some? && updated else clean)
        && if trouble && Recoverable(params, counts) && numSlots.Some? then
             totalSlots == numSlots.value && Corrected(old(ninfo), counts, ninfo)
           else
             totalSlots == old(totalSlots) + (if clean then CountedSlots(params) else 0) && ninfo == old(ninfo)
    {
      if !running || made.None? {
        return false;
      }
      var params := made.value;
      ok := SubmitAll(params, accepted, arrived);
      if stillRunning {
        var agentCounts := CountAgents(params, agents);
        if agents.None? {
          ok := false;
        }
        if !ok {
          ok := AttemptRecovery(params, agentCounts, numSlots, updated);
        }
      }
    }

    /** Submits until a set is refused and waits for the slots if none is. */
    method SubmitAll(params: seq<SubmitParams>, accepted: seq<bool>, arrived: bool) returns (ok: bool)
      requires |accepted| == |params|
      modifies `totalSlots
      ensures ok <==> arrived && forall i :: 0 <= i < |accepted| ==> accepted[i]
      ensures totalSlots == old(totalSlots) + if ok then CountedSlots(params) else 0
    {
      var expectedNumSlots := totalSlots;
      for i := 0 to |params|
        invariant expectedNumSlots == totalSlots + CountedSlots(params[..i])
        invariant forall j :: 0 <= j < i ==> accepted[j]
      {
        if !accepted[i] {
          return false;
        }
        assert params[..i + 1][..i] == params[..i];
        expectedNumSlots := expectedNumSlots + (params[i].numAgents * params[i].numSlots) % UINT32_RANGE;
      }
      assert params[..|params|] == params;
      if arrived {
        totalSlots := expectedNumSlots;
      }
      return arrived;
    }

    /** Accepts fewer agents than requested where nMin allows it. It corrects `ninfo` and the slots; the
        collections keep the count they were extracted with. */
    method AttemptRecovery(params: seq<SubmitParams>, agentCounts: map<string, nat>, numSlots: Option<nat>,
                           updated: bool)
      returns (ok: bool)
      requires forall p :: p in params ==> p.agentGroup in agentCounts
      modifies `totalSlots, `ninfo
      ensures ok <==> Recoverable(params, agentCounts) && numSlots.Some? && updated
      ensures if Recoverable(params, agentCounts) && numSlots.Some?
        then totalSlots == numSlots.value && Corrected(old(ninfo), agentCounts, ninfo)
        else totalSlots == old(totalSlots) && ninfo == old(ninfo)
    {
      for i := 0 to |params|
        invariant forall j :: 0 <= j < i ==> EnoughAgents(params[j], agentCounts)
      {
        var p := params[i];
        assert p in params;
        var actualCount := agentCounts[p.agentGroup];
        if p.numAgents != actualCount {
          if p.minAgents == 0 {
            return false;
          }
          if actualCount < p.minAgents {
            return false;
          }
        }
      }
      if numSlots.None? {
        return false;
      }
      totalSlots := numSlots.value;
      ninfo := CorrectNInfo(ninfo, agentCounts);
      return updated;
    }
  }

  predicate EnoughAgents(p: SubmitParams, counts: map<string, nat>)
  {
    p.agentGroup in counts &&
    (counts[p.agentGroup] == p.numAgents || (p.minAgents != 0 && counts[p.agentGroup] >= p.minAgents))
  }

  ghost predicate Recoverable(params: seq<SubmitParams>, counts: map<string, nat>) {
    forall i :: 0 <= i < |params| ==> EnoughAgents(params[i], counts)
  }

  /** `after` is `before` with the counts of the launched agents. */
  ghost predicate Corrected(before: map<string, CollectionNInfo>, counts: map<string, nat>,
                            after: map<string, CollectionNInfo>) {
    after.Keys == before.Keys && forall name :: name in before ==>
      after[name] == if before[name].agentGroup in counts
        then before[name].(nCurrent := counts[before[name].agentGroup]) else before[name]
  }

  method CorrectNInfo(ninfo: map<string, CollectionNInfo>, counts: map<string, nat>)
    returns (r: map<string, CollectionNInfo>)
    ensures Corrected(ninfo, counts, r)
  {
    r := ninfo;
    var todo := ninfo.Keys;
    while todo != {}
      invariant todo <= ninfo.Keys == r.Keys
      invariant forall name :: name in ninfo ==>
        r[name] == if name !in todo && ninfo[name].agentGroup in counts
          then ninfo[name].(nCurrent := counts[ninfo[name].agentGroup]) else ninfo[name]
      decreases todo
    {
      var name :| name in todo;
      if r[name].agentGroup in counts {
        r := r[name := r[name].(nCurrent := counts[r[name].agentGroup])];
      }
      todo := todo - {name};
    }
  }

  /** The launched agents by group; a group that was asked for counts 0 if none of its agents was launched. */
  ghost function CountsOf(params: seq<SubmitParams>, agents: Option<seq<string>>): map<string, nat> {
    var launched := if agents.Some? then agents.value else [];
    map g | g in GroupNames(params) + Elements(launched) :: Occurrences(launched, g)
  }

  ghost function GroupNames(params: seq<SubmitParams>): set<string> {
    set i | 0 <= i < |params| :: params[i].agentGroup
  }

  method CountAgents(params: seq<SubmitParams>, agents: Option<seq<string>>) returns (counts: map<string, nat>)
    ensures counts == CountsOf(params, agents)
  {
    counts := map[];
    for i := 0 to |params|
      invariant counts.Keys == GroupNames(params[..i])
      invariant forall g :: g in counts ==> counts[g] == 0
    {
      counts := counts[params[i].agentGroup := 0];
    }
    assert params[..|params|] == params;
    if agents.Some? {
      var launched := agents.value;
      for i := 0 to |launched|
        invariant counts.Keys == GroupNames(params) + Elements(launched[..i])
        invariant forall g :: g in counts ==> counts[g] == Occurrences(launched[..i], g)
      {
        var g := launched[i];
        assert launched[..i + 1] == launched[..i] + [g];
        ElementsOfAppend(launched[..i], g);
        counts := counts[g := (if g in counts then counts[g] else 0) + 1];
      }
      assert launched[..|launched|] == launched;
    }
  }
}
