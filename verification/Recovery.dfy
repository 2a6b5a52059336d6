/** What a recovered submission means for nMin: `attemptSubmitRecovery` (odc/Controller.cpp) corrects the number of
    instances that are started, but not the count `IsExpendable` (odc/Topology.h) works with. */
module Recovery {
  import opened Basics
  import opened AsyncOps
  import opened TopologyDefs
  import opened TopologyModel
  import opened TopologyInvariants
  import opened Expendability
  import opened Resources

  // ---------------------------------------------------------------- when recovery accepts fewer agents

  /** No other collection shares the agent group of the i-th one. */
  ghost predicate AloneInGroup(cols: seq<TopoCollection>, i: nat) {
    i < |cols| && forall j :: 0 <= j < |cols| && j != i ==> Group(cols[j]) != Group(cols[i])
  }

  lemma {:induction false} NothingFrom(cols: seq<TopoCollection>, g: string)
    requires forall j :: 0 <= j < |cols| ==> Group(cols[j]) != g
    ensures AgentsIn(cols, g) == 0 && SlotsIn(cols, g) == 0 && LastIn(cols, g).None?
  {
    if cols != [] {
      NothingFrom(cols[..|cols| - 1], g);
    }
  }

  lemma {:induction false} GroupAlone(cols: seq<TopoCollection>, i: nat)
    requires AloneInGroup(cols, i)
    ensures var g := Group(cols[i]);
      AgentsIn(cols, g) == cols[i].n && SlotsIn(cols, g) == cols[i].numTasks && LastIn(cols, g) == Some(cols[i])
  {
    var n := |cols| - 1;
    if i == n {
      NothingFrom(cols[..n], Group(cols[i]));
    } else {
      GroupAlone(cols[..n], i);
    }
  }

  /** What is extracted for the agent group of such a collection. */
  ghost function GroupInfoOf(c: TopoCollection): AgentGroupInfo {
    AgentGroupInfo(ZoneOf(c.reqs), c.n, NMinOf(c.reqs, c.inGroup), c.numTasks, CoresOf(c.reqs))
  }

  /** Every set for an agent group is among those submitted. */
  lemma {:induction false} SetsContained(rms: string, zoneCfgs: map<string, ZoneConfig>,
                                         groups: map<string, AgentGroupInfo>, order: seq<string>, g: string)
    requires Elements(order) <= groups.Keys && g in order
    ensures g in groups
    ensures forall p :: p in SetsFor(rms, zoneCfgs, g, groups[g]) ==> p in SetsInOrder(rms, zoneCfgs, groups, order)
  {
    var n := |order| - 1;
    assert g in Elements(order);
    assert order == order[..n] + [order[n]];
    if g != order[n] {
      ElementsOfAppend(order[..n], order[n]);
      SetsContained(rms, zoneCfgs, groups, order[..n], g);
    }
  }

  /** Enough agents were launched for the collection's nMin, which is compared as an unsigned number. */
  predicate MeetsNMin(c: TopoCollection, launched: nat) {
    NMinOf(c.reqs, c.inGroup) != 0 && launched >= ToUint32(NMinOf(c.reqs, c.inGroup))
  }

  lemma {:induction false} NMinIsInt32(reqs: seq<Requirement>, inGroup: bool)
    ensures 0 <= NMinOf(reqs, inGroup) + INT32_RANGE < UINT32_RANGE
  {
    if reqs != [] {
      NMinIsInt32(reqs[..|reqs| - 1], inGroup);
    }
  }

  /** Exactly when fewer agents than requested are accepted for it: if they meet nMin; on localhost, where each set
      asks for one agent, also if a single one was launched, whatever nMin is. */
  lemma FewerAcceptedExactly(c: TopoCollection, rms: string, zoneCfgs: map<string, ZoneConfig>,
                             counts: map<string, nat>)
    requires Group(c) in counts && counts[Group(c)] < c.n < UINT32_RANGE
    ensures Recoverable(SetsFor(rms, zoneCfgs, Group(c), GroupInfoOf(c)), counts) <==>
            MeetsNMin(c, counts[Group(c)]) || (rms == "localhost" && counts[Group(c)] == 1)
  {
    NMinIsInt32(c.reqs, c.inGroup);
    var sets := SetsFor(rms, zoneCfgs, Group(c), GroupInfoOf(c));
    assert forall j :: 0 <= j < |sets| ==> sets[j] == sets[0];
    assert Recoverable(sets, counts) <==> EnoughAgents(sets[0], counts);
  }

  // ---------------------------------------------------------------- what that leaves of nMin

  /** Recovery accepted fewer agents than requested for the i-th collection, and the topology was started with as
      many instances of it, knowing the collections by what was extracted. */
  ghost predicate RecoveredWith(cols: seq<TopoCollection>, i: nat, groups: map<string, AgentGroupInfo>, rms: string,
                                zoneCfgs: map<string, ZoneConfig>, order: seq<string>, counts: map<string, nat>,
                                s: Topo)
  {
    && AloneInGroup(cols, i) && LastNamed(cols, cols[i].name) == Some(cols[i])
    && GroupsMatch(cols, groups) && Lists(order, groups)
    && Recoverable(SetsInOrder(rms, zoneCfgs, groups, order), counts)
    && Group(cols[i]) in counts && counts[Group(cols[i])] < cols[i].n < UINT32_RANGE
    && Initial(s) && CollectionsMatch(cols, s.table.info)
    && |Instances(s.table, cols[i].name)| == counts[Group(cols[i])]
  }

  lemma RecoveredAccepts(cols: seq<TopoCollection>, i: nat, groups: map<string, AgentGroupInfo>, rms: string,
                         zoneCfgs: map<string, ZoneConfig>, order: seq<string>, counts: map<string, nat>)
    requires AloneInGroup(cols, i) && GroupsMatch(cols, groups) && Lists(order, groups)
    requires Recoverable(SetsInOrder(rms, zoneCfgs, groups, order), counts)
    ensures Recoverable(SetsFor(rms, zoneCfgs, Group(cols[i]), GroupInfoOf(cols[i])), counts)
  {
    var g, all := Group(cols[i]), SetsInOrder(rms, zoneCfgs, groups, order);
    GroupAlone(cols, i);
    assert g in groups && groups[g] == GroupInfoOf(cols[i]);
    assert g in Elements(order);
    SetsContained(rms, zoneCfgs, groups, order, g);
    var sets := SetsFor(rms, zoneCfgs, g, groups[g]);
    forall j | 0 <= j < |sets| ensures EnoughAgents(sets[j], counts) {
      assert sets[j] in all;
    }
  }

  /** Some run of `s` leaves fewer instances of the collection than its nMin. */
  ghost predicate Undercuts(s: Topo, c: TopoCollection) {
    exists es :: |Survivors(RunFrom(s, es).table, c.name)| < NMinOf(c.reqs, c.inGroup)
  }

  /** After a recovery that accepted fewer agents for a collection, a run exists that leaves fewer instances than
      nMin if and only if enough instances can fail for the number that was requested. */
  lemma RecoveredUndercutsNMin(cols: seq<TopoCollection>, i: nat, groups: map<string, AgentGroupInfo>, rms: string,
                               zoneCfgs: map<string, ZoneConfig>, order: seq<string>, counts: map<string, nat>,
                               s: Topo)
    requires RecoveredWith(cols, i, groups, rms, zoneCfgs, order, counts, s)
    ensures var c := cols[i]; var launched, nMin := counts[Group(c)], NMinOf(c.reqs, c.inGroup);
      && (MeetsNMin(c, launched) || (rms == "localhost" && launched == 1))
      && (Undercuts(s, c) <==>
            0 < nMin && launched - Min(|Fallible(s.table, c.name)|, Max(0, c.n - nMin)) < nMin)
  {
    var c := cols[i];
    RecoveredAccepts(cols, i, groups, rms, zoneCfgs, order, counts);
    FewerAcceptedExactly(c, rms, zoneCfgs, counts);
    RecoveredFewest(cols, c, s);
  }

  lemma NMinExtracted(cols: seq<TopoCollection>, c: TopoCollection, t: Table)
    requires CollectionsMatch(cols, t.info) && LastNamed(cols, c.name) == Some(c)
    ensures c.name in t.info && t.info[c.name].nMin == NMinOf(c.reqs, c.inGroup)
    ensures FewestLeft(t, c.name) ==
            |Instances(t, c.name)| - Min(|Fallible(t, c.name)|, Max(0, c.n - NMinOf(c.reqs, c.inGroup)))
  {
  }

  lemma RecoveredFewest(cols: seq<TopoCollection>, c: TopoCollection, s: Topo)
    requires Initial(s) && CollectionsMatch(cols, s.table.info) && LastNamed(cols, c.name) == Some(c)
    ensures var launched, nMin := |Instances(s.table, c.name)|, NMinOf(c.reqs, c.inGroup);
      Undercuts(s, c) <==>
        0 < nMin && launched - Min(|Fallible(s.table, c.name)|, Max(0, c.n - nMin)) < nMin
  {
    NMinExtracted(cols, c, s.table);
    NMinKeptExactly(s, c.name);
    var nMin := s.table.info[c.name].nMin;
    if Undercuts(s, c) {
      var es :| |Survivors(RunFrom(s, es).table, c.name)| < nMin;
      assert !(|Survivors(RunFrom(s, es).table, c.name)| >= nMin);
    } else {
      forall es ensures |Survivors(RunFrom(s, es).table, c.name)| >= nMin {
      }
    }
  }

  // ---------------------------------------------------------------- a concrete case

  /** Two instances are asked for, one is enough. */
  const Calib: TopoCollection := TopoCollection("calib", true, 2, 1, [GroupName("calib"), NMin(Some(1))])

  /** One instance, of one device, was started. */
  const Recovered: Topo :=
    Topo(Table([DeviceStatus(false, false, false, Undefined, Undefined, 1, 5, -1, -1)], map[1 := 0], 0,
               map[5 := Calib.name], map[Calib.name := InfoOfCollection(Calib)], {}),
         map[], map[], map[], map[], map[])

  const CalibGroups: map<string, AgentGroupInfo> := map["calib" := AgentGroupInfo("calib", 2, 1, 1, 0)]

  lemma CalibReads()
    ensures Group(Calib) == ZoneOf(Calib.reqs) == "calib"
    ensures NMinOf(Calib.reqs, Calib.inGroup) == 1 && CoresOf(Calib.reqs) == 0
  {
    var first := [GroupName("calib")];
    assert Calib.reqs[..1] == first;
    assert first[..0] == [];
    assert NMinOf(Calib.reqs, true) == ToInt32(1);
  }

  lemma CalibExtracted()
    ensures AloneInGroup([Calib], 0) && LastNamed([Calib], Calib.name) == Some(Calib)
    ensures GroupsMatch([Calib], CalibGroups) && CollectionsMatch([Calib], Recovered.table.info)
  {
    CalibReads();
    assert [Calib][..0] == [];
    assert forall name :: LastNamed([Calib], name) == if name == Calib.name then Some(Calib) else None;
    assert forall g :: LastIn([Calib], g) == if g == "calib" then Some(Calib) else None;
    GroupAlone([Calib], 0);
  }

  lemma CalibSubmitted()
    ensures Lists(["calib"], CalibGroups)
    ensures SetsInOrder("slurm", map[], CalibGroups, ["calib"]) ==
            [SubmitParams("slurm", "calib", "calib", "", "", 2, 1, 1, 0)]
  {
    assert ["calib"][..0] == [];
    assert SetsInOrder("slurm", map[], CalibGroups, []) == [];
  }

  lemma CalibStarted()
    ensures Constructed(Recovered) && Instances(Recovered.table, Calib.name) == {5}
    ensures Fallible(Recovered.table, Calib.name) == {5}
  {
    assert Recovered.table.devices[0].collectionId == 5;
    assert Instances(Recovered.table, Calib.name) == {5};
    assert HasHard(Recovered.table, 5);
    assert Fallible(Recovered.table, Calib.name) == {5};
  }

  /** Such a recovery happens: one agent of two was launched, which meets nMin, and a run leaves no instance. */
  lemma RecoveryLeavesTooFew()
    ensures RecoveredWith([Calib], 0, CalibGroups, "slurm", map[], ["calib"], map["calib" := 1], Recovered)
    ensures Constructed(Recovered) && MeetsNMin(Calib, 1) && Undercuts(Recovered, Calib)
  {
    CalibReads();
    CalibExtracted();
    CalibSubmitted();
    CalibStarted();
    RecoveredUndercutsNMin([Calib], 0, CalibGroups, "slurm", map[], ["calib"], map["calib" := 1], Recovered);
  }
}
