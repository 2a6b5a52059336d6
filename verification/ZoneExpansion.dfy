/** The parameter sets a resource plugin provides, extended by the zones of the topology: the second
    `makeParams` (odc/DDSSubmit.h). */
module ZoneExpansion {
  import opened Basics
  import opened AsyncOps
  import opened Resources

  /** A zone of the topology and its agent groups. */
  datatype Zone = Zone(name: string, groups: seq<ZoneGroup>)

  /** The position of the first set for this zone, or the number of sets if there is none. */
  function FirstOf(params: seq<SubmitParams>, zone: string): (i: nat)
    ensures i <= |params|
    ensures i < |params| ==> params[i].zone == zone
    ensures forall j :: 0 <= j < i ==> params[j].zone != zone
  {
    if params == [] || params[0].zone == zone then 0 else FirstOf(params[1..], zone) + 1
  }

  /** The set found for a zone after it was given to the zone's first agent group. */
  function Head(p: SubmitParams, groups: seq<ZoneGroup>): SubmitParams
    requires groups != []
  {
    var cores := ToUint32(groups[0].nCores);
    p.(numCores := cores, agentGroup := groups[0].agentGroup, numAgents := if cores != 0 then 1 else p.numAgents)
  }

  /** The set for a further agent group of the zone. */
  function Copy(head: SubmitParams, group: ZoneGroup): SubmitParams {
    head.(numCores := ToUint32(group.nCores), agentGroup := group.agentGroup)
  }

  ghost function Expand(params: seq<SubmitParams>, z: Zone): seq<SubmitParams>
    requires FirstOf(params, z.name) < |params| && z.groups != []
  {
    var i := FirstOf(params, z.name);
    var head := Head(params[i], z.groups);
    params[i := head] + seq(|z.groups| - 1, k requires 0 <= k < |z.groups| - 1 => Copy(head, z.groups[k + 1]))
  }

  ghost predicate DistinctNames(zones: seq<Zone>) {
    forall i, j :: 0 <= i < j < |zones| ==> zones[i].name != zones[j].name
  }

  /** The sets added for these zones: one for every agent group but the first. */
  ghost function Extra(zones: seq<Zone>): nat {
    if zones == [] then 0
    else Extra(zones[..|zones| - 1]) + if zones[|zones| - 1].groups == [] then 0 else |zones[|zones| - 1].groups| - 1
  }

  // ---------------------------------------------------------------- what the zone loop produces

  /** Where the set for agent group `k` of zone `zi` is. */
  ghost function Place(params: seq<SubmitParams>, zones: seq<Zone>, zi: nat, k: nat): nat
    requires zi < |zones|
  {
    if k == 0 then FirstOf(params, zones[zi].name) else |params| + Extra(zones[..zi]) + k - 1
  }

  /** What that set is. */
  ghost function SetFor(params: seq<SubmitParams>, zones: seq<Zone>, zi: nat, k: nat): SubmitParams
    requires zi < |zones| && k < |zones[zi].groups| && FirstOf(params, zones[zi].name) < |params|
  {
    var head := Head(params[FirstOf(params, zones[zi].name)], zones[zi].groups);
    if k == 0 then head else Copy(head, zones[zi].groups[k])
  }

  /** The plugin's own sets keep their place and zone. */
  ghost predicate SameZones(params: seq<SubmitParams>, r: seq<SubmitParams>) {
    |params| <= |r| && forall i :: 0 <= i < |params| ==> r[i].zone == params[i].zone
  }

  /** The set for agent group `k` of zone `zi` is at its place. */
  ghost predicate Placed(params: seq<SubmitParams>, zones: seq<Zone>, r: seq<SubmitParams>, zi: nat, k: nat)
    requires zi < |zones| && k < |zones[zi].groups| && FirstOf(params, zones[zi].name) < |params|
  {
    Place(params, zones, zi, k) < |r| && r[Place(params, zones, zi, k)] == SetFor(params, zones, zi, k)
  }

  /** `i` is not the set found for any of the zones. */
  ghost predicate NotChosen(params: seq<SubmitParams>, zones: seq<Zone>, i: nat) {
    forall zi :: 0 <= zi < |zones| ==> FirstOf(params, zones[zi].name) != i
  }

  /** `r` holds a set for every agent group of every zone, at its place, and the plugin's other sets unchanged. */
  ghost predicate Expanded(params: seq<SubmitParams>, zones: seq<Zone>, r: seq<SubmitParams>) {
    && (forall zi :: 0 <= zi < |zones| ==> zones[zi].groups != [] && FirstOf(params, zones[zi].name) < |params|)
    && |r| == |params| + Extra(zones)
    && SameZones(params, r)
    && (forall zi, k :: 0 <= zi < |zones| && 0 <= k < |zones[zi].groups| ==> Placed(params, zones, r, zi, k))
    && (forall i :: 0 <= i < |params| && NotChosen(params, zones, i) ==> r[i] == params[i])
  }

  lemma FirstOfSame(params: seq<SubmitParams>, r: seq<SubmitParams>, zone: string)
    requires SameZones(params, r)
    ensures FirstOf(params, zone) < |params| ==> FirstOf(r, zone) == FirstOf(params, zone)
    ensures FirstOf(params, zone) == |params| ==> FirstOf(r, zone) >= |params|
  {
  }

  lemma ExpandShape(r: seq<SubmitParams>, z: Zone)
    requires FirstOf(r, z.name) < |r| && z.groups != []
    ensures var i, e := FirstOf(r, z.name), Expand(r, z);
      && |e| == |r| + |z.groups| - 1
      && e[i] == Head(r[i], z.groups)
      && (forall j :: 0 <= j < |r| && j != i ==> e[j] == r[j])
      && (forall k :: 1 <= k < |z.groups| ==> e[|r| + k - 1] == Copy(Head(r[i], z.groups), z.groups[k]))
  {
  }

  lemma ExtraOfPrefix(zones: seq<Zone>, z: Zone, zi: nat)
    requires zi <= |zones|
    ensures (zones + [z])[..zi] == zones[..zi]
    ensures Extra(zones + [z]) == Extra(zones) + if z.groups == [] then 0 else |z.groups| - 1
  {
  }

  /** What was added for zone `zi` was added before what was added for later zones. */
  lemma {:induction false} ExtraGrows(zones: seq<Zone>, zi: nat)
    requires zi < |zones| && zones[zi].groups != []
    ensures Extra(zones[..zi]) + |zones[zi].groups| - 1 <= Extra(zones)
  {
    var n := |zones| - 1;
    if zi == n {
    } else {
      ExtraGrows(zones[..n], zi);
      assert zones[..n][..zi] == zones[..zi];
    }
  }

  /** The sets placed for earlier zones stay. */
  lemma EarlierStay(params: seq<SubmitParams>, zones: seq<Zone>, r: seq<SubmitParams>, z: Zone, zi: nat, k: nat)
    requires Expanded(params, zones, r) && z.groups != [] && FirstOf(params, z.name) < |params|
    requires zi < |zones| && k < |zones[zi].groups| && zones[zi].name != z.name
    requires FirstOf(r, z.name) == FirstOf(params, z.name)
    ensures Placed(params, zones + [z], Expand(r, z), zi, k)
  {
    ExpandShape(r, z);
    ExtraOfPrefix(zones, z, zi);
    assert Placed(params, zones, r, zi, k);
    assert params[FirstOf(params, z.name)].zone == z.name;
    assert Place(params, zones, zi, k) == Place(params, zones + [z], zi, k);
    assert Place(params, zones, zi, k) != FirstOf(params, z.name);
  }

  lemma NewPlaced(params: seq<SubmitParams>, zones: seq<Zone>, r: seq<SubmitParams>, z: Zone, k: nat)
    requires |r| == |params| + Extra(zones) && FirstOf(params, z.name) < |params| && k < |z.groups|
    requires FirstOf(r, z.name) == FirstOf(params, z.name)
    requires r[FirstOf(params, z.name)] == params[FirstOf(params, z.name)]
    ensures Placed(params, zones + [z], Expand(r, z), |zones|, k)
  {
    ExpandShape(r, z);
    ExtraOfPrefix(zones, z, |zones|);
    var place := Place(params, zones + [z], |zones|, k);
    assert (zones + [z])[|zones|] == z;
    assert place == if k == 0 then FirstOf(r, z.name) else |r| + k - 1;
  }

  /** One more zone. */
  lemma ExpandKeepsExpanded(params: seq<SubmitParams>, zones: seq<Zone>, r: seq<SubmitParams>, z: Zone)
    requires Expanded(params, zones, r) && DistinctNames(zones + [z])
    requires FirstOf(r, z.name) < |r| && z.groups != [] && FirstOf(params, z.name) < |params|
    ensures Expanded(params, zones + [z], Expand(r, z))
  {
    var more, e, first := zones + [z], Expand(r, z), FirstOf(params, z.name);
    FirstOfSame(params, r, z.name);
    ExpandShape(r, z);
    ExtraOfPrefix(zones, z, |zones|);
    assert forall zi :: 0 <= zi < |zones| ==> more[zi] == zones[zi] && zones[zi].name != more[|zones|].name;
    assert NotChosen(params, zones, first);
    forall zi, k | 0 <= zi < |more| && 0 <= k < |more[zi].groups| ensures Placed(params, more, e, zi, k) {
      if zi < |zones| {
        EarlierStay(params, zones, r, z, zi, k);
      } else {
        NewPlaced(params, zones, r, z, k);
      }
    }
    forall i | 0 <= i < |params| && NotChosen(params, more, i) ensures e[i] == params[i] {
      assert NotChosen(params, zones, i);
      assert FirstOf(params, more[|zones|].name) != i;
    }
  }

  /** The plugin provided every zone of the topology, and every zone has agent groups. */
  ghost predicate AllProvided(params: seq<SubmitParams>, zones: seq<Zone>) {
    forall zi :: 0 <= zi < |zones| ==>
      zones[zi].groups != [] && exists i :: 0 <= i < |params| && params[i].zone == zones[zi].name
  }

  lemma FoundIffProvided(params: seq<SubmitParams>, zone: string)
    ensures FirstOf(params, zone) < |params| <==> exists i :: 0 <= i < |params| && params[i].zone == zone
  {
  }

  /** One round of the loop: throws if the zone is missing or has no agent groups. */
  method ExpandZone(params: seq<SubmitParams>, zone: Zone) returns (o: Outcome, r: seq<SubmitParams>)
    ensures o == Returned <==> FirstOf(params, zone.name) < |params| && zone.groups != []
    ensures o == Returned ==> r == Expand(params, zone)
  {
    r := params;
    var found := 0;
    while found < |params| && params[found].zone != zone.name
      invariant found <= |params|
      invariant forall j :: 0 <= j < found ==> params[j].zone != zone.name
    {
      found := found + 1;
    }
    assert found == FirstOf(params, zone.name);
    if found == |params| || zone.groups == [] {
      return Threw, r;
    }
    r := r[found := r[found].(numCores := ToUint32(zone.groups[0].nCores))];
    r := r[found := r[found].(agentGroup := zone.groups[0].agentGroup)];
    if r[found].numCores != 0 {
      r := r[found := r[found].(numAgents := 1)];
    }
    r := AddCopies(r, r[found], zone.groups);
    return Returned, r;
  }

  /** One more set for each further agent group. */
  method AddCopies(params: seq<SubmitParams>, tempParams: SubmitParams, groups: seq<ZoneGroup>)
    returns (r: seq<SubmitParams>)
    requires groups != []
    ensures r == params + seq(|groups| - 1, k requires 0 <= k < |groups| - 1 => Copy(tempParams, groups[k + 1]))
  {
    r := params;
    for i := 1 to |groups|
      invariant r == params + seq(i - 1, k requires 0 <= k < i - 1 => Copy(tempParams, groups[k + 1]))
    {
      r := r + [tempParams];
      var last := |r| - 1;
      r := r[last := r[last].(numCores := ToUint32(groups[i].nCores), agentGroup := groups[i].agentGroup)];
    }
  }

  /** A zone the plugin did not provide is not found among the sets added for other zones either. */
  lemma FoundOnlyIfProvided(params: seq<SubmitParams>, zones: seq<Zone>, r: seq<SubmitParams>, z: Zone)
    requires Expanded(params, zones, r) && DistinctNames(zones + [z])
    ensures FirstOf(r, z.name) < |r| <==> FirstOf(params, z.name) < |params|
  {
    FirstOfSame(params, r, z.name);
    forall i | |params| <= i < |r| ensures r[i].zone != z.name {
      var zi := ZoneOfAdded(params, zones, r, i);
      assert (zones + [z])[zi] == zones[zi] && (zones + [z])[|zones|] == z;
    }
  }

  lemma ZoneOfAdded(params: seq<SubmitParams>, zones: seq<Zone>, r: seq<SubmitParams>, i: nat) returns (zi: nat)
    requires Expanded(params, zones, r) && |params| <= i < |r|
    ensures zi < |zones| && r[i].zone == zones[zi].name
  {
    var k;
    zi, k := AddedIsPlaced(params, zones, r, i);
    assert Placed(params, zones, r, zi, k);
    assert params[FirstOf(params, zones[zi].name)].zone == zones[zi].name;
  }

  lemma ExpandedProvided(params: seq<SubmitParams>, zones: seq<Zone>, r: seq<SubmitParams>)
    requires Expanded(params, zones, r)
    ensures AllProvided(params, zones)
  {
  }

  method ExpandNext(params: seq<SubmitParams>, ghost zones: seq<Zone>, zone: Zone, r: seq<SubmitParams>)
    returns (o: Outcome, more: seq<SubmitParams>)
    requires Expanded(params, zones, r) && DistinctNames(zones + [zone])
    ensures o == Returned <==> zone.groups != [] && FirstOf(params, zone.name) < |params|
    ensures o == Returned ==> Expanded(params, zones + [zone], more)
  {
    FoundOnlyIfProvided(params, zones, r, zone);
    o, more := ExpandZone(r, zone);
    if o == Returned {
      ExpandKeepsExpanded(params, zones, r, zone);
    }
  }

  /** The zone loop: it throws exactly if some zone is not provided, and otherwise leaves one set for every agent
      group of every zone, in a place of its own, and the plugin's other sets as they were. */
  method ExpandZones(params: seq<SubmitParams>, zones: seq<Zone>) returns (o: Outcome, r: seq<SubmitParams>)
    requires DistinctNames(zones)
    ensures o == Returned <==> AllProvided(params, zones)
    ensures o == Returned ==> Expanded(params, zones, r)
  {
    r := params;
    assert zones[..0] == [];
    for i := 0 to |zones|
      invariant Expanded(params, zones[..i], r)
    {
      assert zones[..i + 1] == zones[..i] + [zones[i]];
      FoundIffProvided(params, zones[i].name);
      o, r := ExpandNext(params, zones[..i], zones[i], r);
      if o == Threw {
        return;
      }
    }
    assert zones[..|zones|] == zones;
    ExpandedProvided(params, zones, r);
    return Returned, r;
  }

  // ---------------------------------------------------------------- what that means

  /** No two agent groups share a set. */
  lemma PlacesDistinct(params: seq<SubmitParams>, zones: seq<Zone>, r: seq<SubmitParams>, zi: nat, k: nat, zj: nat,
                       l: nat)
    requires Expanded(params, zones, r) && DistinctNames(zones)
    requires zi <= zj < |zones| && k < |zones[zi].groups| && l < |zones[zj].groups|
    requires zi != zj || k != l
    ensures Place(params, zones, zi, k) != Place(params, zones, zj, l)
  {
    if k == 0 && l == 0 {
      assert params[Place(params, zones, zi, 0)].zone == zones[zi].name;
    } else if k > 0 && l > 0 && zi < zj {
      ExtraGrows(zones[..zj], zi);
      assert zones[..zj][..zi] == zones[..zi];
    }
  }

  /** Every set that was added is that of an agent group other than the first of its zone. */
  lemma {:induction false} AddedIsPlaced(params: seq<SubmitParams>, zones: seq<Zone>, r: seq<SubmitParams>, i: nat)
    returns (zi: nat, k: nat)
    requires forall zi :: 0 <= zi < |zones| ==> zones[zi].groups != []
    requires |r| == |params| + Extra(zones) && |params| <= i < |r|
    ensures zi < |zones| && 0 < k < |zones[zi].groups| && Place(params, zones, zi, k) == i
    decreases |zones|
  {
    var n := |zones| - 1;
    var before := |params| + Extra(zones[..n]);
    if i >= before {
      zi, k := n, i - before + 1;
    } else {
      zi, k := AddedIsPlaced(params, zones[..n], r[..before], i);
      assert zones[..n][..zi] == zones[..zi];
    }
  }

  /** Zone expansion: every set of the result is one of the plugin's that was not chosen, or that of exactly one
      agent group of exactly one zone; the total is the plugin's count plus all agent groups but the first ones. */
  lemma EverySetAccountedFor(params: seq<SubmitParams>, zones: seq<Zone>, r: seq<SubmitParams>, i: nat)
    requires Expanded(params, zones, r) && DistinctNames(zones) && i < |r|
    ensures |r| == |params| + Extra(zones)
    ensures (i < |params| && NotChosen(params, zones, i) && r[i] == params[i]) ||
            (exists zi, k :: 0 <= zi < |zones| && 0 <= k < |zones[zi].groups| &&
              Place(params, zones, zi, k) == i && r[i] == SetFor(params, zones, zi, k))
  {
    if i >= |params| {
      var zi, k := AddedIsPlaced(params, zones, r, i);
      assert Placed(params, zones, r, zi, k);
    } else if !NotChosen(params, zones, i) {
      var zi :| 0 <= zi < |zones| && FirstOf(params, zones[zi].name) == i;
      assert Placed(params, zones, r, zi, 0);
      assert Place(params, zones, zi, 0) == i;
    }
  }

  // ---------------------------------------------------------------- filter and minimum agents

  /** The sets with agents, in order. */
  ghost function WithAgents(params: seq<SubmitParams>): seq<SubmitParams> {
    if params == [] then []
    else
      var p := params[|params| - 1];
      WithAgents(params[..|params| - 1]) + if p.numAgents == 0 then [] else [p]
  }

  lemma {:induction false} SurvivorsExactly(params: seq<SubmitParams>, p: SubmitParams)
    ensures Occurrences(WithAgents(params), p) == if p.numAgents == 0 then 0 else Occurrences(params, p)
  {
    if params != [] {
      var n := |params| - 1;
      SurvivorsExactly(params[..n], p);
      assert params == params[..n] + [params[n]];
      OccurrencesOfAppend(params[..n], params[n], p);
      OccurrencesOfAppend(WithAgents(params[..n]), params[n], p);
    }
  }

  /** The entry of the first collection of this agent group. */
  function NInfoOf(nInfo: seq<CollectionNInfo>, g: string): Option<CollectionNInfo> {
    if nInfo == [] then None else if nInfo[0].agentGroup == g then Some(nInfo[0]) else NInfoOf(nInfo[1..], g)
  }

  function WithMinAgents(p: SubmitParams, nInfo: seq<CollectionNInfo>): SubmitParams {
    var found := NInfoOf(nInfo, p.agentGroup);
    if found.Some? then p.(minAgents := ToUint32(found.value.nMin)) else p
  }

  lemma {:induction false} NInfoFound(nInfo: seq<CollectionNInfo>, g: string, i: nat)
    requires i <= |nInfo| && forall j :: 0 <= j < i ==> nInfo[j].agentGroup != g
    ensures i == |nInfo| ==> NInfoOf(nInfo, g) == None
    ensures i < |nInfo| && nInfo[i].agentGroup == g ==> NInfoOf(nInfo, g) == Some(nInfo[i])
  {
    if i > 0 {
      NInfoFound(nInfo[1..], g, i - 1);
    }
  }

  method ExtendMinAgents(params: seq<SubmitParams>, nInfo: seq<CollectionNInfo>) returns (r: seq<SubmitParams>)
    ensures |r| == |params| && forall i :: 0 <= i < |r| ==> r[i] == WithMinAgents(params[i], nInfo)
  {
    r := params;
    for i := 0 to |params|
      invariant |r| == |params|
      invariant forall j :: 0 <= j < |r| ==> r[j] == if j < i then WithMinAgents(params[j], nInfo) else params[j]
    {
      var it := 0;
      while it < |nInfo| && nInfo[it].agentGroup != r[i].agentGroup
        invariant it <= |nInfo| && forall j :: 0 <= j < it ==> nInfo[j].agentGroup != r[i].agentGroup
      {
        it := it + 1;
      }
      NInfoFound(nInfo, r[i].agentGroup, it);
      if it < |nInfo| {
        r := r[i := r[i].(minAgents := ToUint32(nInfo[it].nMin))];
      }
    }
  }

  method EraseWithoutAgents(params: seq<SubmitParams>) returns (r: seq<SubmitParams>)
    ensures r == WithAgents(params)
  {
    r := [];
    for i := 0 to |params|
      invariant r == WithAgents(params[..i])
    {
      assert params[..i + 1][..i] == params[..i];
      if params[i].numAgents != 0 {
        r := r + [params[i]];
      }
    }
    assert params[..|params|] == params;
  }

  // ---------------------------------------------------------------- what is submitted

  /** What a set is there for: one the plugin provided for none of the zones, or an agent group of a zone. */
  datatype Origin = OfPlugin(i: nat) | OfGroup(zi: nat, k: nat)

  ghost predicate IsOrigin(params: seq<SubmitParams>, zones: seq<Zone>, o: Origin) {
    match o
    case OfPlugin(i) => i < |params| && NotChosen(params, zones, i)
    case OfGroup(zi, k) => zi < |zones| && k < |zones[zi].groups| && FirstOf(params, zones[zi].name) < |params|
  }

  /** Its set before the minimum of agents is entered. */
  ghost function OriginSet(params: seq<SubmitParams>, zones: seq<Zone>, o: Origin): SubmitParams
    requires IsOrigin(params, zones, o)
  {
    match o
    case OfPlugin(i) => params[i]
    case OfGroup(zi, k) => SetFor(params, zones, zi, k)
  }

  ghost function OriginPlace(params: seq<SubmitParams>, zones: seq<Zone>, o: Origin): nat
    requires IsOrigin(params, zones, o)
  {
    match o
    case OfPlugin(i) => i
    case OfGroup(zi, k) => Place(params, zones, zi, k)
  }

  lemma OriginPlaced(params: seq<SubmitParams>, zones: seq<Zone>, all: seq<SubmitParams>, o: Origin)
    requires Expanded(params, zones, all) && IsOrigin(params, zones, o)
    ensures OriginPlace(params, zones, o) < |all|
    ensures all[OriginPlace(params, zones, o)] == OriginSet(params, zones, o)
  {
    if o.OfGroup? {
      assert Placed(params, zones, all, o.zi, o.k);
    }
  }

  /** No two origins share a place. */
  lemma OriginsApart(params: seq<SubmitParams>, zones: seq<Zone>, all: seq<SubmitParams>, o: Origin, q: Origin)
    requires Expanded(params, zones, all) && DistinctNames(zones)
    requires IsOrigin(params, zones, o) && IsOrigin(params, zones, q)
    ensures OriginPlace(params, zones, o) == OriginPlace(params, zones, q) <==> o == q
  {
    if o.OfGroup? && q.OfGroup? && o != q {
      if o.zi <= q.zi {
        PlacesDistinct(params, zones, all, o.zi, o.k, q.zi, q.k);
      } else {
        PlacesDistinct(params, zones, all, q.zi, q.k, o.zi, o.k);
      }
    }
  }

  lemma OriginAt(params: seq<SubmitParams>, zones: seq<Zone>, all: seq<SubmitParams>, i: nat) returns (o: Origin)
    requires Expanded(params, zones, all) && DistinctNames(zones) && i < |all|
    ensures IsOrigin(params, zones, o) && OriginPlace(params, zones, o) == i
  {
    EverySetAccountedFor(params, zones, all, i);
    if i < |params| && NotChosen(params, zones, i) {
      o := OfPlugin(i);
    } else {
      var zi, k :| 0 <= zi < |zones| && 0 <= k < |zones[zi].groups| && Place(params, zones, zi, k) == i;
      o := OfGroup(zi, k);
    }
  }

  /** The set of this origin survives the filter. */
  ghost predicate HasAgents(params: seq<SubmitParams>, zones: seq<Zone>, o: Origin)
    requires IsOrigin(params, zones, o)
  {
    OriginSet(params, zones, o).numAgents != 0
  }

  /** The agent groups of a zone survive together: all of them if the first one asks for cores or the plugin gave
      the zone agents, none otherwise. */
  lemma GroupsSurviveTogether(params: seq<SubmitParams>, zones: seq<Zone>, zi: nat, k: nat)
    requires IsOrigin(params, zones, OfGroup(zi, k))
    ensures HasAgents(params, zones, OfGroup(zi, k)) <==>
            ToUint32(zones[zi].groups[0].nCores) != 0 || params[FirstOf(params, zones[zi].name)].numAgents != 0
    ensures var p := OriginSet(params, zones, OfGroup(zi, k));
      && p.agentGroup == zones[zi].groups[k].agentGroup
      && p.numCores == ToUint32(zones[zi].groups[k].nCores)
      && p.zone == zones[zi].name
  {
  }

  /** `sets` are the sets of `origins`, one by one and in the order of their places. */
  ghost predicate SetsOf(params: seq<SubmitParams>, zones: seq<Zone>, origins: seq<Origin>, sets: seq<SubmitParams>) {
    && |sets| == |origins|
    && (forall j :: 0 <= j < |origins| ==>
          IsOrigin(params, zones, origins[j]) && HasAgents(params, zones, origins[j]) &&
          sets[j] == OriginSet(params, zones, origins[j]))
    && (forall i, j :: 0 <= i < j < |origins| ==>
          OriginPlace(params, zones, origins[i]) < OriginPlace(params, zones, origins[j]))
  }

  /** `origins` are all those with agents and a place before `n`. */
  ghost predicate AllBefore(params: seq<SubmitParams>, zones: seq<Zone>, origins: seq<Origin>, n: nat) {
    forall o :: o in origins <==>
      IsOrigin(params, zones, o) && HasAgents(params, zones, o) && OriginPlace(params, zones, o) < n
  }

  lemma NextOrigin(params: seq<SubmitParams>, zones: seq<Zone>, all: seq<SubmitParams>, n: nat, origins: seq<Origin>,
                   o: Origin)
    returns (more: seq<Origin>)
    requires Expanded(params, zones, all) && DistinctNames(zones) && n < |all|
    requires IsOrigin(params, zones, o) && OriginPlace(params, zones, o) == n
    requires SetsOf(params, zones, origins, WithAgents(all[..n])) && AllBefore(params, zones, origins, n)
    ensures SetsOf(params, zones, more, WithAgents(all[..n + 1])) && AllBefore(params, zones, more, n + 1)
  {
    OriginPlaced(params, zones, all, o);
    assert all[..n + 1][..n] == all[..n];
    more := origins + if HasAgents(params, zones, o) then [o] else [];
    AllBeforeNext(params, zones, all, n, origins, o, more);
  }

  lemma AllBeforeNext(params: seq<SubmitParams>, zones: seq<Zone>, all: seq<SubmitParams>, n: nat,
                      origins: seq<Origin>, o: Origin, more: seq<Origin>)
    requires Expanded(params, zones, all) && DistinctNames(zones)
    requires IsOrigin(params, zones, o) && OriginPlace(params, zones, o) == n && AllBefore(params, zones, origins, n)
    requires more == origins + if HasAgents(params, zones, o) then [o] else []
    ensures AllBefore(params, zones, more, n + 1)
  {
    forall q | IsOrigin(params, zones, q) ensures OriginPlace(params, zones, q) == n <==> q == o {
      OriginsApart(params, zones, all, q, o);
    }
    assert forall q :: q in more <==> q in origins || (q == o && HasAgents(params, zones, o));
  }

  lemma {:induction false} OriginsBefore(params: seq<SubmitParams>, zones: seq<Zone>, all: seq<SubmitParams>, n: nat)
    returns (origins: seq<Origin>)
    requires Expanded(params, zones, all) && DistinctNames(zones) && n <= |all|
    ensures SetsOf(params, zones, origins, WithAgents(all[..n])) && AllBefore(params, zones, origins, n)
  {
    origins := [];
    if n > 0 {
      var before := OriginsBefore(params, zones, all, n - 1);
      var o := OriginAt(params, zones, all, n - 1);
      origins := NextOrigin(params, zones, all, n - 1, before, o);
    }
  }

  /** The list to submit: the origins with agents, each exactly once and in the order of their places, and their
      sets with the minimum of agents. */
  ghost predicate Submits(params: seq<SubmitParams>, zones: seq<Zone>, nInfo: seq<CollectionNInfo>,
                          origins: seq<Origin>, r: seq<SubmitParams>) {
    && (forall o :: o in origins <==> IsOrigin(params, zones, o) && HasAgents(params, zones, o))
    && (forall i, j :: 0 <= i < j < |origins| ==>
          OriginPlace(params, zones, origins[i]) < OriginPlace(params, zones, origins[j]))
    && |r| == |origins|
    && (forall j :: 0 <= j < |r| ==>
          IsOrigin(params, zones, origins[j]) && r[j] == WithMinAgents(OriginSet(params, zones, origins[j]), nInfo))
  }

  lemma SubmitsExactly(params: seq<SubmitParams>, zones: seq<Zone>, nInfo: seq<CollectionNInfo>,
                       all: seq<SubmitParams>, r: seq<SubmitParams>) returns (origins: seq<Origin>)
    requires Expanded(params, zones, all) && DistinctNames(zones)
    requires |r| == |WithAgents(all)| && forall i :: 0 <= i < |r| ==> r[i] == WithMinAgents(WithAgents(all)[i], nInfo)
    ensures Submits(params, zones, nInfo, origins, r)
  {
    origins := OriginsBefore(params, zones, all, |all|);
    assert all[..|all|] == all;
    forall o | IsOrigin(params, zones, o) ensures OriginPlace(params, zones, o) < |all| {
      OriginPlaced(params, zones, all, o);
    }
  }

  /** `nInfo[i]` is the first entry of the agent group. */
  ghost predicate FirstEntry(nInfo: seq<CollectionNInfo>, g: string, i: nat) {
    i < |nInfo| && nInfo[i].agentGroup == g && forall j :: 0 <= j < i ==> nInfo[j].agentGroup != g
  }

  /** The minimum of agents of a submitted set is the nMin of the first collection of its agent group, an unsigned
      number, or what the plugin gave if there is no such collection. */
  ghost predicate MinimumOf(nInfo: seq<CollectionNInfo>, base: SubmitParams, p: SubmitParams) {
    && (forall i: nat :: FirstEntry(nInfo, p.agentGroup, i) ==> p.minAgents == nInfo[i].nMin % UINT32_RANGE)
    && ((forall i :: 0 <= i < |nInfo| ==> nInfo[i].agentGroup != p.agentGroup) ==> p.minAgents == base.minAgents)
  }

  lemma {:induction false} MinimumEntered(nInfo: seq<CollectionNInfo>, p: SubmitParams)
    ensures var q := WithMinAgents(p, nInfo); q == p.(minAgents := q.minAgents) && MinimumOf(nInfo, p, q)
  {
    forall i: nat | FirstEntry(nInfo, p.agentGroup, i)
      ensures WithMinAgents(p, nInfo).minAgents == nInfo[i].nMin % UINT32_RANGE
    {
      NInfoFound(nInfo, p.agentGroup, i);
    }
    if forall i :: 0 <= i < |nInfo| ==> nInfo[i].agentGroup != p.agentGroup {
      NInfoFound(nInfo, p.agentGroup, |nInfo|);
    }
  }

  /** Every field of a set the plugin provided for no zone is the plugin's, but for the minimum. */
  ghost predicate LikePlugin(nInfo: seq<CollectionNInfo>, base: SubmitParams, p: SubmitParams) {
    p == base.(minAgents := p.minAgents) && MinimumOf(nInfo, base, p)
  }

  /** Every field of a set for an agent group of a zone is that of the plugin's set for the zone, but for the group's
      name and cores; and a single agent is asked for if the zone's first group asks for cores. */
  ghost predicate LikeZone(nInfo: seq<CollectionNInfo>, base: SubmitParams, groups: seq<ZoneGroup>, k: nat,
                           p: SubmitParams)
    requires k < |groups|
  {
    && p.rms == base.rms && p.zone == base.zone && p.configFile == base.configFile
    && p.envFile == base.envFile && p.numSlots == base.numSlots
    && p.agentGroup == groups[k].agentGroup && p.numCores == groups[k].nCores % UINT32_RANGE
    && p.numAgents == (if groups[0].nCores % UINT32_RANGE != 0 then 1 else base.numAgents)
    && MinimumOf(nInfo, base, p)
  }

  /** The plugin's first set for the zone. */
  ghost predicate FirstForZone(params: seq<SubmitParams>, zone: string, i: nat) {
    i < |params| && params[i].zone == zone && forall h :: 0 <= h < i ==> params[h].zone != zone
  }

  ghost predicate LikeItsZone(params: seq<SubmitParams>, zones: seq<Zone>, nInfo: seq<CollectionNInfo>, zi: nat,
                              k: nat, p: SubmitParams)
  {
    zi < |zones| && k < |zones[zi].groups| &&
    exists i: nat :: FirstForZone(params, zones[zi].name, i) && LikeZone(nInfo, params[i], zones[zi].groups, k, p)
  }

  /** The fields of every submitted set. */
  lemma SubmittedFields(params: seq<SubmitParams>, zones: seq<Zone>, nInfo: seq<CollectionNInfo>, origins: seq<Origin>,
                        r: seq<SubmitParams>, j: nat)
    requires Submits(params, zones, nInfo, origins, r) && j < |r|
    ensures var o := origins[j];
      && (o.OfPlugin? ==> o.i < |params| && LikePlugin(nInfo, params[o.i], r[j]))
      && (o.OfGroup? ==> LikeItsZone(params, zones, nInfo, o.zi, o.k, r[j]))
  {
    var o := origins[j];
    MinimumEntered(nInfo, OriginSet(params, zones, o));
    if o.OfGroup? {
      var i := FirstOf(params, zones[o.zi].name);
      assert FirstForZone(params, zones[o.zi].name, i);
      assert LikeZone(nInfo, params[i], zones[o.zi].groups, o.k, r[j]);
    }
  }

  /** A set for every one of the plugin's that has agents and is not the first for a zone of the topology. */
  lemma PluginSubmitted(params: seq<SubmitParams>, zones: seq<Zone>, nInfo: seq<CollectionNInfo>,
                        origins: seq<Origin>, r: seq<SubmitParams>, i: nat)
    requires Submits(params, zones, nInfo, origins, r)
    requires i < |params| && params[i].numAgents != 0
    requires forall zi :: 0 <= zi < |zones| ==> !FirstForZone(params, zones[zi].name, i)
    ensures exists j :: 0 <= j < |r| && origins[j] == OfPlugin(i)
  {
    forall zi | 0 <= zi < |zones| ensures FirstOf(params, zones[zi].name) != i {
      assert !FirstForZone(params, zones[zi].name, i);
    }
    assert IsOrigin(params, zones, OfPlugin(i)) && HasAgents(params, zones, OfPlugin(i));
    assert OfPlugin(i) in origins;
  }

  /** And one for every agent group of a zone whose first group asks for cores or that the plugin gave agents. */
  lemma GroupSubmitted(params: seq<SubmitParams>, zones: seq<Zone>, nInfo: seq<CollectionNInfo>,
                       origins: seq<Origin>, r: seq<SubmitParams>, zi: nat, k: nat, i: nat)
    requires Submits(params, zones, nInfo, origins, r)
    requires zi < |zones| && k < |zones[zi].groups| && FirstForZone(params, zones[zi].name, i)
    requires zones[zi].groups[0].nCores % UINT32_RANGE != 0 || params[i].numAgents != 0
    ensures exists j :: 0 <= j < |r| && origins[j] == OfGroup(zi, k)
  {
    assert FirstOf(params, zones[zi].name) == i;
    assert IsOrigin(params, zones, OfGroup(zi, k)) && HasAgents(params, zones, OfGroup(zi, k));
    assert OfGroup(zi, k) in origins;
  }

  /** The origin `o` comes before `q`: sets that stand in for one of the plugin's come first, in the plugin's order, and
      the further agent groups after them, zone by zone and in the order of the zone. */
  ghost predicate Precedes(params: seq<SubmitParams>, zones: seq<Zone>, o: Origin, q: Origin)
    requires IsOrigin(params, zones, o) && IsOrigin(params, zones, q)
  {
    if StandsIn(o) && StandsIn(q) then StoodInFor(params, zones, o) < StoodInFor(params, zones, q)
    else if StandsIn(o) || StandsIn(q) then StandsIn(o)
    else o.zi < q.zi || (o.zi == q.zi && o.k < q.k)
  }

  ghost predicate StandsIn(o: Origin) {
    o.OfPlugin? || o.k == 0
  }

  ghost function StoodInFor(params: seq<SubmitParams>, zones: seq<Zone>, o: Origin): (i: nat)
    requires IsOrigin(params, zones, o) && StandsIn(o)
    ensures o.OfPlugin? ==> i == o.i
    ensures o.OfGroup? ==> FirstForZone(params, zones[o.zi].name, i)
  {
    if o.OfPlugin? then o.i else FirstOf(params, zones[o.zi].name)
  }

  lemma PlaceOrder(params: seq<SubmitParams>, zones: seq<Zone>, o: Origin, q: Origin)
    requires IsOrigin(params, zones, o) && IsOrigin(params, zones, q)
    requires forall zi :: 0 <= zi < |zones| ==> zones[zi].groups != []
    requires OriginPlace(params, zones, o) < OriginPlace(params, zones, q)
    ensures Precedes(params, zones, o, q)
  {
    if !StandsIn(o) && !StandsIn(q) && q.zi < o.zi {
      ExtraOrder(zones, q.zi, o.zi);
    }
  }

  lemma ExtraOrder(zones: seq<Zone>, zi: nat, zj: nat)
    requires zi < zj <= |zones| && zones[zi].groups != []
    ensures Extra(zones[..zi]) + |zones[zi].groups| - 1 <= Extra(zones[..zj])
  {
    ExtraGrows(zones[..zj], zi);
    assert zones[..zj][..zi] == zones[..zi];
  }

  /** The order in which the sets are submitted. */
  lemma SubmittedInOrder(params: seq<SubmitParams>, zones: seq<Zone>, nInfo: seq<CollectionNInfo>,
                         origins: seq<Origin>, r: seq<SubmitParams>, i: nat, j: nat)
    requires Submits(params, zones, nInfo, origins, r) && AllProvided(params, zones) && i < j < |r|
    ensures IsOrigin(params, zones, origins[i]) && IsOrigin(params, zones, origins[j])
    ensures Precedes(params, zones, origins[i], origins[j])
  {
    PlaceOrder(params, zones, origins[i], origins[j]);
  }

  /** What recovery makes of such a set: fewer agents than requested are accepted if and only if they meet the nMin of
      the first collection of its agent group. */
  lemma FewerAcceptedForSet(params: seq<SubmitParams>, zones: seq<Zone>, nInfo: seq<CollectionNInfo>,
                            origins: seq<Origin>, r: seq<SubmitParams>, j: nat, i: nat, counts: map<string, nat>)
    requires Submits(params, zones, nInfo, origins, r) && j < |r|
    requires FirstEntry(nInfo, r[j].agentGroup, i)
    requires r[j].agentGroup in counts && counts[r[j].agentGroup] < r[j].numAgents
    ensures Recoverable([r[j]], counts) <==>
            nInfo[i].nMin % UINT32_RANGE != 0 && counts[r[j].agentGroup] >= nInfo[i].nMin % UINT32_RANGE
  {
    MinimumEntered(nInfo, OriginSet(params, zones, origins[j]));
    assert Recoverable([r[j]], counts) <==> EnoughAgents([r[j]][0], counts);
  }

  /** The sets to submit for the plugin's sets, the zones and the collections of the topology; it throws exactly if
      the plugin lacks a zone. */
  method MakeParams(params: seq<SubmitParams>, zones: seq<Zone>, nInfo: seq<CollectionNInfo>)
    returns (o: Outcome, r: seq<SubmitParams>, ghost origins: seq<Origin>)
    requires DistinctNames(zones)
    ensures o == Returned <==> AllProvided(params, zones)
    ensures o == Returned ==> Submits(params, zones, nInfo, origins, r)
  {
    var all;
    o, all := ExpandZones(params, zones);
    if o == Threw {
      return Threw, [], [];
    }
    var kept := EraseWithoutAgents(all);
    r := ExtendMinAgents(kept, nInfo);
    origins := SubmitsExactly(params, zones, nInfo, all, r);
  }
}
