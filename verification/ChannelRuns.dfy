/** Any number of values in any order, of any channels: which addresses a device ends up with
    (plugins/fmq/ODC.cpp). */
module ChannelRuns {
  import opened Basics
  import opened Channels

  ghost function RunOf(setup: Setup, s: State, arrivals: seq<Arrival>): State {
    if arrivals == [] then s
    else Arrive(setup, RunOf(setup, s, arrivals[..|arrivals| - 1]), arrivals[|arrivals| - 1])
  }

  /** The worker queue hands the values to the plugin one by one. */
  method HandleQueue(p: Plugin, arrivals: seq<Arrival>)
    requires p.Valid()
    modifies p`connecting, p`addresses, p.Frame()
    ensures p.Valid() && p.Setting() == old(p.Setting())
    ensures p.Model() == RunOf(p.Setting(), old(p.Model()), arrivals)
  {
    ghost var s := p.Model();
    for k := 0 to |arrivals|
      invariant p.Model() == RunOf(p.Setting(), s, arrivals[..k])
    {
      assert arrivals[..k + 1][..k] == arrivals[..k];
      p.HandleValue(arrivals[k].channel, arrivals[k].value, arrivals[k].sender);
    }
    assert arrivals[..|arrivals|] == arrivals;
  }

  // ---------------------------------------------------------------- one channel on its own

  datatype Message = Message(sender: nat, value: string)

  /** The messages of one channel. */
  function Of(arrivals: seq<Arrival>, channel: string): seq<Message> {
    if arrivals == [] then []
    else
      var a := arrivals[|arrivals| - 1];
      Of(arrivals[..|arrivals| - 1], channel) + if a.channel == channel then [Message(a.sender, a.value)] else []
  }

  function ValuesIn(msgs: seq<Message>): (r: seq<string>)
    ensures |r| == |msgs|
  {
    if msgs == [] then [] else ValuesIn(msgs[..|msgs| - 1]) + [msgs[|msgs| - 1].value]
  }

  /** What a channel has collected for its choice out of N, after what it had kept from before. */
  ghost function EntriesFrom(kept: seq<string>, msgs: seq<Message>, n: nat): seq<string> {
    if msgs == [] then kept else PushOne(EntriesFrom(kept, msgs[..|msgs| - 1], n), msgs[|msgs| - 1].value, n)
  }

  /** What is made of the last message. */
  ghost function LastChoice(kept: seq<string>, msgs: seq<Message>, pick: Option<Pick>): Choice
    requires msgs != []
  {
    if pick.Some? then ChoiceFrom(EntriesFrom(kept, msgs, pick.value.n), pick.value.i, pick.value.n)
    else Chosen(msgs[|msgs| - 1].value)
  }

  /** The values of the channel after its messages. */
  ghost function Collect(kept: seq<string>, msgs: seq<Message>, pick: Option<Pick>, index: Option<int>): Values {
    if msgs == [] then map[]
    else
      var before := Collect(kept, msgs[..|msgs| - 1], pick, index);
      TakeChoice(before, msgs[|msgs| - 1].sender, LastChoice(kept, msgs, pick), index)
  }

  /** What a state keeps for the channel's choice. */
  function Kept(s: State, channel: string): seq<string> {
    if channel in s.entries then s.entries[channel] else []
  }

  function PickOf(setup: Setup, channel: string): Option<Pick> {
    if channel in setup.picks then Some(setup.picks[channel]) else None
  }

  /** Channel `c` in state `t` is what its own messages make of it. */
  ghost predicate FollowsMessages(setup: Setup, s: State, t: State, msgs: seq<Message>, c: string)
    requires c in s.connecting
  {
    && c in t.connecting
    && t.connecting[c] ==
       Channel(s.connecting[c].numSub, Collect(Kept(s, c), msgs, PickOf(setup, c), setup.IndexOf(c)))
    && (c in setup.picks ==> c in t.entries && t.entries[c] == EntriesFrom(Kept(s, c), msgs, setup.picks[c].n))
  }

  lemma ArriveElsewhere(setup: Setup, t: State, a: Arrival, c: string)
    requires c in t.connecting && a.channel != c
    ensures var u := Arrive(setup, t, a);
      && c in u.connecting && u.connecting[c] == t.connecting[c]
      && (c in t.entries ==> c in u.entries && u.entries[c] == t.entries[c])
  {
  }

  lemma ArriveHere(setup: Setup, s: State, t: State, msgs: seq<Message>, a: Arrival, c: string)
    requires c in s.connecting && a.channel == c && FollowsMessages(setup, s, t, msgs, c)
    ensures FollowsMessages(setup, s, Arrive(setup, t, a), msgs + [Message(a.sender, a.value)], c)
  {
    assert (msgs + [Message(a.sender, a.value)])[..|msgs|] == msgs;
  }

  /** Interleaving: whatever arrives for other channels, each channel is what its own messages make of it. */
  lemma {:induction false} RunFollowsMessages(setup: Setup, s: State, arrivals: seq<Arrival>, c: string)
    requires AtStart(setup, s) && c in s.connecting
    ensures FollowsMessages(setup, s, RunOf(setup, s, arrivals), Of(arrivals, c), c)
  {
    if arrivals != [] {
      var n := |arrivals| - 1;
      var t, a := RunOf(setup, s, arrivals[..n]), arrivals[n];
      RunFollowsMessages(setup, s, arrivals[..n], c);
      if a.channel == c {
        ArriveHere(setup, s, t, Of(arrivals[..n], c), a, c);
      } else {
        ArriveElsewhere(setup, t, a, c);
        assert Of(arrivals, c) == Of(arrivals[..n], c);
      }
    }
  }

  // ---------------------------------------------------------------- address properties

  /** The properties of every complete channel are its addresses. */
  ghost predicate UpToDate(s: State) {
    forall k :: k in s.addresses && k.name in s.connecting ==>
      s.addresses[k] == Written(s.connecting[k.name], k.index, s.addresses[k])
  }

  lemma ArriveUpToDate(setup: Setup, t: State, a: Arrival)
    requires UpToDate(t)
    ensures UpToDate(Arrive(setup, t, a)) && Arrive(setup, t, a).addresses.Keys == t.addresses.Keys
  {
  }

  lemma {:induction false} RunUpToDate(setup: Setup, s: State, arrivals: seq<Arrival>)
    requires AtStart(setup, s)
    ensures UpToDate(RunOf(setup, s, arrivals)) && RunOf(setup, s, arrivals).addresses.Keys == s.addresses.Keys
  {
    if arrivals != [] {
      RunUpToDate(setup, s, arrivals[..|arrivals| - 1]);
      ArriveUpToDate(setup, RunOf(setup, s, arrivals[..|arrivals| - 1]), arrivals[|arrivals| - 1]);
    }
  }

  // ---------------------------------------------------------------- one sender per sub-channel

  /** An address can be selected from the message. */
  ghost predicate Provides(m: Message, index: Option<int>) {
    Selected(m.value, index).Some?
  }

  ghost function Providers(msgs: seq<Message>, index: Option<int>): set<nat> {
    set m | m in msgs && Provides(m, index) :: m.sender
  }

  /** The k-th message is the first one of its sender from which an address can be selected. */
  ghost predicate FirstProvided(msgs: seq<Message>, index: Option<int>, k: nat) {
    && k < |msgs| && Provides(msgs[k], index)
    && forall j :: 0 <= j < k && msgs[j].sender == msgs[k].sender ==> !Provides(msgs[j], index)
  }

  lemma ProvidersNext(msgs: seq<Message>, index: Option<int>)
    requires msgs != []
    ensures var n := |msgs| - 1;
      Providers(msgs, index) ==
        Providers(msgs[..n], index) + if Provides(msgs[n], index) then {msgs[n].sender} else {}
  {
    var n := |msgs| - 1;
    assert msgs == msgs[..n] + [msgs[n]];
    assert forall m :: m in msgs <==> m in msgs[..n] || m == msgs[n];
  }

  lemma CollectLast(msgs: seq<Message>, index: Option<int>)
    requires msgs != []
    ensures var m, before := msgs[|msgs| - 1], Collect([], msgs[..|msgs| - 1], None, index);
      Collect([], msgs, None, index) ==
        if Provides(m, index) && m.sender !in before then before[m.sender := Selected(m.value, index).value]
        else before
  {
  }

  /** Only the senders of such messages have values. */
  lemma {:induction false} CollectSenders(msgs: seq<Message>, index: Option<int>)
    ensures Collect([], msgs, None, index).Keys == Providers(msgs, index)
  {
    if msgs != [] {
      ProvidersNext(msgs, index);
      CollectSenders(msgs[..|msgs| - 1], index);
      CollectLast(msgs, index);
    }
  }

  lemma FirstIsNew(msgs: seq<Message>, index: Option<int>)
    requires msgs != [] && FirstProvided(msgs, index, |msgs| - 1)
    ensures msgs[|msgs| - 1].sender !in Providers(msgs[..|msgs| - 1], index)
  {
    forall m | m in msgs[..|msgs| - 1] && m.sender == msgs[|msgs| - 1].sender ensures !Provides(m, index) {
      var j :| 0 <= j < |msgs| - 1 && msgs[j] == m;
    }
  }

  /** Each of them has the address selected from the first one; later ones change nothing. */
  lemma {:induction false} CollectExactly(msgs: seq<Message>, index: Option<int>, k: nat)
    requires FirstProvided(msgs, index, k)
    ensures var values := Collect([], msgs, None, index);
      msgs[k].sender in values && values[msgs[k].sender] == Selected(msgs[k].value, index).value
  {
    var n := |msgs| - 1;
    CollectLast(msgs, index);
    CollectSenders(msgs[..n], index);
    if k < n {
      CollectExactly(msgs[..n], index, k);
    } else {
      FirstIsNew(msgs, index);
    }
  }

  /** The key with exactly `i` keys below it is the i-th. */
  lemma RankIsPosition(keys: set<nat>, k: nat)
    requires k in keys
    ensures |KeysBelow(keys, k)| < |keys| && KeyAt(keys, |KeysBelow(keys, k)|) == k
  {
    var below := KeysBelow(keys, k);
    SubsetCardinality(below + {k}, keys);
    var q := KeyAt(keys, |below|);
    KeyAtRank(keys, |below|);
    if q < k {
      SubsetCardinality(KeysBelow(keys, q) + {q}, below);
    } else if k < q {
      SubsetCardinality(below + {k}, KeysBelow(keys, q));
    }
  }

  /** The sub-channel of a sender: the number of senders below it. */
  ghost function SubChannelOf(senders: set<nat>, sender: nat, channel: string): SubChannel {
    SubChannel(channel, |KeysBelow(senders, sender)|)
  }

  lemma CollectedAddress(msgs: seq<Message>, index: Option<int>, k: nat, c: Channel)
    requires FirstProvided(msgs, index, k)
    requires c == Channel(|Providers(msgs, index)|, Collect([], msgs, None, index))
    ensures var i := |KeysBelow(Providers(msgs, index), msgs[k].sender)|;
      c.numSub == |c.values| && i < |c.values| && Written(c, i, "") == Selected(msgs[k].value, index).value
  {
    CollectSenders(msgs, index);
    CollectExactly(msgs, index, k);
    assert |c.values| == |c.values.Keys|;
    RankIsPosition(Providers(msgs, index), msgs[k].sender);
  }

  /** Sub-channels: when as many senders have provided addresses for a channel as it has sub-channels, in any order,
      repeatedly, and interleaved with any other messages, the property of the i-th sub-channel, if it exists, is the
      address selected from the first message of the sender that has exactly i senders below it. */
  lemma SubChannelsGetAddresses(setup: Setup, s: State, arrivals: seq<Arrival>, channel: string, j: nat)
    requires AtStart(setup, s) && channel in s.connecting && channel !in setup.picks
    requires FirstProvided(Of(arrivals, channel), setup.IndexOf(channel), j)
    requires |Providers(Of(arrivals, channel), setup.IndexOf(channel))| == s.connecting[channel].numSub
    ensures var msgs, index, t := Of(arrivals, channel), setup.IndexOf(channel), RunOf(setup, s, arrivals);
      var k := SubChannelOf(Providers(msgs, index), msgs[j].sender, channel);
      && k.index < s.connecting[channel].numSub
      && (k in s.addresses ==> k in t.addresses && t.addresses[k] == Selected(msgs[j].value, index).value)
  {
    var msgs, index, t := Of(arrivals, channel), setup.IndexOf(channel), RunOf(setup, s, arrivals);
    var k := SubChannelOf(Providers(msgs, index), msgs[j].sender, channel);
    RunFollowsMessages(setup, s, arrivals, channel);
    RunUpToDate(setup, s, arrivals);
    CollectedAddress(msgs, index, j, t.connecting[channel]);
    if k in s.addresses {
      assert t.addresses[k] == Written(t.connecting[channel], k.index, t.addresses[k]);
    }
  }

  // ---------------------------------------------------------------- published addresses

  /** Every message of the channel is what its sender bound, and the index, if there is one, leads to an address. */
  ghost predicate Published(msgs: seq<Message>, bound: map<nat, seq<string>>, index: Option<int>) {
    forall m :: m in msgs ==>
      && m.sender in bound && Bindable(bound[m.sender]) && m.value == Join(bound[m.sender])
      && (index.Some? && |bound[m.sender]| > 1 ==> 0 <= index.value < |bound[m.sender]|)
  }

  /** The address meant for this device. */
  ghost function Meant(addresses: seq<string>, index: Option<int>): string
    requires addresses != []
    requires index.Some? && |addresses| > 1 ==> 0 <= index.value < |addresses|
  {
    if |addresses| == 1 || index.None? then addresses[0] else addresses[index.value]
  }

  lemma PublishedProvides(msgs: seq<Message>, bound: map<nat, seq<string>>, index: Option<int>, m: Message)
    requires Published(msgs, bound, index) && m in msgs
    ensures Selected(m.value, index) == Some(Meant(bound[m.sender], index))
  {
    SelectsPublished(bound[m.sender], index);
  }

  /** The same sender always provides the same, so its first message decides. */
  lemma FirstOf(msgs: seq<Message>, index: Option<int>, m: Message) returns (k: nat)
    requires m in msgs && forall x :: x in msgs ==> Provides(x, index)
    ensures FirstProvided(msgs, index, k) && msgs[k].sender == m.sender
  {
    k := 0;
    while msgs[k].sender != m.sender
      invariant k < |msgs| && forall j :: 0 <= j < k ==> msgs[j].sender != m.sender
      decreases |msgs| - k
    {
      assert exists j :: k < j < |msgs| && msgs[j] == m by {
        var j :| 0 <= j < |msgs| && msgs[j] == m;
      }
      k := k + 1;
    }
  }

  /** From the devices that bind to the device that connects: when as many senders as the channel has sub-channels have
      published what they bound, the property of the i-th sub-channel is the address that the sender with i senders
      below it bound: its only one, its first one without an index, and else the one of the index. */
  lemma SubChannelsGetPublished(setup: Setup, s: State, arrivals: seq<Arrival>, channel: string, m: Message,
                                bound: map<nat, seq<string>>, index: Option<int>)
    requires AtStart(setup, s) && channel in s.connecting && channel !in setup.picks
    requires index == if channel in setup.indexes then Some(setup.indexes[channel]) else None
    requires Published(Of(arrivals, channel), bound, index) && m in Of(arrivals, channel)
    requires |Senders(Of(arrivals, channel))| == s.connecting[channel].numSub
    ensures var t, k := RunOf(setup, s, arrivals), SubChannelOf(Senders(Of(arrivals, channel)), m.sender, channel);
      && k.index < s.connecting[channel].numSub
      && (k in s.addresses ==> k in t.addresses && t.addresses[k] == Meant(bound[m.sender], index))
  {
    var msgs := Of(arrivals, channel);
    forall x | x in msgs ensures Provides(x, index) {
      PublishedProvides(msgs, bound, index, x);
    }
    assert Providers(msgs, index) == Senders(msgs);
    var j := FirstOf(msgs, index, m);
    PublishedProvides(msgs, bound, index, msgs[j]);
    SubChannelsGetAddresses(setup, s, arrivals, channel, j);
  }

  ghost function Senders(msgs: seq<Message>): set<nat> {
    set m | m in msgs :: m.sender
  }

  // ---------------------------------------------------------------- what stays

  lemma {:induction false} FewerProviders(msgs: seq<Message>, index: Option<int>)
    requires msgs != []
    ensures |Providers(msgs[..|msgs| - 1], index)| <= |Providers(msgs, index)|
  {
    ProvidersNext(msgs, index);
    SubsetCardinality(Providers(msgs[..|msgs| - 1], index), Providers(msgs, index));
  }

  lemma OfNext(arrivals: seq<Arrival>, channel: string, index: Option<int>)
    requires arrivals != []
    ensures |Providers(Of(arrivals[..|arrivals| - 1], channel), index)| <= |Providers(Of(arrivals, channel), index)|
  {
    var a, msgs := arrivals[|arrivals| - 1], Of(arrivals, channel);
    if a.channel == channel {
      assert msgs[..|msgs| - 1] == Of(arrivals[..|arrivals| - 1], channel);
      FewerProviders(msgs, index);
    } else {
      assert msgs == Of(arrivals[..|arrivals| - 1], channel);
    }
  }

  /** As long as fewer senders have provided addresses than there are sub-channels, their properties are as they
      were; and so are the properties of channels that do not connect, always. */
  lemma {:induction false} AddressesWait(setup: Setup, s: State, arrivals: seq<Arrival>, k: SubChannel)
    requires AtStart(setup, s) && k in s.addresses
    requires k.name in s.connecting ==>
      k.name !in setup.picks &&
      |Providers(Of(arrivals, k.name), setup.IndexOf(k.name))| < s.connecting[k.name].numSub
    ensures var t := RunOf(setup, s, arrivals);
      k in t.addresses && t.addresses[k] == s.addresses[k] && t.connecting.Keys == s.connecting.Keys
  {
    if arrivals != [] {
      var n := |arrivals| - 1;
      OfNext(arrivals, k.name, setup.IndexOf(k.name));
      AddressesWait(setup, s, arrivals[..n], k);
      AddressWaits(setup, s, arrivals, k);
    }
  }

  lemma AddressWaits(setup: Setup, s: State, arrivals: seq<Arrival>, k: SubChannel)
    requires AtStart(setup, s) && arrivals != []
    requires k.name in s.connecting ==>
      k.name !in setup.picks &&
      |Providers(Of(arrivals, k.name), setup.IndexOf(k.name))| < s.connecting[k.name].numSub
    requires var m := RunOf(setup, s, arrivals[..|arrivals| - 1]);
      k in m.addresses && m.connecting.Keys == s.connecting.Keys
    ensures var m, t := RunOf(setup, s, arrivals[..|arrivals| - 1]), RunOf(setup, s, arrivals);
      k in t.addresses && t.addresses[k] == m.addresses[k] && t.connecting.Keys == s.connecting.Keys
  {
    var m, a := RunOf(setup, s, arrivals[..|arrivals| - 1]), arrivals[|arrivals| - 1];
    if k.name in s.connecting {
      RunFollowsMessages(setup, s, arrivals, k.name);
      CollectSenders(Of(arrivals, k.name), setup.IndexOf(k.name));
      var c := RunOf(setup, s, arrivals).connecting[k.name];
      assert |c.values| == |c.values.Keys|;
      StepWritten(setup, m, a, k);
    }
  }

  lemma SameMembers(a: seq<Message>, b: seq<Message>)
    requires multiset(a) == multiset(b)
    ensures forall m :: m in a <==> m in b
    ensures |a| == |b|
  {
    forall m ensures m in a <==> m in b {
      assert m in a <==> m in multiset(a);
      assert m in b <==> m in multiset(b);
    }
    assert |multiset(a)| == |a| && |multiset(b)| == |b|;
  }

  ghost predicate DistinctSenders(msgs: seq<Message>) {
    forall i, j :: 0 <= i < j < |msgs| ==> msgs[i].sender != msgs[j].sender
  }

  /** Arrival-order independence: two runs that bring a channel the same messages, one of each sender, in whatever order
      and among whatever others, give each of its sub-channels the same address. */
  lemma AddressesIndependent(setup: Setup, s: State, a: seq<Arrival>, b: seq<Arrival>, channel: string, m: Message)
    requires AtStart(setup, s) && channel in s.connecting && channel !in setup.picks
    requires DistinctSenders(Of(a, channel)) && DistinctSenders(Of(b, channel))
    requires multiset(Of(a, channel)) == multiset(Of(b, channel))
    requires m in Of(a, channel) && Provides(m, setup.IndexOf(channel))
    requires |Providers(Of(a, channel), setup.IndexOf(channel))| == s.connecting[channel].numSub
    ensures var k := SubChannelOf(Providers(Of(a, channel), setup.IndexOf(channel)), m.sender, channel);
      k in s.addresses ==>
        k in RunOf(setup, s, a).addresses && k in RunOf(setup, s, b).addresses &&
        RunOf(setup, s, a).addresses[k] == RunOf(setup, s, b).addresses[k]
  {
    var index := setup.IndexOf(channel);
    SameMembers(Of(a, channel), Of(b, channel));
    assert Providers(Of(a, channel), index) == Providers(Of(b, channel), index);
    var i :| 0 <= i < |Of(a, channel)| && Of(a, channel)[i] == m;
    var j :| 0 <= j < |Of(b, channel)| && Of(b, channel)[j] == m;
    SubChannelsGetAddresses(setup, s, a, channel, i);
    SubChannelsGetAddresses(setup, s, b, channel, j);
  }

  // ---------------------------------------------------------------- one out of N

  lemma {:induction false} EntriesCount(kept: seq<string>, msgs: seq<Message>, n: nat)
    ensures |EntriesFrom(kept, msgs, n)| == |kept| + |msgs|
  {
    if msgs != [] {
      var front := msgs[..|msgs| - 1];
      EntriesCount(kept, front, n);
      SortedOfSorts(EntriesFrom(kept, front, n) + [msgs[|msgs| - 1].value]);
    }
  }

  lemma ValuesOfAll(kept: seq<string>, msgs: seq<Message>)
    ensures msgs == [] ==> kept + ValuesIn(msgs) == kept
    ensures msgs != [] ==>
      kept + ValuesIn(msgs[..|msgs| - 1]) + [msgs[|msgs| - 1].value] == kept + ValuesIn(msgs)
  {
  }

  /** The values are kept in the order of arrival until they are complete, and then sorted. */
  lemma {:induction false} EntriesAre(kept: seq<string>, msgs: seq<Message>, n: nat)
    ensures |kept| + |msgs| < n ==> EntriesFrom(kept, msgs, n) == kept + ValuesIn(msgs)
    ensures |kept| + |msgs| == n && msgs != [] ==> EntriesFrom(kept, msgs, n) == SortedOf(kept + ValuesIn(msgs))
  {
    ValuesOfAll(kept, msgs);
    if msgs != [] {
      EntriesAre(kept, msgs[..|msgs| - 1], n);
    }
  }

  /** The i-th smallest of the values, counting from 0. */
  ghost function Ith(values: seq<string>, i: nat): string
    requires i < |values|
  {
    SortedOfSorts(values);
    SortedOf(values)[i]
  }

  lemma IthExactly(values: seq<string>, i: nat, v: string)
    requires i < |values|
    ensures IthSmallest(values, i, v) <==> v == Ith(values, i)
  {
    SortedOfSorts(values);
    if IthSmallest(values, i, v) {
      var t :| Sorted(t) && multiset(t) == multiset(values) && i < |t| && t[i] == v;
      SortedUnique(t, SortedOf(values));
    }
  }

  lemma IthIndependent(a: seq<string>, b: seq<string>, i: nat)
    requires i < |a| == |b| && multiset(a) == multiset(b)
    ensures Ith(a, i) == Ith(b, i)
  {
    SortedOfSorts(a);
    SortedOfSorts(b);
    SortedUnique(SortedOf(a), SortedOf(b));
  }

  /** With the message that completes the N values the I-th smallest is chosen, and nothing before or after it. */
  lemma LastChoiceExactly(kept: seq<string>, msgs: seq<Message>, pick: Pick)
    requires msgs != []
    ensures LastChoice(kept, msgs, Some(pick)) ==
      if |kept| + |msgs| != pick.n then Waiting
      else if pick.i < pick.n then Chosen(Ith(kept + ValuesIn(msgs), pick.i))
      else NoSuchIndex
  {
    EntriesAre(kept, msgs, pick.n);
    EntriesCount(kept, msgs, pick.n);
  }

  /** The messages complete the N values. */
  predicate Chooses(kept: seq<string>, msgs: seq<Message>, pick: Pick) {
    pick.i < pick.n && |kept| < pick.n <= |kept| + |msgs|
  }

  /** The value then chosen. */
  ghost function ChosenValue(kept: seq<string>, msgs: seq<Message>, pick: Pick): string
    requires Chooses(kept, msgs, pick)
  {
    Ith(kept + ValuesIn(msgs[..pick.n - |kept|]), pick.i)
  }

  /** The address selected from it, if there is one. */
  ghost function ChosenAddress(kept: seq<string>, msgs: seq<Message>, pick: Pick, index: Option<int>): Option<string> {
    if Chooses(kept, msgs, pick) then Selected(ChosenValue(kept, msgs, pick), index) else None
  }

  lemma CollectNext(kept: seq<string>, msgs: seq<Message>, pick: Pick, index: Option<int>)
    requires msgs != []
    ensures var before := Collect(kept, msgs[..|msgs| - 1], Some(pick), index);
      Collect(kept, msgs, Some(pick), index) ==
        if |kept| + |msgs| == pick.n && pick.i < pick.n
          then TakeChoice(before, msgs[|msgs| - 1].sender, Chosen(ChosenValue(kept, msgs, pick)), index)
          else before
  {
    LastChoiceExactly(kept, msgs, pick);
    if |kept| + |msgs| == pick.n {
      assert msgs[..pick.n - |kept|] == msgs;
    }
  }

  /** Only the message that completes the values changes what is chosen. */
  lemma ChosenOnce(kept: seq<string>, msgs: seq<Message>, pick: Pick, index: Option<int>)
    requires msgs != []
    ensures var front := msgs[..|msgs| - 1];
      if |kept| + |msgs| == pick.n then ChosenAddress(kept, front, pick, index).None?
      else ChosenAddress(kept, msgs, pick, index) == ChosenAddress(kept, front, pick, index)
  {
    var front := msgs[..|msgs| - 1];
    if Chooses(kept, front, pick) {
      assert front[..pick.n - |kept|] == msgs[..pick.n - |kept|];
    }
  }

  /** A channel that chooses one out of N has a single value from the moment the N values are complete: the address
      selected from the I-th smallest of them. It has none before, and none ever if they were complete before. */
  lemma {:induction false} CollectChoice(kept: seq<string>, msgs: seq<Message>, pick: Pick, index: Option<int>)
    ensures var address := ChosenAddress(kept, msgs, pick, index);
      Collect(kept, msgs, Some(pick), index) ==
        if address.Some? then map[msgs[pick.n - |kept| - 1].sender := address.value] else map[]
  {
    if msgs != [] {
      var n := |msgs| - 1;
      CollectChoice(kept, msgs[..n], pick, index);
      CollectNext(kept, msgs, pick, index);
      ChosenOnce(kept, msgs, pick, index);
    }
  }

  /** The property of a sub-channel is written when the channel has as many values as sub-channels. */
  lemma SingleWritten(numSub: nat, values: Values, i: nat, address: string)
    requires values == map[] || exists sender, a :: values == map[sender := a]
    ensures Written(Channel(numSub, values), i, address) ==
      if numSub == 1 && i == 0 && values != map[] then Address(Channel(numSub, values), 0) else address
  {
    if values != map[] {
      var sender, a :| values == map[sender := a];
      assert values.Keys == {sender};
    }
  }

  lemma StepWritten(setup: Setup, m: State, a: Arrival, k: SubChannel)
    requires k in m.addresses && k.name in m.connecting
    ensures var t := Arrive(setup, m, a);
      && k in t.addresses && k.name in t.connecting
      && ((t.connecting == m.connecting && t.addresses == m.addresses) ||
          t.addresses[k] == Written(t.connecting[k.name], k.index, m.addresses[k]))
  {
  }

  /** As long as a channel gets at most one value, which stays, its properties are those of its values now. */
  lemma WrittenAgain(m: Channel, t: Channel, i: nat, address: string)
    requires t.numSub == m.numSub && (m.values == map[] || t.values == m.values)
    ensures Written(t, i, Written(m, i, address)) == Written(t, i, address)
  {
  }

  lemma ChoiceStays(setup: Setup, s: State, arrivals: seq<Arrival>, channel: string)
    requires AtStart(setup, s) && channel in s.connecting && channel in setup.picks && arrivals != []
    ensures var m, t := RunOf(setup, s, arrivals[..|arrivals| - 1]), RunOf(setup, s, arrivals);
      && channel in m.connecting && channel in t.connecting
      && t.connecting[channel].numSub == m.connecting[channel].numSub
      && (m.connecting[channel].values == map[] || t.connecting[channel].values == m.connecting[channel].values)
  {
    var n := |arrivals| - 1;
    RunFollowsMessages(setup, s, arrivals[..n], channel);
    RunFollowsMessages(setup, s, arrivals, channel);
    OfGrows(arrivals, channel);
    ChosenStays(Kept(s, channel), Of(arrivals[..n], channel), Of(arrivals, channel), setup.picks[channel],
      setup.IndexOf(channel));
  }

  lemma OfGrows(arrivals: seq<Arrival>, channel: string)
    requires arrivals != []
    ensures Of(arrivals[..|arrivals| - 1], channel) <= Of(arrivals, channel)
  {
  }

  /** What has been chosen is not changed by further messages. */
  lemma ChosenStays(kept: seq<string>, before: seq<Message>, now: seq<Message>, pick: Pick, index: Option<int>)
    requires before <= now
    ensures var values := Collect(kept, before, Some(pick), index);
      values == map[] || Collect(kept, now, Some(pick), index) == values
  {
    CollectChoice(kept, before, pick, index);
    CollectChoice(kept, now, pick, index);
    if Chooses(kept, before, pick) {
      assert before[..pick.n - |kept|] == now[..pick.n - |kept|];
    }
  }

  lemma {:induction false} ChoiceWritten(setup: Setup, s: State, arrivals: seq<Arrival>, k: SubChannel)
    requires AtStart(setup, s) && k.name in s.connecting && k.name in setup.picks && k in s.addresses
    ensures var t := RunOf(setup, s, arrivals);
      && k in t.addresses && k.name in t.connecting
      && t.addresses[k] == Written(t.connecting[k.name], k.index, s.addresses[k])
  {
    if arrivals != [] {
      var n := |arrivals| - 1;
      ChoiceWritten(setup, s, arrivals[..n], k);
      ChoiceStays(setup, s, arrivals, k.name);
      StepWritten(setup, RunOf(setup, s, arrivals[..n]), arrivals[n], k);
      WrittenAgain(RunOf(setup, s, arrivals[..n]).connecting[k.name], RunOf(setup, s, arrivals).connecting[k.name],
        k.index, s.addresses[k]);
    }
  }

  /** The chosen address, exactly: whatever arrives for a channel that takes one out of N, in any order and
      interleaved with any other messages, the property of one of its sub-channels is the address selected from the
      I-th smallest of the first N values if there are N, the channel has no other sub-channel and the address can be
      selected; otherwise it is as it was. */
  lemma ChannelGetsChosenAddress(setup: Setup, s: State, arrivals: seq<Arrival>, k: SubChannel)
    requires AtStart(setup, s) && k.name in s.connecting && k.name in setup.picks && k in s.addresses
    ensures var t, address := RunOf(setup, s, arrivals),
        ChosenAddress(Kept(s, k.name), Of(arrivals, k.name), setup.picks[k.name], setup.IndexOf(k.name));
      && k in t.addresses
      && t.addresses[k] ==
           if address.Some? && s.connecting[k.name].numSub == 1 && k.index == 0 then address.value else s.addresses[k]
  {
    var t, msgs := RunOf(setup, s, arrivals), Of(arrivals, k.name);
    RunFollowsMessages(setup, s, arrivals, k.name);
    ChoiceWritten(setup, s, arrivals, k);
    CollectChoice(Kept(s, k.name), msgs, setup.picks[k.name], setup.IndexOf(k.name));
    SingleWritten(s.connecting[k.name].numSub, t.connecting[k.name].values, k.index, s.addresses[k]);
    if t.connecting[k.name].values != map[] {
      SingleAddress(t.connecting[k.name]);
    }
  }

  lemma ChosenIsPublished(kept: seq<string>, msgs: seq<Message>, pick: Pick, addresses: seq<string>, index: Option<int>)
    requires Bindable(addresses)
    requires index.Some? && |addresses| > 1 ==> 0 <= index.value < |addresses|
    requires pick.i < pick.n && |kept| < pick.n <= |kept| + |msgs|
    requires IthSmallest(kept + ValuesIn(msgs[..pick.n - |kept|]), pick.i, Join(addresses))
    ensures ChosenAddress(kept, msgs, pick, index) == Some(Meant(addresses, index))
  {
    IthExactly(kept + ValuesIn(msgs[..pick.n - |kept|]), pick.i, Join(addresses));
    SelectsPublished(addresses, index);
  }

  /** The published address: if the I-th smallest of the N values is what some device bound, the property of the only
      sub-channel is the address meant for this device. */
  lemma ChannelGetsPublished(setup: Setup, s: State, arrivals: seq<Arrival>, k: SubChannel, addresses: seq<string>,
                             index: Option<int>)
    requires AtStart(setup, s) && k.name in s.connecting && k.name in setup.picks && k in s.addresses
    requires s.connecting[k.name].numSub == 1 && k.index == 0
    requires index == if k.name in setup.indexes then Some(setup.indexes[k.name]) else None
    requires Bindable(addresses)
    requires index.Some? && |addresses| > 1 ==> 0 <= index.value < |addresses|
    requires var pick, kept, msgs := setup.picks[k.name], Kept(s, k.name), Of(arrivals, k.name);
      && pick.i < pick.n && |kept| < pick.n <= |kept| + |msgs|
      && IthSmallest(kept + ValuesIn(msgs[..pick.n - |kept|]), pick.i, Join(addresses))
    ensures var t := RunOf(setup, s, arrivals); k in t.addresses && t.addresses[k] == Meant(addresses, index)
  {
    ChosenIsPublished(Kept(s, k.name), Of(arrivals, k.name), setup.picks[k.name], addresses, index);
    ChannelGetsChosenAddress(setup, s, arrivals, k);
  }

  lemma SingleAddress(c: Channel)
    requires |c.values| == 1
    ensures forall sender, a :: c.values == map[sender := a] ==> Address(c, 0) == a
  {
  }

  lemma ChosenOfAll(msgs: seq<Message>, pick: Pick)
    requires pick.i < pick.n == |msgs|
    ensures ChosenValue([], msgs, pick) == Ith(ValuesIn(msgs), pick.i)
  {
    assert msgs[..pick.n] == msgs;
    assert [] + ValuesIn(msgs) == ValuesIn(msgs);
    IthOfEqual([] + ValuesIn(msgs[..pick.n]), ValuesIn(msgs), pick.i);
  }

  lemma IthOfEqual(a: seq<string>, b: seq<string>, i: nat)
    requires a == b && i < |a|
    ensures Ith(a, i) == Ith(b, i)
  {
  }

  /** Consistency: two devices that are sent the same N values in whatever orders choose the same one if and only
      if they have the same index, provided the values are distinct. */
  lemma DevicesChooseConsistently(a: seq<Message>, b: seq<Message>, p: Pick, q: Pick)
    requires p.n == q.n == |a| == |b| && p.i < p.n && q.i < q.n
    requires multiset(ValuesIn(a)) == multiset(ValuesIn(b))
    requires forall x :: x in ValuesIn(a) ==> Occurrences(ValuesIn(a), x) == 1
    ensures ChosenValue([], a, p) == ChosenValue([], b, q) <==> p.i == q.i
  {
    var values := ValuesIn(a);
    ChosenOfAll(a, p);
    ChosenOfAll(b, q);
    IthIndependent(values, ValuesIn(b), q.i);
    IthExactly(values, p.i, Ith(values, p.i));
    IthExactly(values, q.i, Ith(values, q.i));
    ChoicesDiffer(values, p.i, q.i, Ith(values, p.i), Ith(values, q.i));
  }

  /** The same N values in any order, repeated ones included: a device always makes the same choice. */
  lemma ChoiceIndependent(a: seq<Message>, b: seq<Message>, pick: Pick)
    requires pick.i < pick.n == |a| == |b| && multiset(ValuesIn(a)) == multiset(ValuesIn(b))
    ensures ChosenValue([], a, pick) == ChosenValue([], b, pick)
  {
    ChosenOfAll(a, pick);
    ChosenOfAll(b, pick);
    IthIndependent(ValuesIn(a), ValuesIn(b), pick.i);
  }

  // ---------------------------------------------------------------- after a reset

  /** The state after a reset and the next binding with the same configuration. */
  ghost function Rebound(setup: Setup, s: State, config: Config): State {
    FilledState(setup, s.(connecting := map[]), config)
  }

  ghost function ReboundSetup(setup: Setup, s: State, config: Config): Setup {
    FilledSetup(setup, Rebound(setup, s, config).connecting.Keys, config)
  }

  /** Bound again, a channel is at the start but for what it had collected. */
  ghost predicate StartsAgain(setup: Setup, r: State, config: Config, channel: string)
    requires channel in setup.picks
  {
    var t, again := Rebound(setup, r, config), ReboundSetup(setup, r, config);
    && AtStart(again, t) && channel in t.connecting
    && channel in again.picks && again.picks[channel] == setup.picks[channel]
    && Kept(t, channel) == Kept(r, channel)
  }

  lemma ReboundStartsAgain(setup: Setup, r: State, config: Config, channel: string)
    requires channel in setup.picks && channel in config.connects && channel in r.entries
    ensures StartsAgain(setup, r, config, channel)
  {
    FilledAtStart(setup, r.(connecting := map[]), config);
    PicksStay(setup.picks, Rebound(setup, r, config).connecting.Keys, config.inValues);
  }

  /** What is collected for a choice out of N survives a reset. A channel that has got `first` and is bound again
      gets an address in the second round if and only if the two rounds together complete the N values, the first
      one did not, and an address can be selected; the choice is then made from the values of both. */
  lemma ReboundChoosesExactly(setup: Setup, s: State, first: seq<Arrival>, config: Config, second: seq<Arrival>,
                              channel: string)
    requires AtStart(setup, s) && channel in s.connecting && channel in setup.picks && Kept(s, channel) == []
    requires channel in config.connects
    ensures var r := RunOf(setup, s, first);
      var t, again := Rebound(setup, r, config), ReboundSetup(setup, r, config);
      var kept := EntriesFrom([], Of(first, channel), setup.picks[channel].n);
      && |kept| == |Of(first, channel)|
      && channel in RunOf(again, t, second).connecting
      && (RunOf(again, t, second).connecting[channel].values != map[] <==>
            ChosenAddress(kept, Of(second, channel), setup.picks[channel], again.IndexOf(channel)).Some?)
  {
    var r := RunOf(setup, s, first);
    var t := Rebound(setup, r, config);
    RunFollowsMessages(setup, s, first, channel);
    EntriesCount([], Of(first, channel), setup.picks[channel].n);
    ReboundStartsAgain(setup, r, config, channel);
    ValueChosenExactly(ReboundSetup(setup, r, config), t, second, channel);
  }

  lemma ValueChosenExactly(setup: Setup, s: State, arrivals: seq<Arrival>, channel: string)
    requires AtStart(setup, s) && channel in s.connecting && channel in setup.picks
    ensures var t := RunOf(setup, s, arrivals);
      channel in t.connecting &&
      (t.connecting[channel].values != map[] <==>
        ChosenAddress(Kept(s, channel), Of(arrivals, channel), setup.picks[channel], setup.IndexOf(channel)).Some?)
  {
    RunFollowsMessages(setup, s, arrivals, channel);
    var pick := setup.picks[channel];
    var values := Collect(Kept(s, channel), Of(arrivals, channel), Some(pick), setup.IndexOf(channel));
    CollectChoice(Kept(s, channel), Of(arrivals, channel), pick, setup.IndexOf(channel));
    if ChosenAddress(Kept(s, channel), Of(arrivals, channel), pick, setup.IndexOf(channel)).Some? {
      assert Of(arrivals, channel)[pick.n - |Kept(s, channel)| - 1].sender in values;
    }
  }

  /** Once N values have arrived, no sub-channel of a channel bound again ever gets an address. */
  lemma NeverChosenAgain(setup: Setup, s: State, first: seq<Arrival>, config: Config, second: seq<Arrival>,
                         k: SubChannel)
    requires AtStart(setup, s) && k.name in s.connecting && k.name in setup.picks && Kept(s, k.name) == []
    requires k.name in config.connects && |Of(first, k.name)| >= setup.picks[k.name].n
    requires k in RunOf(setup, s, first).addresses
    ensures var r := RunOf(setup, s, first);
      var t, again := Rebound(setup, r, config), ReboundSetup(setup, r, config);
      k in RunOf(again, t, second).addresses && RunOf(again, t, second).addresses[k] == r.addresses[k]
  {
    var r := RunOf(setup, s, first);
    var t := Rebound(setup, r, config);
    RunFollowsMessages(setup, s, first, k.name);
    EntriesCount([], Of(first, k.name), setup.picks[k.name].n);
    ReboundStartsAgain(setup, r, config, k.name);
    ChannelGetsChosenAddress(ReboundSetup(setup, r, config), t, second, k);
  }

  lemma {:induction false} PicksStay(picks: map<string, Pick>, names: set<string>, values: seq<(string, Pick)>)
    ensures var r := InsertAll(picks, names, values).entries;
      forall k :: k in picks ==> k in r && r[k] == picks[k]
  {
    if values != [] {
      PicksStay(picks, names, values[..|values| - 1]);
    }
  }
}
