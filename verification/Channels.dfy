/** How a device of the FairMQ plugin chooses the addresses of its connecting channels from values that
    arrive in any order (plugins/fmq/ODC.cpp, plugins/fmq/ODC.h). */
module Channels {
  import opened Basics

  // ---------------------------------------------------------------- order of strings

  predicate Le(a: string, b: string) {
    a == [] || (b != [] && (a[0] < b[0] || (a[0] == b[0] && Le(a[1..], b[1..]))))
  }

  lemma {:induction false} LeTotal(a: string, b: string)
    ensures Le(a, b) || Le(b, a)
    ensures Le(a, b) && Le(b, a) ==> a == b
  {
    if a != [] && b != [] {
      LeTotal(a[1..], b[1..]);
      assert a == [a[0]] + a[1..] && b == [b[0]] + b[1..];
    }
  }

  lemma {:induction false} LeTransitive(a: string, b: string, c: string)
    requires Le(a, b) && Le(b, c)
    ensures Le(a, c)
  {
    if a != [] && b != [] && c != [] && a[0] == b[0] == c[0] {
      LeTransitive(a[1..], b[1..], c[1..]);
    }
  }

  /** The order is that of the characters at the first difference; a prefix comes first. */
  lemma {:induction false} LeExactly(a: string, b: string)
    ensures Le(a, b) <==>
      a <= b || exists k :: 0 <= k < |a| && k < |b| && a[..k] == b[..k] && a[k] < b[k]
  {
    if a != [] && b != [] && a[0] == b[0] {
      LeExactly(a[1..], b[1..]);
      assert a <= b <==> a[1..] <= b[1..];
      if exists k :: 0 <= k < |a[1..]| && k < |b[1..]| && a[1..][..k] == b[1..][..k] && a[1..][k] < b[1..][k] {
        var k :| 0 <= k < |a[1..]| && k < |b[1..]| && a[1..][..k] == b[1..][..k] && a[1..][k] < b[1..][k];
        assert a[..k + 1] == [a[0]] + a[1..][..k] && b[..k + 1] == [b[0]] + b[1..][..k];
        assert a[k + 1] < b[k + 1];
      }
      if exists k :: 0 <= k < |a| && k < |b| && a[..k] == b[..k] && a[k] < b[k] {
        var k :| 0 <= k < |a| && k < |b| && a[..k] == b[..k] && a[k] < b[k];
        assert k > 0 && a[1..][..k - 1] == a[..k][1..] && b[1..][..k - 1] == b[..k][1..];
        assert a[1..][k - 1] < b[1..][k - 1];
      }
    } else if a != [] && b != [] && a[0] < b[0] {
      assert a[..0] == b[..0] && a[0] < b[0];
    } else if a != [] && b != [] {
      forall k | 0 < k < |a| && k < |b| ensures a[..k] != b[..k] {
        assert a[..k][0] != b[..k][0];
      }
    }
  }

  ghost predicate Sorted(s: seq<string>) {
    forall i, j :: 0 <= i < j < |s| ==> Le(s[i], s[j])
  }

  /** The library's sort. */
  method Sort(s: seq<string>) returns (r: seq<string>)
    ensures Sorted(r) && multiset(r) == multiset(s)
  {
    r := [];
    for i := 0 to |s|
      invariant Sorted(r) && multiset(r) == multiset(s[..i])
    {
      assert s[..i + 1] == s[..i] + [s[i]];
      r := Insert(r, s[i]);
    }
    assert s[..|s|] == s;
  }

  method Insert(r: seq<string>, x: string) returns (q: seq<string>)
    requires Sorted(r)
    ensures Sorted(q) && multiset(q) == multiset(r) + multiset{x}
  {
    var k := 0;
    while k < |r| && Le(r[k], x)
      invariant k <= |r| && forall j :: 0 <= j < k ==> Le(r[j], x)
    {
      k := k + 1;
    }
    InsertSorted(r, k, x);
    assert r == r[..k] + r[k..];
    q := r[..k] + [x] + r[k..];
  }

  lemma InsertSorted(r: seq<string>, k: nat, x: string)
    requires Sorted(r) && k <= |r|
    requires forall j :: 0 <= j < k ==> Le(r[j], x)
    requires k < |r| ==> !Le(r[k], x)
    ensures Sorted(r[..k] + [x] + r[k..])
  {
    forall j | k <= j < |r| ensures Le(x, r[j]) {
      LeTotal(x, r[k]);
      if k < j {
        LeTransitive(x, r[k], r[j]);
      }
    }
  }

  lemma HeadIsLeast(a: seq<string>, x: string)
    requires Sorted(a) && a != [] && x in multiset(a)
    ensures Le(a[0], x)
  {
    var j :| 0 <= j < |a| && a[j] == x;
    LeTotal(x, x);
  }

  lemma TailOf(a: seq<string>)
    requires a != []
    ensures multiset(a[1..]) == multiset(a) - multiset{a[0]}
  {
    assert a == [a[0]] + a[1..];
  }

  lemma SameHead(a: seq<string>, b: seq<string>)
    requires Sorted(a) && Sorted(b) && multiset(a) == multiset(b) && a != [] && b != []
    ensures a[0] == b[0]
  {
    assert a[0] in multiset(b) && b[0] in multiset(a);
    HeadIsLeast(a, b[0]);
    HeadIsLeast(b, a[0]);
    LeTotal(a[0], b[0]);
  }

  /** There is only one way to sort: the arrival order does not matter. */
  lemma {:induction false} SortedUnique(a: seq<string>, b: seq<string>)
    requires Sorted(a) && Sorted(b) && multiset(a) == multiset(b)
    ensures a == b
  {
    assert |a| == |multiset(a)| == |multiset(b)| == |b|;
    if a != [] {
      SameHead(a, b);
      TailOf(a);
      TailOf(b);
      SortedUnique(a[1..], b[1..]);
      assert a == [a[0]] + a[1..] && b == [b[0]] + b[1..];
    }
  }

  function InsertInto(r: seq<string>, x: string): seq<string> {
    if r == [] || !Le(r[0], x) then [x] + r else [r[0]] + InsertInto(r[1..], x)
  }

  /** The values in order. */
  function SortedOf(s: seq<string>): seq<string> {
    if s == [] then [] else InsertInto(SortedOf(s[..|s| - 1]), s[|s| - 1])
  }

  lemma {:induction false} InsertIntoMembers(r: seq<string>, x: string)
    ensures multiset(InsertInto(r, x)) == multiset(r) + multiset{x}
  {
    if r != [] && Le(r[0], x) {
      InsertIntoMembers(r[1..], x);
      assert r == [r[0]] + r[1..];
    }
  }

  lemma SortedCons(x: string, s: seq<string>)
    requires Sorted(s) && forall y :: y in s ==> Le(x, y)
    ensures Sorted([x] + s)
  {
  }

  lemma {:induction false} InsertIntoSorted(r: seq<string>, x: string)
    requires Sorted(r)
    ensures Sorted(InsertInto(r, x)) && multiset(InsertInto(r, x)) == multiset(r) + multiset{x}
  {
    InsertIntoMembers(r, x);
    if r == [] {
    } else if !Le(r[0], x) {
      InsertSorted(r, 0, x);
      assert r[..0] + [x] + r[0..] == [x] + r;
    } else {
      InsertIntoSorted(r[1..], x);
      var q := InsertInto(r[1..], x);
      forall y | y in q ensures Le(r[0], y) {
        assert y in multiset(q);
        assert y in r[1..] || y == x;
      }
      SortedCons(r[0], q);
    }
  }

  lemma {:induction false} SortedOfSorts(s: seq<string>)
    ensures Sorted(SortedOf(s)) && multiset(SortedOf(s)) == multiset(s) && |SortedOf(s)| == |s|
  {
    if s != [] {
      var n := |s| - 1;
      SortedOfSorts(s[..n]);
      InsertIntoSorted(SortedOf(s[..n]), s[n]);
      assert s == s[..n] + [s[n]];
    }
    assert |multiset(SortedOf(s))| == |multiset(s)|;
  }

  // ---------------------------------------------------------------- one out of N

  datatype Choice = Waiting | Chosen(value: string) | NoSuchIndex

  /** The values collected after one more: they are sorted when there are N of them. */
  function PushOne(entries: seq<string>, value: string, n: nat): seq<string> {
    if |entries| + 1 == n then SortedOf(entries + [value]) else entries + [value]
  }

  /** Only the value that completes the N decides. */
  function ChoiceFrom(entries: seq<string>, i: nat, n: nat): Choice {
    if |entries| != n then Waiting else if i < n then Chosen(entries[i]) else NoSuchIndex
  }

  class IofN {
    const fI: nat
    const fN: nat
    var entries: seq<string>
    ghost const channel: string  // the channel this object belongs to

    constructor (i: nat, n: nat, ghost channel: string)
      ensures fI == i && fN == n && entries == [] && this.channel == channel
    {
      fI, fN, entries, this.channel := i, n, [], channel;
    }

    method Push(value: string) returns (c: Choice)
      modifies this
      ensures entries == PushOne(old(entries), value, fN)
      ensures c == ChoiceFrom(entries, fI, fN)
    {
      entries := entries + [value];
      if |entries| == fN {
        ghost var before := entries;
        entries := Sort(entries);
        SortedOfSorts(before);
        SortedUnique(entries, SortedOf(before));
        return if fI < |entries| then Chosen(entries[fI]) else NoSuchIndex;
      }
      return Waiting;
    }
  }

  /** The values that come before `v`, and those that do not come after it. */
  ghost function Below(s: seq<string>, v: string): set<nat> {
    set i: nat | i < |s| && Le(s[i], v) && s[i] != v
  }

  /** `v` is the i-th smallest of the values in `s`, counting from 0: a sorted arrangement has it there. */
  ghost predicate IthSmallest(s: seq<string>, i: nat, v: string) {
    exists t: seq<string> :: Sorted(t) && multiset(t) == multiset(s) && i < |t| && t[i] == v
  }

  /** Devices with different indexes choose different values if the values are distinct. */
  lemma ChoicesDiffer(s: seq<string>, i: nat, j: nat, v: string, w: string)
    requires forall x :: x in s ==> Occurrences(s, x) == 1
    requires IthSmallest(s, i, v) && IthSmallest(s, j, w)
    ensures v == w <==> i == j
  {
    var a :| Sorted(a) && multiset(a) == multiset(s) && i < |a| && a[i] == v;
    var b :| Sorted(b) && multiset(b) == multiset(s) && j < |b| && b[j] == w;
    SortedUnique(a, b);
    assert v in multiset(a);
    assert Occurrences(s, v) == 1;
    if i < j && v == w {
      TwoPositions(a, i, j);
    } else if j < i && v == w {
      TwoPositions(a, j, i);
    }
  }

  /** The i-th smallest of distinct values has exactly i values below it. */
  lemma IthHasIBelow(t: seq<string>, i: nat)
    requires Sorted(t) && i < |t| && forall x :: x in t ==> Occurrences(t, x) == 1
    ensures forall j: nat :: j in Below(t, t[i]) <==> j < i
  {
    forall j: nat | j < |t| ensures j in Below(t, t[i]) <==> j < i {
      if j < i {
        if t[j] == t[i] {
          TwoPositions(t, j, i);
        }
      } else if i < j {
        LeTotal(t[i], t[j]);
      }
    }
  }

  // ---------------------------------------------------------------- lists of addresses

  const COMMA: char := ','
  const NUL: char := 0 as char

  function Split(s: string): (r: seq<string>)
    ensures r != []
  {
    if s == [] then [""]
    else
      var rest := Split(s[1..]);
      if s[0] == COMMA then [""] + rest else [[s[0]] + rest[0]] + rest[1..]
  }

  function Join(parts: seq<string>): string {
    if parts == [] then "" else if |parts| == 1 then parts[0] else parts[0] + [COMMA] + Join(parts[1..])
  }

  lemma {:induction false} SplitOfPart(p: string, s: string)
    requires COMMA !in p
    ensures Split(p + [COMMA] + s) == [p] + Split(s)
    ensures Split(p) == [p]
  {
    if p != [] {
      SplitOfPart(p[1..], s);
      assert (p + [COMMA] + s)[1..] == p[1..] + [COMMA] + s;
      assert [p[0]] + p[1..] == p;
    } else {
      assert (p + [COMMA] + s)[1..] == s;
    }
  }

  /** What a binding device publishes is what a connecting device takes apart. */
  lemma {:induction false} SplitJoin(parts: seq<string>)
    requires parts != [] && forall p :: p in parts ==> COMMA !in p
    ensures Split(Join(parts)) == parts
  {
    SplitOfPart(parts[0], Join(parts[1..]));
    if |parts| > 1 {
      SplitJoin(parts[1..]);
      assert [parts[0]] + parts[1..] == parts;
    }
  }

  lemma {:induction false} JoinSplit(s: string)
    ensures Join(Split(s)) == s && forall p :: p in Split(s) ==> ',' !in p
  {
    if s != [] {
      JoinSplit(s[1..]);
    }
  }

  /** A C string ends at the first NUL. */
  function CString(s: string): string {
    if s == [] || s[0] == NUL then "" else [s[0]] + CString(s[1..])
  }

  lemma {:induction false} CStringKeeps(s: string)
    ensures CString(s) == s <==> '\0' !in s
    ensures CString(s) <= s && '\0' !in CString(s)
    ensures |CString(s)| < |s| ==> s[|CString(s)|] == '\0'
  {
    if s != [] {
      CStringKeeps(s[1..]);
      assert s == [s[0]] + s[1..];
    }
  }

  /** The address taken from a published value; None where the index is out of range, which throws. */
  function Selected(val: string, index: Option<int>): Option<string> {
    var parts := Split(val);
    if |parts| <= 1 then Some(CString(val))
    else if index.None? then Some(CString(parts[0]))
    else if 0 <= index.value < |parts| then Some(CString(parts[index.value]))
    else None
  }

  /** Addresses as a device binds them. */
  ghost predicate Bindable(addresses: seq<string>) {
    addresses != [] && forall p :: p in addresses ==> ',' !in p && '\0' !in p
  }

  /** What a device takes from the addresses that were bound: the only one whatever its index, the first one without
      an index, and else the one of its index. */
  lemma SelectsPublished(addresses: seq<string>, index: Option<int>)
    requires Bindable(addresses)
    ensures Selected(Join(addresses), index) ==
      if |addresses| == 1 || index.None? then Some(addresses[0])
      else if 0 <= index.value < |addresses| then Some(addresses[index.value])
      else None
  {
    SplitJoin(addresses);
    assert addresses[0] in addresses;
    CStringKeeps(addresses[0]);
    if index.Some? && 0 <= index.value < |addresses| {
      assert addresses[index.value] in addresses;
      CStringKeeps(addresses[index.value]);
    }
  }

  // ---------------------------------------------------------------- sub-channels

  /** `fDDSValues`: the address each sender provided, the first one counts. */
  type Values = map<nat, string>

  datatype Channel = Channel(numSub: nat, values: Values)

  function Take(values: Values, sender: nat, address: string): Values {
    if sender in values then values else values[sender := address]
  }

  ghost predicate IsLeast(keys: set<nat>, k: nat) {
    k in keys && forall x :: x in keys ==> k <= x
  }

  lemma {:induction false} LeastExists(keys: set<nat>)
    requires keys != {}
    ensures exists k :: IsLeast(keys, k)
  {
    var k :| k in keys;
    if keys == {k} {
      assert IsLeast(keys, k);
    } else {
      LeastExists(keys - {k});
      var m :| IsLeast(keys - {k}, m);
      assert forall x :: x in keys ==> x == k || x in keys - {k};
      assert IsLeast(keys, if m < k then m else k);
    }
  }

  /** The smallest key. */
  ghost function Least(keys: set<nat>): (k: nat)
    requires keys != {}
    ensures IsLeast(keys, k)
  {
    LeastExists(keys);
    var k :| IsLeast(keys, k);
    k
  }

  /** The i-th smallest key, counting from 0: the order in which a map is traversed. */
  ghost function KeyAt(keys: set<nat>, i: nat): (k: nat)
    requires i < |keys|
    ensures k in keys
  {
    if i == 0 then Least(keys) else KeyAt(keys - {Least(keys)}, i - 1)
  }

  ghost function KeysBelow(keys: set<nat>, k: nat): set<nat> {
    set x | x in keys && x < k
  }

  /** It has exactly `i` keys below it. */
  lemma {:induction false} KeyAtRank(keys: set<nat>, i: nat)
    requires i < |keys|
    ensures |KeysBelow(keys, KeyAt(keys, i))| == i
  {
    var k, least := KeyAt(keys, i), Least(keys);
    if i == 0 {
      assert KeysBelow(keys, k) == {};
    } else {
      KeyAtRank(keys - {least}, i - 1);
      assert k in keys - {least};
      assert KeysBelow(keys, k) == KeysBelow(keys - {least}, k) + {least};
    }
  }

  /** The addresses of a channel whose values are complete. */
  ghost function Address(c: Channel, i: nat): string
    requires i < |c.values|
  {
    assert |c.values| == |c.values.Keys|;
    c.values[KeyAt(c.values.Keys, i)]
  }

  datatype SubChannel = SubChannel(name: string, index: nat)

  type Addresses = map<SubChannel, string>

  /** An address property after its channel was written, if that is complete. */
  ghost function Written(c: Channel, i: nat, address: string): string {
    if c.numSub == |c.values| && i < |c.values| then Address(c, i) else address
  }

  /** The address properties after every complete channel was written; properties that do not exist stay so. */
  ghost function Published(addresses: Addresses, chans: map<string, Channel>): Addresses {
    map k | k in addresses :: if k.name in chans then Written(chans[k.name], k.index, addresses[k]) else addresses[k]
  }

  /** `todo` are the keys from the i-th smallest on. */
  ghost predicate Remaining(keys: set<nat>, todo: set<nat>, i: nat) {
    && i + |todo| == |keys|
    && todo <= keys
    && forall j: nat :: i <= j < |keys| ==> KeyAt(keys, j) == KeyAt(todo, j - i)
  }

  lemma RemainingStep(keys: set<nat>, todo: set<nat>, i: nat, k: nat)
    requires Remaining(keys, todo, i) && IsLeast(todo, k)
    ensures i < |keys| && KeyAt(keys, i) == k
    ensures Remaining(keys, todo - {k}, i + 1)
  {
  }

  /** Writes the addresses of one channel, in the order of the senders, if it is complete. */
  method PublishChannel(addresses: Addresses, name: string, chan: Channel) returns (r: Addresses)
    ensures r.Keys == addresses.Keys
    ensures forall k :: k in addresses ==>
      r[k] == if k.name == name then Written(chan, k.index, addresses[k]) else addresses[k]
  {
    r := addresses;
    if chan.numSub == |chan.values| {
      r := WriteAddresses(addresses, name, chan);
    }
  }

  /** The address properties after the first `i` sub-channels were written. */
  ghost function WrittenUpTo(addresses: Addresses, name: string, chan: Channel, i: nat): Addresses
    requires i <= |chan.values|
  {
    map k | k in addresses :: if k.name == name && k.index < i then Address(chan, k.index) else addresses[k]
  }

  lemma WriteNext(addresses: Addresses, name: string, chan: Channel, i: nat)
    requires i < |chan.values|
    ensures var before, k := WrittenUpTo(addresses, name, chan, i), SubChannel(name, i);
      WrittenUpTo(addresses, name, chan, i + 1) == if k in before then before[k := Address(chan, i)] else before
  {
  }

  method WriteAddresses(addresses: Addresses, name: string, chan: Channel) returns (r: Addresses)
    ensures r == WrittenUpTo(addresses, name, chan, |chan.values|)
  {
    r := addresses;
    assert |chan.values.Keys| == |chan.values|;
    var todo := chan.values.Keys;
    var i := 0;
    while todo != {}
      invariant Remaining(chan.values.Keys, todo, i)
      invariant r == WrittenUpTo(addresses, name, chan, i)
      decreases todo
    {
      LeastExists(todo);
      var sender :| sender in todo && forall x :: x in todo ==> sender <= x;
      RemainingStep(chan.values.Keys, todo, i, sender);
      WriteNext(addresses, name, chan, i);
      if SubChannel(name, i) in r {
        r := r[SubChannel(name, i) := chan.values[sender]];
      }
      todo := todo - {sender};
      i := i + 1;
    }
  }

  // ---------------------------------------------------------------- one arriving value

  /** A published value of a channel, and the task that sent it. */
  datatype Arrival = Arrival(channel: string, sender: nat, value: string)

  datatype Pick = Pick(i: nat, n: nat)

  /** What `dds-i` and `dds-i-n` say about the channels. */
  datatype Setup = Setup(indexes: map<string, int>, picks: map<string, Pick>)
  {
    function IndexOf(channel: string): Option<int> {
      if channel in indexes then Some(indexes[channel]) else None
    }
  }

  datatype State = State(connecting: map<string, Channel>, addresses: Addresses, entries: map<string, seq<string>>)

  /** The values of a channel after an address was chosen from `c`, if one was. */
  function TakeChoice(values: Values, sender: nat, c: Choice, index: Option<int>): Values {
    if c.Chosen? && Selected(c.value, index).Some? then Take(values, sender, Selected(c.value, index).value) else values
  }

  /** The state after a value: it is selected from itself or from the I-th of N, entered unless its sender has
      provided one before, and all complete channels are written again. */
  ghost function Accept(setup: Setup, s: State, a: Arrival, c: Choice): State
    requires a.channel in s.connecting
  {
    if c.Chosen? && Selected(c.value, setup.IndexOf(a.channel)).Some? then
      var chan := s.connecting[a.channel];
      var chans := s.connecting[a.channel :=
        chan.(values := TakeChoice(chan.values, a.sender, c, setup.IndexOf(a.channel)))];
      s.(connecting := chans, addresses := Published(s.addresses, chans))
    else s
  }

  ghost function Arrive(setup: Setup, s: State, a: Arrival): State {
    if a.channel !in s.connecting then s
    else if a.channel in setup.picks && a.channel in s.entries then
      var pick := setup.picks[a.channel];
      var entries := PushOne(s.entries[a.channel], a.value, pick.n);
      Accept(setup, s.(entries := s.entries[a.channel := entries]), a, ChoiceFrom(entries, pick.i, pick.n))
    else Accept(setup, s, a, Chosen(a.value))
  }

  // ---------------------------------------------------------------- binding and resetting

  datatype Inserted<T> = Inserted(entries: map<string, T>, complete: bool)

  /** The values inserted one by one: an existing entry stays, and a name that is no connecting channel throws. */
  ghost function InsertAll<T>(entries: map<string, T>, names: set<string>, values: seq<(string, T)>): Inserted<T> {
    if values == [] then Inserted(entries, true)
    else
      var before, v := InsertAll(entries, names, values[..|values| - 1]), values[|values| - 1];
      if !before.complete then before
      else if v.0 !in names then Inserted(before.entries, false)
      else if v.0 in before.entries then before
      else Inserted(before.entries[v.0 := v.1], true)
  }

  /** The channels to connect, by the number of their sub-channels: new ones have no values yet. */
  ghost function Connected(chans: map<string, Channel>, connects: map<string, nat>): map<string, Channel> {
    map c | c in chans.Keys + connects.Keys ::
      if c in connects then Channel(connects[c], if c in chans then chans[c].values else map[]) else chans[c]
  }

  /** What the device's configuration says about its channels. */
  datatype Config = Config(connects: map<string, nat>, iValues: seq<(string, int)>, inValues: seq<(string, Pick)>)

  ghost function FilledSetup(setup: Setup, names: set<string>, config: Config): Setup {
    var indexes := InsertAll(setup.indexes, names, config.iValues);
    Setup(indexes.entries,
          if indexes.complete then InsertAll(setup.picks, names, config.inValues).entries else setup.picks)
  }

  /** Nothing but the channels is filled anew: what was collected for a choice out of N stays. */
  ghost function FilledState(setup: Setup, s: State, config: Config): State {
    var chans := Connected(s.connecting, config.connects);
    State(chans, s.addresses, KeptEntries(FilledSetup(setup, chans.Keys, config).picks, s.entries))
  }

  ghost function KeptEntries(picks: map<string, Pick>, entries: map<string, seq<string>>): map<string, seq<string>> {
    map c | c in picks :: if c in entries then entries[c] else []
  }

  lemma KeptNext(picks: map<string, Pick>, entries: map<string, seq<string>>, c: string, pick: Pick)
    requires c !in picks && entries.Keys <= picks.Keys
    ensures KeptEntries(picks[c := pick], entries) == KeptEntries(picks, entries)[c := []]
  {
  }

  lemma KeptSame(picks: map<string, Pick>, entries: map<string, seq<string>>)
    requires picks.Keys == entries.Keys
    ensures KeptEntries(picks, entries) == entries
  {
  }

  lemma {:induction false} InsertStops<T>(entries: map<string, T>, names: set<string>, values: seq<(string, T)>, k: nat)
    requires k < |values| && InsertAll(entries, names, values[..k]).complete && values[k].0 !in names
    ensures InsertAll(entries, names, values) == Inserted(InsertAll(entries, names, values[..k]).entries, false)
  {
    var n := |values| - 1;
    if k < n {
      assert values[..n][..k] == values[..k];
      InsertStops(entries, names, values[..n], k);
    }
  }

  /** The i-th value is entered: its name is new, it is the first of this name, and no unknown name came before it. */
  ghost predicate Enters<T>(entries: map<string, T>, names: set<string>, values: seq<(string, T)>, i: nat) {
    && i < |values| && values[i].0 !in entries
    && (forall j :: 0 <= j <= i ==> values[j].0 in names)
    && (forall j :: 0 <= j < i ==> values[j].0 != values[i].0)
  }

  // What is inserted: what there was stays, and each value that enters is inserted, and nothing else.

  lemma {:induction false} InsertedKeeps<T>(entries: map<string, T>, names: set<string>, values: seq<(string, T)>)
    ensures var r := InsertAll(entries, names, values);
      && (r.complete <==> forall i :: 0 <= i < |values| ==> values[i].0 in names)
      && (forall k :: k in entries ==> k in r.entries && r.entries[k] == entries[k])
  {
    if values != [] {
      InsertedKeeps(entries, names, values[..|values| - 1]);
    }
  }

  lemma {:induction false} InsertedOnly<T>(entries: map<string, T>, names: set<string>, values: seq<(string, T)>,
                                           k: string) returns (i: nat)
    requires k in InsertAll(entries, names, values).entries && k !in entries
    ensures Enters(entries, names, values, i) && values[i].0 == k
    decreases |values|
  {
    var n := |values| - 1;
    if k in InsertAll(entries, names, values[..n]).entries {
      i := InsertedOnly(entries, names, values[..n], k);
    } else {
      i := n;
      InsertedKeeps(entries, names, values[..n]);
      if j: nat :| j < n && values[j].0 == k {
        var f := FirstNamed(values, k, j);
        InsertedEnters(entries, names, values[..n], f);
      }
    }
  }

  lemma FirstNamed<T>(values: seq<(string, T)>, k: string, j: nat) returns (f: nat)
    requires j < |values| && values[j].0 == k
    ensures f <= j && values[f].0 == k && forall h :: 0 <= h < f ==> values[h].0 != k
  {
    f := 0;
    while values[f].0 != k
      invariant f <= j && forall h :: 0 <= h < f ==> values[h].0 != k
      decreases j - f
    {
      f := f + 1;
    }
  }

  lemma {:induction false} InsertedEnters<T>(entries: map<string, T>, names: set<string>, values: seq<(string, T)>,
                                             i: nat)
    requires Enters(entries, names, values, i)
    ensures var r := InsertAll(entries, names, values);
      values[i].0 in r.entries && r.entries[values[i].0] == values[i].1
    decreases |values|
  {
    var n := |values| - 1;
    if i < n {
      InsertedEnters(entries, names, values[..n], i);
    } else {
      InsertedKeeps(entries, names, values[..n]);
      if values[n].0 in InsertAll(entries, names, values[..n]).entries {
        var j := InsertedOnly(entries, names, values[..n], values[n].0);
      }
    }
  }

  /** No value has arrived for a connecting channel, though some may have been collected for a choice out of N. */
  ghost predicate AtStart(setup: Setup, s: State) {
    && (forall c :: c in s.connecting ==> s.connecting[c].values == map[])
    && s.entries.Keys == setup.picks.Keys
  }

  /** A channel that connects gets its number of sub-channels and keeps its values; the others stay. */
  lemma ConnectedExactly(chans: map<string, Channel>, connects: map<string, nat>, c: string)
    ensures var r := Connected(chans, connects);
      && (c in r <==> c in chans || c in connects)
      && (c in connects ==> r[c].numSub == connects[c])
      && (c in chans && c !in connects ==> r[c] == chans[c])
      && (c in r ==> r[c].values == if c in chans then chans[c].values else map[])
  {
  }

  /** Choices out of N are only filled if all indexes could be. */
  lemma FilledPicks(setup: Setup, names: set<string>, config: Config)
    ensures var r := FilledSetup(setup, names, config);
      && r.indexes == InsertAll(setup.indexes, names, config.iValues).entries
      && r.picks ==
           if forall i :: 0 <= i < |config.iValues| ==> config.iValues[i].0 in names
             then InsertAll(setup.picks, names, config.inValues).entries
             else setup.picks
  {
    InsertedKeeps(setup.indexes, names, config.iValues);
  }

  /** A new plugin and one that was reset are at the start when their channels have been filled. */
  lemma FilledAtStart(setup: Setup, s: State, config: Config)
    requires s.connecting == map[]
    ensures var t := FilledState(setup, s, config);
      && AtStart(FilledSetup(setup, t.connecting.Keys, config), t)
      && (s.entries == map[] ==> forall c :: c in t.entries ==> t.entries[c] == [])
      && t.addresses == s.addresses && t.connecting.Keys == config.connects.Keys
      && forall c :: c in config.connects ==> t.connecting[c].numSub == config.connects[c]
  {
  }

  ghost function Objects(selections: map<string, IofN>): set<object> {
    set k | k in selections :: selections[k] as object
  }

  ghost function Picks(selections: map<string, IofN>): map<string, Pick> {
    map k | k in selections :: Pick(selections[k].fI, selections[k].fN)
  }

  ghost function Entries(selections: map<string, IofN>): map<string, seq<string>>
    reads Objects(selections)
  {
    map k | k in selections :: selections[k].entries
  }

  class Plugin {
    var indexes: map<string, int>      // fI
    var selections: map<string, IofN>  // fIofN
    var connecting: map<string, Channel>
    var addresses: Addresses

    ghost predicate Valid()
      reads this
    {
      forall k :: k in selections ==> selections[k].channel == k
    }

    ghost function Frame(): set<object>
      reads this
    {
      Objects(selections)
    }

    ghost function Setting(): Setup
      reads this
    {
      Setup(indexes, Picks(selections))
    }

    ghost function Model(): State
      reads this, Frame()
    {
      State(connecting, addresses, Entries(selections))
    }

    constructor (addresses: Addresses)
      ensures Valid() && Frame() == {}
      ensures Setting() == Setup(map[], map[]) && Model() == State(map[], addresses, map[])
    {
      indexes, selections, connecting, this.addresses := map[], map[], map[], addresses;
    }

    /** The device is reset. */
    method EmptyChannelContainers()
      modifies `connecting
      ensures Model() == old(Model()).(connecting := map[])
    {
      connecting := map[];
    }

    method FillConnecting(connects: map<string, nat>)
      modifies `connecting
      ensures connecting == Connected(old(connecting), connects)
    {
      ghost var before := connecting;
      var todo := connects.Keys;
      while todo != {}
        invariant todo <= connects.Keys
        invariant connecting.Keys == before.Keys + (connects.Keys - todo)
        invariant forall c :: c in connecting ==>
          connecting[c] == if c in todo then before[c] else Connected(before, connects)[c]
        decreases todo
      {
        var c :| c in todo;
        if c !in connecting {
          connecting := connecting[c := Channel(0, map[])];
        }
        connecting := connecting[c := connecting[c].(numSub := connects[c])];
        todo := todo - {c};
      }
    }

    method FillIndexes(iValues: seq<(string, int)>) returns (complete: bool)
      modifies `indexes
      ensures Inserted(indexes, complete) == InsertAll(old(indexes), connecting.Keys, iValues)
    {
      ghost var before := indexes;
      for k := 0 to |iValues|
        invariant Inserted(indexes, true) == InsertAll(before, connecting.Keys, iValues[..k])
      {
        var (chanName, i) := iValues[k];
        assert iValues[..k + 1][..k] == iValues[..k];
        if chanName !in connecting {
          InsertStops(before, connecting.Keys, iValues, k);
          return false;
        }
        if chanName !in indexes {
          indexes := indexes[chanName := i];
        }
      }
      assert iValues[..|iValues|] == iValues;
      return true;
    }

    method AddSelection(chanName: string, pick: Pick)
      requires Valid() && chanName !in selections
      modifies `selections
      ensures Valid() && fresh(Frame() - old(Frame())) && old(Frame()) <= Frame()
      ensures Picks(selections) == Picks(old(selections))[chanName := pick] &&
        Entries(selections) == old(Entries(selections))[chanName := []]
    {
      var selection := new IofN(pick.i, pick.n, chanName);
      selections := selections[chanName := selection];
      assert forall k :: k in old(selections) ==> selections[k] == old(selections)[k];
    }

    method FillSelections(inValues: seq<(string, Pick)>)
      requires Valid()
      modifies `selections
      ensures Valid() && fresh(Frame() - old(Frame()))
      ensures Picks(selections) == InsertAll(Picks(old(selections)), connecting.Keys, inValues).entries
      ensures Entries(selections) == KeptEntries(Picks(selections), old(Entries(selections)))
    {
      ghost var picks, entries := Picks(selections), Entries(selections);
      KeptSame(picks, entries);
      for k := 0 to |inValues|
        invariant Valid() && fresh(Frame() - old(Frame()))
        invariant Inserted(Picks(selections), true) == InsertAll(picks, connecting.Keys, inValues[..k])
        invariant Entries(selections) == KeptEntries(Picks(selections), entries) &&
          entries.Keys <= Picks(selections).Keys
      {
        var (chanName, pick) := inValues[k];
        assert inValues[..k + 1][..k] == inValues[..k];
        if chanName !in connecting {
          InsertStops(picks, connecting.Keys, inValues, k);
          return;
        }
        if chanName !in selections {
          KeptNext(Picks(selections), entries, chanName, pick);
          AddSelection(chanName, pick);
        }
      }
      assert inValues[..|inValues|] == inValues;
    }

    method FillChoices(config: Config)
      requires Valid()
      modifies `indexes, `selections
      ensures Valid() && fresh(Frame() - old(Frame()))
      ensures Setting() == FilledSetup(old(Setting()), connecting.Keys, config)
      ensures Entries(selections) == KeptEntries(Picks(selections), old(Entries(selections)))
    {
      KeptSame(Picks(selections), Entries(selections));
      var complete := FillIndexes(config.iValues);
      if complete {
        FillSelections(config.inValues);
      }
    }

    /** The device is bound. */
    method FillChannelContainers(config: Config)
      requires Valid()
      modifies `connecting, `indexes, `selections
      ensures Valid() && fresh(Frame() - old(Frame()))
      ensures Model() == FilledState(old(Setting()), old(Model()), config)
      ensures Setting() == FilledSetup(old(Setting()), connecting.Keys, config)
      ensures old(connecting) == map[] ==> AtStart(Setting(), Model())
    {
      ghost var setup, before := Setting(), Model();
      FillConnecting(config.connects);
      FillChoices(config);
      if before.connecting == map[] {
        FilledAtStart(setup, before, config);
      }
    }

    /** Writes the addresses of all complete channels. */
    method PublishAll()
      modifies `addresses
      ensures addresses == Published(old(addresses), connecting)
    {
      ghost var before := addresses;
      var todo := connecting.Keys;
      while todo != {}
        invariant todo <= connecting.Keys
        invariant addresses.Keys == before.Keys
        invariant forall k :: k in before ==>
          addresses[k] ==
            if k.name in connecting && k.name !in todo
              then Written(connecting[k.name], k.index, before[k])
              else before[k]
        decreases todo
      {
        var name :| name in todo;
        addresses := PublishChannel(addresses, name, connecting[name]);
        todo := todo - {name};
      }
    }

    /** The address a value stands for, unless the index is out of range. */
    method SelectAddress(channel: string, val: string) returns (r: Option<string>)
      ensures r == Selected(val, Setting().IndexOf(channel))
    {
      var connectionStrings := Split(val);
      if |connectionStrings| > 1 {
        if channel in indexes {
          if !(0 <= indexes[channel] < |connectionStrings|) {
            return None;
          }
          return Some(CString(connectionStrings[indexes[channel]]));
        } else {
          return Some(CString(connectionStrings[0]));
        }
      } else {
        return Some(CString(val));
      }
    }

    /** Enters a sender's address and writes the complete channels. */
    method EnterAddress(channel: string, sender: nat, address: string)
      requires channel in connecting
      modifies `connecting, `addresses
      ensures var chan := old(connecting)[channel];
        connecting == old(connecting)[channel := chan.(values := Take(chan.values, sender, address))]
      ensures addresses == Published(old(addresses), connecting)
    {
      var chan := connecting[channel];
      if sender !in chan.values {
        connecting := connecting[channel := chan.(values := chan.values[sender := address])];
      }
      PublishAll();
    }

    /** The objects that collect values do not contain the plugin. */
    lemma Outside()
      ensures this !in Frame()
    {
    }

    method AcceptValue(channel: string, val: string, sender: nat)
      requires channel in connecting
      modifies `connecting, `addresses
      ensures Model() == Accept(Setting(), old(Model()), Arrival(channel, sender, val), Chosen(val))
    {
      Outside();
      var address := SelectAddress(channel, val);
      if address.Some? {
        EnterAddress(channel, sender, address.value);
      }
    }

    /** Takes in one more of the N values of a channel. */
    method PushValue(channel: string, value: string) returns (choice: Choice)
      requires Valid() && channel in selections
      modifies selections[channel]
      ensures var pick, before := Setting().picks[channel], old(Model());
        var entries := PushOne(before.entries[channel], value, pick.n);
        Model() == before.(entries := before.entries[channel := entries]) &&
          choice == ChoiceFrom(entries, pick.i, pick.n)
    {
      choice := selections[channel].Push(value);
    }

    /** A published value of a channel arrives. */
    method HandleValue(channel: string, value: string, sender: nat)
      requires Valid()
      modifies `connecting, `addresses, Frame()
      ensures Model() == Arrive(Setting(), old(Model()), Arrival(channel, sender, value))
    {
      if channel !in connecting {
        return;
      }
      var val := value;
      if channel in selections {
        var choice := PushValue(channel, value);
        if !choice.Chosen? {
          return;
        }
        val := choice.value;
      }
      AcceptValue(channel, val, sender);
    }
  }
}
