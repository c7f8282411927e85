/** The client's routed batches: group by address, send in order, retry what was not answered with
    a fresh snapshot, and scatter the answers back (client/routed_batch.go and
    client/routed_batch_more_helpers.go). */
module RoutedBatch {
  import opened Common

  datatype Item<Q> = Item(index: nat, request: Q)

  datatype Group<Q> = Group(addr: Text, items: seq<Item<Q>>)

  /** A routing snapshot as the client uses it: where a request goes, if anywhere, and the request
      stamped with the snapshot's versions. */
  datatype Snapshot<!Q> = Snapshot(revision: nat, resolve: Q -> Option<Text>, stamp: Q -> Q)

  /** What reading the current snapshot gave: the snapshot, or an error that asks for a refresh or not. */
  datatype Reading<!Q> = Loaded(snapshot: Snapshot<Q>) | Unavailable(refreshable: bool)

  datatype Outcome<R> = Answer(results: seq<R>) | Refused(refreshable: bool)

  /** The network: the outcome of the n-th send, to an address, of some requests under an epoch. */
  type Transport<!Q, !R> = (nat, nat, Text, seq<Q>) -> Outcome<R>

  /** One send, as it happened. */
  datatype Send<Q, R> = Send(addr: Text, items: seq<Item<Q>>, outcome: Outcome<R>)

  // ---------------------------------------------------------------- grouping

  function Stamped<Q>(s: Snapshot<Q>, item: Item<Q>): Item<Q> { Item(item.index, s.stamp(item.request)) }

  /** The items that go to one address, stamped, in order. */
  function ItemsFor<Q>(s: Snapshot<Q>, items: seq<Item<Q>>, addr: Text): seq<Item<Q>> {
    if items == [] then []
    else
      var last := items[|items| - 1];
      ItemsFor(s, items[..|items| - 1], addr) + if s.resolve(last.request) == Some(addr) then [Stamped(s, last)] else []
  }

  predicate Routable<Q>(s: Snapshot<Q>, items: seq<Item<Q>>) {
    forall i :: 0 <= i < |items| ==> s.resolve(items[i].request).Some?
  }

  /** Groups in ascending address order, each holding exactly the items of its address. */
  ghost predicate Grouped<Q>(s: Snapshot<Q>, items: seq<Item<Q>>, groups: seq<Group<Q>>) {
    && (forall g, h :: 0 <= g < h < |groups| ==> groups[g].addr != groups[h].addr && TextLe(groups[g].addr, groups[h].addr))
    && (forall g :: 0 <= g < |groups| ==> groups[g].items == ItemsFor(s, items, groups[g].addr))
    && (forall i :: 0 <= i < |items| ==> Addressed(s, items[i], groups))
  }

  ghost predicate Addressed<Q>(s: Snapshot<Q>, item: Item<Q>, groups: seq<Group<Q>>) {
    exists g :: 0 <= g < |groups| && s.resolve(item.request) == Some(groups[g].addr)
  }

  method GroupItems<Q>(s: Snapshot<Q>, items: seq<Item<Q>>) returns (groups: Option<seq<Group<Q>>>)
    ensures groups.Some? <==> Routable(s, items)
    ensures groups.Some? ==> Grouped(s, items, groups.value)
  {
    hide ByAddress, Grouped, Ordered, ItemsFor;
    var byAddr: map<Text, seq<Item<Q>>> := map[];
    NoAddresses(s, items[..0]);
    for i := 0 to |items|
      invariant forall k :: 0 <= k < i ==> s.resolve(items[k].request).Some?
      invariant ByAddress(s, items[..i], byAddr)
    {
      var decision := s.resolve(items[i].request);
      if decision.None? {
        return None;
      }
      var addr := decision.value;
      var group := if addr in byAddr then byAddr[addr] else [];
      AddressOneMore(s, items, i, byAddr);
      byAddr := byAddr[addr := group + [Stamped(s, items[i])]];
    }
    assert items[..|items|] == items;
    var ordered := OrderedGroups(byAddr);
    GroupedInOrder(s, items, byAddr, ordered);
    groups := Some(ordered);
  }

  lemma NoAddresses<Q>(s: Snapshot<Q>, items: seq<Item<Q>>)
    requires items == []
    ensures ByAddress(s, items, map[])
  {
  }

  /** The group map so far: exactly the addresses in use, each with its items. */
  ghost predicate ByAddress<Q>(s: Snapshot<Q>, items: seq<Item<Q>>, byAddr: map<Text, seq<Item<Q>>>) {
    && (forall addr :: (if addr in byAddr then byAddr[addr] else []) == ItemsFor(s, items, addr))
    && (forall k :: 0 <= k < |items| && s.resolve(items[k].request).Some? ==> s.resolve(items[k].request).value in byAddr)
  }

  lemma AddressOneMore<Q>(s: Snapshot<Q>, items: seq<Item<Q>>, i: nat, byAddr: map<Text, seq<Item<Q>>>)
    requires i < |items| && ByAddress(s, items[..i], byAddr) && s.resolve(items[i].request).Some?
    ensures
      var addr := s.resolve(items[i].request).value;
      ByAddress(s, items[..i + 1], byAddr[addr := (if addr in byAddr then byAddr[addr] else []) + [Stamped(s, items[i])]])
  {
    assert items[..i + 1][..i] == items[..i];
    var here := s.resolve(items[i].request).value;
    var next := byAddr[here := (if here in byAddr then byAddr[here] else []) + [Stamped(s, items[i])]];
    forall addr ensures (if addr in next then next[addr] else []) == ItemsFor(s, items[..i + 1], addr) {
      assert (if addr in byAddr then byAddr[addr] else []) == ItemsFor(s, items[..i], addr);
    }
    forall k | 0 <= k < i + 1 && s.resolve(items[k].request).Some? ensures s.resolve(items[k].request).value in next {
      if k < i { assert items[..i][k] == items[k]; }
    }
  }

  /** The map's groups in ascending address order. */
  ghost predicate Ordered<Q>(byAddr: map<Text, seq<Item<Q>>>, groups: seq<Group<Q>>) {
    && (forall g, h :: 0 <= g < h < |groups| ==> groups[g].addr != groups[h].addr && TextLe(groups[g].addr, groups[h].addr))
    && (forall g :: 0 <= g < |groups| ==> groups[g].addr in byAddr && groups[g].items == byAddr[groups[g].addr])
    && (forall addr :: addr in byAddr ==> exists g :: 0 <= g < |groups| && groups[g].addr == addr)
  }

  lemma GroupedInOrder<Q>(s: Snapshot<Q>, items: seq<Item<Q>>, byAddr: map<Text, seq<Item<Q>>>, groups: seq<Group<Q>>)
    requires Routable(s, items) && ByAddress(s, items, byAddr) && Ordered(byAddr, groups)
    ensures Grouped(s, items, groups)
  {
    hide TextLe, ItemsFor;
    forall k | 0 <= k < |items| ensures Addressed(s, items[k], groups) {
      var addr := s.resolve(items[k].request).value;
      var g :| 0 <= g < |groups| && groups[g].addr == addr;
    }
  }

  method OrderedGroups<Q>(byAddr: map<Text, seq<Item<Q>>>) returns (groups: seq<Group<Q>>)
    ensures Ordered(byAddr, groups)
  {
    hide TextLe, TotalOrder, SortSet, Ordered;
    TextOrder();
    var addrs := SortSet(byAddr.Keys, TextLe);
    groups := [];
    for i := 0 to |addrs|
      invariant |groups| == i && forall g :: 0 <= g < i ==> addrs[g] in byAddr && groups[g] == Group(addrs[g], byAddr[addrs[g]])
    {
      assert addrs[i] in addrs;
      groups := groups + [Group(addrs[i], byAddr[addrs[i]])];
    }
    OrderedBy(byAddr, addrs, groups);
  }

  lemma OrderedBy<Q>(byAddr: map<Text, seq<Item<Q>>>, addrs: seq<Text>, groups: seq<Group<Q>>)
    requires forall addr :: addr in addrs <==> addr in byAddr
    requires forall g, h :: 0 <= g < h < |addrs| ==> addrs[g] != addrs[h] && TextLe(addrs[g], addrs[h])
    requires |groups| == |addrs| && forall g :: 0 <= g < |addrs| ==> addrs[g] in byAddr && groups[g] == Group(addrs[g], byAddr[addrs[g]])
    ensures Ordered(byAddr, groups)
  {
    hide TextLe;
    forall addr | addr in byAddr ensures exists g :: 0 <= g < |groups| && groups[g].addr == addr {
      var g :| 0 <= g < |addrs| && addrs[g] == addr;
      assert groups[g].addr == addr;
    }
  }

  // ---------------------------------------------------------------- positions

  ghost predicate Distinct<Q>(items: seq<Item<Q>>) {
    forall i, j :: 0 <= i < j < |items| ==> items[i].index != items[j].index
  }

  ghost predicate Ascending<Q>(items: seq<Item<Q>>) {
    forall i, j :: 0 <= i < j < |items| ==> items[i].index < items[j].index
  }

  ghost function Indices<Q>(items: seq<Item<Q>>): set<nat> { set i | 0 <= i < |items| :: items[i].index }

  /** A group holds each of its items once, in order, stamped. */
  lemma {:induction false} ItemsForMembers<Q>(s: Snapshot<Q>, items: seq<Item<Q>>, addr: Text, x: Item<Q>)
    ensures x in ItemsFor(s, items, addr) <==>
              exists i :: 0 <= i < |items| && s.resolve(items[i].request) == Some(addr) && Stamped(s, items[i]) == x
  {
    if items != [] {
      var n := |items| - 1;
      var front := items[..n];
      ItemsForMembers(s, front, addr, x);
      if x in ItemsFor(s, front, addr) {
        var i :| 0 <= i < n && s.resolve(front[i].request) == Some(addr) && Stamped(s, front[i]) == x;
        assert Stamped(s, items[i]) == x;
      }
      if i :| 0 <= i < |items| && s.resolve(items[i].request) == Some(addr) && Stamped(s, items[i]) == x {
        if i < n { assert s.resolve(front[i].request) == Some(addr) && Stamped(s, front[i]) == x; }
      }
    }
  }

  lemma {:induction false} ItemsForOrder<Q>(s: Snapshot<Q>, items: seq<Item<Q>>, addr: Text)
    ensures Distinct(items) ==> Distinct(ItemsFor(s, items, addr))
    ensures Ascending(items) ==> Ascending(ItemsFor(s, items, addr))
  {
    if items != [] {
      var n := |items| - 1;
      var front, last := items[..n], items[n];
      ItemsForOrder(s, front, addr);
      var before := ItemsFor(s, front, addr);
      assert forall i :: 0 <= i < n ==> front[i] == items[i];
      forall k | 0 <= k < |before|
        ensures Distinct(items) ==> before[k].index != last.index
        ensures Ascending(items) ==> before[k].index < last.index
      {
        ItemsForMembers(s, front, addr, before[k]);
        assert before[k] in before;
        var i :| 0 <= i < n && s.resolve(front[i].request) == Some(addr) && Stamped(s, front[i]) == before[k];
        assert items[i].index == before[k].index;
      }
    }
  }

  /** No position is in two groups, nor twice in one. */
  ghost predicate Separate<Q>(groups: seq<Group<Q>>) {
    && (forall g :: 0 <= g < |groups| ==> Distinct(groups[g].items))
    && (forall g, h :: 0 <= g < h < |groups| ==> Indices(groups[g].items) !! Indices(groups[h].items))
  }

  ghost function Positions<Q>(groups: seq<Group<Q>>): set<nat> {
    if groups == [] then {} else Indices(groups[0].items) + Positions(groups[1..])
  }

  function FlattenGroups<Q>(groups: seq<Group<Q>>): seq<Item<Q>> {
    if groups == [] then [] else groups[0].items + FlattenGroups(groups[1..])
  }

  lemma {:induction false} PositionsIn<Q>(groups: seq<Group<Q>>, i: nat)
    ensures i in Positions(groups) <==> exists g :: 0 <= g < |groups| && i in Indices(groups[g].items)
  {
    if groups != [] {
      PositionsIn(groups[1..], i);
      if i in Positions(groups[1..]) {
        var g :| 0 <= g < |groups| - 1 && i in Indices(groups[1..][g].items);
        assert i in Indices(groups[g + 1].items);
      }
      if g :| 0 <= g < |groups| && i in Indices(groups[g].items) {
        if g > 0 { assert i in Indices(groups[1..][g - 1].items); }
      }
    }
  }

  /** Grouping distinct items separates them and loses none. */
  lemma GroupingSeparates<Q>(s: Snapshot<Q>, items: seq<Item<Q>>, groups: seq<Group<Q>>)
    requires Grouped(s, items, groups) && Distinct(items)
    ensures Separate(groups) && Positions(groups) == Indices(items)
  {
    forall g | 0 <= g < |groups| ensures Distinct(groups[g].items) { ItemsForOrder(s, items, groups[g].addr); }
    forall g, i | 0 <= g < |groups| && i in Indices(groups[g].items)
      ensures exists k :: 0 <= k < |items| && items[k].index == i && s.resolve(items[k].request) == Some(groups[g].addr)
    {
      var k := GroupedFrom(s, items, groups[g].addr, i);
    }
    forall i ensures i in Positions(groups) <==> i in Indices(items) {
      PositionsIn(groups, i);
      if i in Indices(items) {
        var k :| 0 <= k < |items| && items[k].index == i;
        assert Addressed(s, items[k], groups);
        var g :| 0 <= g < |groups| && s.resolve(items[k].request) == Some(groups[g].addr);
        ItemsForMembers(s, items, groups[g].addr, Stamped(s, items[k]));
        var p :| 0 <= p < |groups[g].items| && groups[g].items[p] == Stamped(s, items[k]);
        assert i in Indices(groups[g].items);
      }
    }
  }

  lemma GroupedFrom<Q>(s: Snapshot<Q>, items: seq<Item<Q>>, addr: Text, i: nat) returns (k: nat)
    requires i in Indices(ItemsFor(s, items, addr))
    ensures k < |items| && items[k].index == i && s.resolve(items[k].request) == Some(addr)
    ensures Stamped(s, items[k]) in ItemsFor(s, items, addr)
  {
    var group := ItemsFor(s, items, addr);
    var p :| 0 <= p < |group| && group[p].index == i;
    ItemsForMembers(s, items, addr, group[p]);
    assert group[p] in group;
    k :| 0 <= k < |items| && s.resolve(items[k].request) == Some(addr) && Stamped(s, items[k]) == group[p];
  }

  lemma {:induction false} FlattenDistinct<Q>(groups: seq<Group<Q>>)
    requires Separate(groups)
    ensures Distinct(FlattenGroups(groups)) && Indices(FlattenGroups(groups)) == Positions(groups)
  {
    if groups != [] {
      var head, tail := groups[0].items, FlattenGroups(groups[1..]);
      FlattenDistinct(groups[1..]);
      forall i | i in Positions(groups[1..]) ensures i !in Indices(head) {
        PositionsIn(groups[1..], i);
        var g :| 0 <= g < |groups| - 1 && i in Indices(groups[1..][g].items);
        assert Indices(groups[0].items) !! Indices(groups[g + 1].items);
      }
      IndicesConcat(head, tail);
    }
  }

  lemma IndicesConcat<Q>(a: seq<Item<Q>>, b: seq<Item<Q>>)
    ensures Indices(a + b) == Indices(a) + Indices(b)
    ensures Distinct(a) && Distinct(b) && Indices(a) !! Indices(b) ==> Distinct(a + b)
  {
    var c := a + b;
    forall i ensures i in Indices(c) <==> i in Indices(a) + Indices(b) {
      if i in Indices(a) { var k :| 0 <= k < |a| && a[k].index == i; assert c[k].index == i; }
      if i in Indices(b) { var k :| 0 <= k < |b| && b[k].index == i; assert c[|a| + k].index == i; }
    }
    if Distinct(a) && Distinct(b) && Indices(a) !! Indices(b) {
      forall i, j | 0 <= i < j < |c| ensures c[i].index != c[j].index {
        if i < |a| <= j { assert a[i].index in Indices(a) && b[j - |a|].index in Indices(b); }
      }
    }
  }

  // ---------------------------------------------------------------- what was sent and answered

  /** The positions that have been answered. */
  ghost function AnsweredSet<Q, R>(log: seq<Send<Q, R>>): set<nat> {
    if log == [] then {}
    else AnsweredSet(log[..|log| - 1]) + if log[|log| - 1].outcome.Answer? then Indices(log[|log| - 1].items) else {}
  }

  /** Once a position is answered it is never sent again, and no send names a position twice. */
  ghost predicate NeverResent<Q, R>(log: seq<Send<Q, R>>) {
    forall n :: 0 <= n < |log| ==> Distinct(log[n].items) && Indices(log[n].items) !! AnsweredSet(log[..n])
  }

  /** The results hold, at each answered position, that position's answer. */
  ghost predicate Consistent<Q, R>(log: seq<Send<Q, R>>, results: seq<R>) {
    forall n :: 0 <= n < |log| && log[n].outcome.Answer? ==> HasAnswers(log[n], results)
  }

  ghost predicate HasAnswers<Q, R>(send: Send<Q, R>, results: seq<R>)
    requires send.outcome.Answer?
  {
    |send.outcome.results| == |send.items| &&
    forall p :: 0 <= p < |send.items| ==> send.items[p].index < |results| && results[send.items[p].index] == send.outcome.results[p]
  }

  ghost predicate Sound<Q, R>(log: seq<Send<Q, R>>, results: seq<R>) { NeverResent(log) && Consistent(log, results) }

  /** Scattering a response: position by position, later entries last. */
  function Scatter<Q, R>(results: seq<R>, items: seq<Item<Q>>, response: seq<R>): (r: seq<R>)
    requires forall k :: 0 <= k < |items| ==> items[k].index < |results|
    ensures |r| == |results|
  {
    if response == [] then results
    else
      var n := |response| - 1;
      var before := Scatter(results, items, response[..n]);
      if n < |items| then before[items[n].index := response[n]] else before
  }

  method CopyBatchResults<Q, R>(results: seq<R>, items: seq<Item<Q>>, response: seq<R>) returns (out: seq<R>)
    requires forall k :: 0 <= k < |items| ==> items[k].index < |results|
    ensures out == Scatter(results, items, response)
  {
    out := results;
    for i := 0 to |response|
      invariant |out| == |results| && out == Scatter(results, items, response[..i])
    {
      assert response[..i + 1][..i] == response[..i];
      if i < |items| {
        out := out[items[i].index := response[i]];
      }
    }
    assert response[..|response|] == response;
  }

  lemma {:induction false} ScatterAt<Q, R>(results: seq<R>, items: seq<Item<Q>>, response: seq<R>)
    requires (forall k :: 0 <= k < |items| ==> items[k].index < |results|) && Distinct(items) && |response| <= |items|
    ensures forall p :: 0 <= p < |response| ==> Scatter(results, items, response)[items[p].index] == response[p]
    ensures forall i :: 0 <= i < |results| && i !in Indices(items) ==> Scatter(results, items, response)[i] == results[i]
  {
    if response != [] { ScatterAt(results, items, response[..|response| - 1]); }
  }

  lemma {:induction false} AnsweredIn<Q, R>(log: seq<Send<Q, R>>, n: nat)
    requires n < |log| && log[n].outcome.Answer?
    ensures Indices(log[n].items) <= AnsweredSet(log)
  {
    if n < |log| - 1 {
      AnsweredIn(log[..|log| - 1], n);
    }
  }

  lemma SendRefused<Q, R>(log: seq<Send<Q, R>>, results: seq<R>, send: Send<Q, R>)
    requires Sound(log, results) && send.outcome.Refused? && Distinct(send.items) && Indices(send.items) !! AnsweredSet(log)
    ensures Sound(log + [send], results) && AnsweredSet(log + [send]) == AnsweredSet(log)
  {
    var longer := log + [send];
    assert longer[..|log|] == log;
    NeverResentSnoc(log, send);
  }

  lemma NeverResentSnoc<Q, R>(log: seq<Send<Q, R>>, send: Send<Q, R>)
    requires NeverResent(log) && Distinct(send.items) && Indices(send.items) !! AnsweredSet(log)
    ensures NeverResent(log + [send])
  {
    var longer := log + [send];
    assert longer[..|log|] == log;
    forall n | 0 <= n < |longer| ensures Distinct(longer[n].items) && Indices(longer[n].items) !! AnsweredSet(longer[..n]) {
      if n < |log| { assert longer[..n] == log[..n] && longer[n] == log[n]; }
    }
  }

  lemma SendAnswered<Q, R>(log: seq<Send<Q, R>>, results: seq<R>, send: Send<Q, R>)
    requires Sound(log, results) && send.outcome.Answer? && Distinct(send.items) && Indices(send.items) !! AnsweredSet(log)
    requires |send.outcome.results| == |send.items| && forall k :: 0 <= k < |send.items| ==> send.items[k].index < |results|
    ensures Sound(log + [send], Scatter(results, send.items, send.outcome.results))
    ensures AnsweredSet(log + [send]) == AnsweredSet(log) + Indices(send.items)
  {
    hide Distinct, Scatter, NeverResent, Indices;
    var longer, next := log + [send], Scatter(results, send.items, send.outcome.results);
    assert longer[..|log|] == log;
    NeverResentSnoc(log, send);
    forall n | 0 <= n < |longer| && longer[n].outcome.Answer? ensures HasAnswers(longer[n], next) {
      if n < |log| {
        assert longer[n] == log[n] && HasAnswers(log[n], results);
        AnsweredIn(log, n);
        AnswersKept(log[n], send, results);
      } else {
        ScatterAt(results, send.items, send.outcome.results);
      }
    }
  }

  /** Scattering one response leaves the answers of positions it does not name. */
  lemma AnswersKept<Q, R>(earlier: Send<Q, R>, send: Send<Q, R>, results: seq<R>)
    requires earlier.outcome.Answer? && HasAnswers(earlier, results) && send.outcome.Answer?
    requires Distinct(send.items) && Indices(send.items) !! Indices(earlier.items) && |send.outcome.results| == |send.items|
    requires forall k :: 0 <= k < |send.items| ==> send.items[k].index < |results|
    ensures HasAnswers(earlier, Scatter(results, send.items, send.outcome.results))
  {
    ScatterAt(results, send.items, send.outcome.results);
    forall p | 0 <= p < |earlier.items|
      ensures Scatter(results, send.items, send.outcome.results)[earlier.items[p].index] == earlier.outcome.results[p]
    {
      assert earlier.items[p].index in Indices(earlier.items);
    }
  }

  // ---------------------------------------------------------------- running a batch

  function Requests<Q>(items: seq<Item<Q>>): seq<Q> { seq(|items|, i requires 0 <= i < |items| => items[i].request) }

  /** Nodes answer one result per item. */
  ghost predicate AnswersEveryItem<Q(!new), R(!new)>(transport: Transport<Q, R>) {
    forall n, epoch, addr, requests :: transport(n, epoch, addr, requests).Answer? ==>
      |transport(n, epoch, addr, requests).results| == |requests|
  }

  /** The sends of one pass: the groups in order, each with the outcome the network gave it, all
      answered but possibly the last. */
  ghost predicate SentInOrder<Q(!new), R(!new)>(groups: seq<Group<Q>>, sends: seq<Send<Q, R>>, transport: Transport<Q, R>, epoch: nat, calls: nat) {
    && |sends| <= |groups|
    && (forall n :: 0 <= n < |sends| ==> sends[n] == SendOf(groups[n], transport, epoch, calls + n))
    && (forall n :: 0 <= n < |sends| - 1 ==> sends[n].outcome.Answer?)
  }

  function SendOf<Q(!new), R(!new)>(group: Group<Q>, transport: Transport<Q, R>, epoch: nat, call: nat): Send<Q, R> {
    Send(group.addr, group.items, transport(call, epoch, group.addr, Requests(group.items)))
  }

  lemma {:induction false} PositionsSnoc<Q>(groups: seq<Group<Q>>, g: nat)
    requires g < |groups|
    ensures Positions(groups[..g + 1]) == Positions(groups[..g]) + Indices(groups[g].items)
  {
    if g > 0 {
      assert groups[..g + 1][1..] == groups[1..][..g] && groups[..g][1..] == groups[1..][..g - 1];
      PositionsSnoc(groups[1..], g - 1);
    }
  }

  lemma LaterGroupsApart<Q>(groups: seq<Group<Q>>, g: nat)
    requires Separate(groups) && g < |groups|
    ensures Positions(groups[..g]) !! Indices(groups[g].items)
  {
    forall i | i in Positions(groups[..g]) ensures i !in Indices(groups[g].items) {
      PositionsIn(groups[..g], i);
      var h :| 0 <= h < g && i in Indices(groups[..g][h].items);
      assert Indices(groups[h].items) !! Indices(groups[g].items);
    }
  }

  /** `runRoutedBatch`: sends the groups in order until one is refused; `left` is that group's index. */
  method RunRoutedBatch<Q(!new), R(!new)>(epoch: nat, groups: seq<Group<Q>>, start: seq<R>, transport: Transport<Q, R>, calls: nat,
                                          ghost before: seq<Send<Q, R>>)
    returns (results: seq<R>, failure: Option<bool>, left: nat, count: nat, ghost sends: seq<Send<Q, R>>)
    requires AnswersEveryItem(transport) && Separate(groups) && Sound(before, start) && Positions(groups) !! AnsweredSet(before)
    requires forall i :: i in Positions(groups) ==> i < |start|
    ensures |results| == |start| && Sound(before + sends, results) && left <= |groups|
    ensures SentInOrder(groups, sends, transport, epoch, calls) && count == calls + |sends|
    ensures AnsweredSet(before + sends) == AnsweredSet(before) + Positions(groups[..left])
    ensures failure == LastRefusal(sends) && (failure.None? <==> left == |groups|)
    ensures |sends| == if failure.None? then left else left + 1
  {
    hide Sound, AnsweredSet, Separate, Positions, SentInOrder, Passing, AnswersEveryItem;
    results, failure, left, count, sends := start, None, 0, calls, [];
    PassStart(groups, before, start, transport, epoch, calls);
    while left < |groups|
      invariant left == |sends| <= |groups| && count == calls + left && |results| == |start|
      invariant Passing(groups, before, sends, results, transport, epoch, calls)
    {
      var group := groups[left];
      var outcome := transport(count, epoch, group.addr, Requests(group.items));
      ghost var send := Send(group.addr, group.items, outcome);
      assert send == SendOf(group, transport, epoch, count);
      count := count + 1;
      ReadyToSend(groups, left, AnsweredSet(before), |start|);
      PassStep(groups, before, sends, results, transport, epoch, calls, send);
      sends := sends + [send];
      if outcome.Refused? {
        failure := Some(outcome.refreshable);
        return;
      }
      results := CopyBatchResults(results, group.items, outcome.results);
      left := left + 1;
    }
    PassDone(groups, before, sends, results, transport, epoch, calls);
  }

  /** Whether the last send was refused, and if so whether that asks for a refresh. */
  ghost function LastRefusal<Q, R>(sends: seq<Send<Q, R>>): Option<bool> {
    if sends != [] && sends[|sends| - 1].outcome.Refused? then Some(sends[|sends| - 1].outcome.refreshable) else None
  }

  /** So far every group was answered. */
  ghost predicate Passing<Q(!new), R(!new)>(groups: seq<Group<Q>>, before: seq<Send<Q, R>>, sends: seq<Send<Q, R>>, results: seq<R>,
                                            transport: Transport<Q, R>, epoch: nat, calls: nat) {
    && SentInOrder(groups, sends, transport, epoch, calls) && (forall n :: 0 <= n < |sends| ==> sends[n].outcome.Answer?)
    && Sound(before + sends, results)
    && AnsweredSet(before + sends) == AnsweredSet(before) + Positions(groups[..|sends|])
  }

  lemma PassStart<Q(!new), R(!new)>(groups: seq<Group<Q>>, before: seq<Send<Q, R>>, results: seq<R>, transport: Transport<Q, R>, epoch: nat, calls: nat)
    requires Sound(before, results)
    ensures Passing(groups, before, [], results, transport, epoch, calls)
  {
    hide Sound, AnsweredSet;
    assert before + [] == before;
  }

  lemma PassDone<Q(!new), R(!new)>(groups: seq<Group<Q>>, before: seq<Send<Q, R>>, sends: seq<Send<Q, R>>, results: seq<R>,
                                   transport: Transport<Q, R>, epoch: nat, calls: nat)
    requires Passing(groups, before, sends, results, transport, epoch, calls)
    ensures Sound(before + sends, results) && SentInOrder(groups, sends, transport, epoch, calls)
    ensures AnsweredSet(before + sends) == AnsweredSet(before) + Positions(groups[..|sends|])
    ensures LastRefusal(sends).None?
  {
    hide Sound, AnsweredSet, Positions;
  }

  lemma PassStep<Q(!new), R(!new)>(groups: seq<Group<Q>>, before: seq<Send<Q, R>>, sends: seq<Send<Q, R>>, results: seq<R>,
                                   transport: Transport<Q, R>, epoch: nat, calls: nat, send: Send<Q, R>)
    requires AnswersEveryItem(transport) && Passing(groups, before, sends, results, transport, epoch, calls) && |sends| < |groups|
    requires send == SendOf(groups[|sends|], transport, epoch, calls + |sends|)
    requires Distinct(send.items) && Indices(send.items) !! AnsweredSet(before) + Positions(groups[..|sends|])
    requires forall k :: 0 <= k < |send.items| ==> send.items[k].index < |results|
    ensures SentInOrder(groups, sends + [send], transport, epoch, calls)
    ensures send.outcome.Refused? ==>
              && Sound(before + (sends + [send]), results)
              && AnsweredSet(before + (sends + [send])) == AnsweredSet(before) + Positions(groups[..|sends|])
    ensures send.outcome.Answer? ==>
              Passing(groups, before, sends + [send], Scatter(results, send.items, send.outcome.results), transport, epoch, calls)
  {
    hide Sound, AnsweredSet, Positions, Scatter, Distinct, Indices;
    assert before + (sends + [send]) == before + sends + [send];
    if send.outcome.Refused? {
      SendRefused(before + sends, results, send);
    } else {
      SendAnswered(before + sends, results, send);
      PositionsSnoc(groups, |sends|);
    }
  }

  lemma ReadyToSend<Q>(groups: seq<Group<Q>>, g: nat, answered: set<nat>, size: nat)
    requires Separate(groups) && g < |groups| && Positions(groups) !! answered && forall i :: i in Positions(groups) ==> i < size
    ensures Distinct(groups[g].items) && Indices(groups[g].items) !! answered + Positions(groups[..g])
    ensures forall k :: 0 <= k < |groups[g].items| ==> groups[g].items[k].index < size
  {
    LaterGroupsApart(groups, g);
    forall i | i in Indices(groups[g].items) ensures i in Positions(groups) { PositionsIn(groups, i); }
    forall k | 0 <= k < |groups[g].items| ensures groups[g].items[k].index < size {
      assert groups[g].items[k].index in Indices(groups[g].items);
    }
  }

  // ---------------------------------------------------------------- the whole batch

  function IndexItems<Q>(requests: seq<Q>): seq<Item<Q>> {
    seq(|requests|, i requires 0 <= i < |requests| => Item(i, requests[i]))
  }

  /** Every position has one answer, and the results hold it. */
  ghost predicate FullyAnswered<Q, R>(requests: seq<Q>, results: seq<R>, log: seq<Send<Q, R>>) {
    && |results| == |requests| && Sound(log, results)
    && forall i :: i in AnsweredSet(log) <==> 0 <= i < |requests|
  }

  lemma IndexedItems<Q>(requests: seq<Q>)
    ensures Distinct(IndexItems(requests)) && Ascending(IndexItems(requests))
    ensures forall i :: i in Indices(IndexItems(requests)) <==> 0 <= i < |requests|
  {
    var items := IndexItems(requests);
    forall i ensures i in Indices(items) <==> 0 <= i < |requests| {
      if 0 <= i < |requests| { assert items[i].index == i; }
    }
  }

  /** The sends of a pass name their requests by position, stamped and addressed by its snapshot. */
  ghost predicate SentFrom<Q, R>(s: Snapshot<Q>, items: seq<Item<Q>>, sends: seq<Send<Q, R>>) {
    forall n :: 0 <= n < |sends| ==> sends[n].items == ItemsFor(s, items, sends[n].addr)
  }

  /** Some of the requests, as the first pass stamped them. */
  ghost predicate StampedRequests<Q>(s: Snapshot<Q>, requests: seq<Q>, items: seq<Item<Q>>) {
    forall k :: 0 <= k < |items| ==> items[k].index < |requests| && items[k].request == s.stamp(requests[items[k].index])
  }

  /** Each send had the outcome the network gave that call. */
  ghost predicate Happened<Q(!new), R(!new)>(sends: seq<Send<Q, R>>, transport: Transport<Q, R>, epoch: nat, calls: nat) {
    forall n :: 0 <= n < |sends| ==> sends[n].outcome == transport(calls + n, epoch, sends[n].addr, Requests(sends[n].items))
  }

  ghost predicate RequestOrder<Q, R>(sends: seq<Send<Q, R>>) { forall n :: 0 <= n < |sends| ==> Ascending(sends[n].items) }

  /** What was sent: `one` and `two` are the sends of the two passes, `retry` what the second pass
      was given. No error is reported exactly when the first pass was not refused, or its refusal
      asked for a refresh, the refresh gave a snapshot that routes what was left, and the second
      pass was not refused; every position is then answered exactly once. */
  ghost predicate BatchSent<Q(!new), R(!new)>(requests: seq<Q>, first: Snapshot<Q>, second: Option<Snapshot<Q>>, transport: Transport<Q, R>,
                                              results: seq<R>, ok: bool, one: seq<Send<Q, R>>, two: seq<Send<Q, R>>, retry: seq<Item<Q>>) {
    && SentFrom(first, IndexItems(requests), one) && RequestOrder(one) && Happened(one, transport, first.revision, 0)
    && (ok ==> FullyAnswered(requests, results, one + two))
    && match LastRefusal(one)
       case None => ok && two == []
       case Some(refreshable) =>
         if !refreshable then !ok && two == [] && |results| == |requests| && Sound(one, results)
         else if second.None? then !ok && two == [] && results == []
         else RetrySent(requests, first, second.value, transport, results, ok, one, two, retry)
  }

  /** The second pass is given exactly what the first left unanswered, stamped by the first
      snapshot, and sends it by the fresh one. */
  ghost predicate RetrySent<Q(!new), R(!new)>(requests: seq<Q>, first: Snapshot<Q>, second: Snapshot<Q>, transport: Transport<Q, R>,
                                              results: seq<R>, ok: bool, one: seq<Send<Q, R>>, two: seq<Send<Q, R>>, retry: seq<Item<Q>>) {
    && StampedRequests(first, requests, retry) && Indices(retry) == Indices(IndexItems(requests)) - AnsweredSet(one)
    && SentFrom(second, retry, two) && Happened(two, transport, second.revision, |one|)
    && |results| == |requests| && Sound(one + two, results)
    && (if Routable(second, retry) then ok <==> LastRefusal(two).None? else !ok && two == [])
  }

  /** There is a first pass: the snapshot could be read and routes every request. */
  ghost predicate Starts<Q>(first: Reading<Q>, requests: seq<Q>) {
    first.Loaded? && Routable(first.snapshot, IndexItems(requests))
  }

  /** `routedBatch`. When the first snapshot routes every request, a batch that reports no error
      has every position answered exactly once, with the results in request order; positions
      answered before a refusal are never sent again, and the first pass keeps request order in
      every group. When it cannot be read or does not route them all, the retry has nothing to
      send, and the batch reports no error with no request sent. */
  method Run<Q(!new), R(!new)>(requests: seq<Q>, first: Reading<Q>, second: Option<Snapshot<Q>>, transport: Transport<Q, R>, zero: R)
    returns (results: seq<R>, ok: bool, ghost one: seq<Send<Q, R>>, ghost two: seq<Send<Q, R>>, ghost retry: seq<Item<Q>>)
    requires AnswersEveryItem(transport)
    ensures requests == [] ==> ok && results == [] && one == two == []
    ensures requests != [] && !Starts(first, requests) ==>
              && one == two == [] && (ok <==> (first.Unavailable? ==> first.refreshable) && second.Some?)
              && results == if ok then seq(|requests|, i => zero) else []
    ensures requests != [] && Starts(first, requests) ==>
              BatchSent(requests, first.snapshot, second, transport, results, ok, one, two, retry)
  {
    hide BatchSent, AnswersEveryItem, Routable, Grouped, IndexItems;
    results, ok, one, two, retry := [], requests == [], [], [], [];
    if requests == [] || (first.Unavailable? && !first.refreshable) {
      return;
    }
    if first.Loaded? {
      var groups := GroupItems(first.snapshot, IndexItems(requests));
      if groups.Some? {
        results, ok, one, two, retry := RunGroups(requests, first.snapshot, groups.value, second, transport, zero);
        return;
      }
    }
    // the error asks for a refresh, and no group remains to be sent again
    ok := second.Some?;
    results := if ok then seq(|requests|, i => zero) else [];
  }

  /** Both passes, from the groups of the first snapshot. */
  method RunGroups<Q(!new), R(!new)>(requests: seq<Q>, first: Snapshot<Q>, groups: seq<Group<Q>>, second: Option<Snapshot<Q>>,
                                     transport: Transport<Q, R>, zero: R)
    returns (results: seq<R>, ok: bool, ghost one: seq<Send<Q, R>>, ghost two: seq<Send<Q, R>>, ghost retry: seq<Item<Q>>)
    requires AnswersEveryItem(transport) && Routable(first, IndexItems(requests)) && Grouped(first, IndexItems(requests), groups)
    ensures BatchSent(requests, first, second, transport, results, ok, one, two, retry)
  {
    hide Sound, AnsweredSet, Routable, Grouped, Separate, Positions, FullyAnswered, IndexItems, Indices, SentFrom, Happened, RequestOrder, SentInOrder;
    hide StampedRequests, Distinct, Ascending, AnswersEveryItem, LastRefusal, RetrySent;
    var blank := seq(|requests|, i => zero);
    one, two, retry := [], [], [];
    IndexedItems(requests);
    BlankSound(blank, one);
    GroupingSeparates(first, IndexItems(requests), groups);
    var part, failure, left, count, sends := RunRoutedBatch(first.revision, groups, blank, transport, 0, []);
    one := sends;
    assert [] + one == one && one + [] == one;
    PassSent(first, IndexItems(requests), groups, one, transport, first.revision, 0);
    if failure.None? {
      assert groups[..left] == groups;
      results, ok := part, true;
      AllAnswered(requests, results, one);
    } else if !failure.value {
      results, ok := part, false;
    } else if second.None? {
      results, ok := [], false;
    } else {
      results, ok, two, retry := RetryRemaining(requests, first, groups, left, second.value, part, transport, count, one);
    }
  }

  /** The second pass: what the first left unanswered, regrouped by the fresh snapshot. */
  method RetryRemaining<Q(!new), R(!new)>(requests: seq<Q>, first: Snapshot<Q>, groups: seq<Group<Q>>, left: nat, second: Snapshot<Q>,
                                          start: seq<R>, transport: Transport<Q, R>, count: nat, ghost one: seq<Send<Q, R>>)
    returns (results: seq<R>, ok: bool, ghost two: seq<Send<Q, R>>, ghost retry: seq<Item<Q>>)
    requires AnswersEveryItem(transport) && Grouped(first, IndexItems(requests), groups) && Separate(groups) && left <= |groups|
    requires Positions(groups) == Indices(IndexItems(requests)) && |start| == |requests| && Sound(one, start)
    requires AnsweredSet(one) == Positions(groups[..left]) && count == |one|
    ensures RetrySent(requests, first, second, transport, results, ok, one, two, retry)
    ensures ok ==> FullyAnswered(requests, results, one + two)
  {
    hide Sound, AnsweredSet, Grouped, Separate, Positions, FullyAnswered, IndexItems, Indices, Happened, RequestOrder, SentInOrder;
    hide StampedRequests, Distinct, Ascending, Routable, LastRefusal;
    var remaining := groups[left..];
    RemainingPositions(groups, left);
    FlattenDistinct(remaining);
    var again := FlattenGroups(remaining);
    results, retry, two := start, again, [];
    RetryStamped(first, requests, groups, left);
    var regrouped := GroupItems(second, again);
    if regrouped.None? {
      ok := false;
      NothingHappened(transport, second.revision, |one|);
      assert one + [] == one;
      return;
    }
    hide SentFrom;
    GroupingSeparates(second, again, regrouped.value);
    IndexedItems(requests);
    var failed, stopped, total;
    results, failed, stopped, total, two := RunRoutedBatch(second.revision, regrouped.value, start, transport, count, one);
    PassSent(second, again, regrouped.value, two, transport, second.revision, |one|);
    ok := failed.None?;
    if ok {
      assert regrouped.value[..|regrouped.value|] == regrouped.value;
      AllAnswered(requests, results, one + two);
    }
  }

  lemma NothingHappened<Q(!new), R(!new)>(transport: Transport<Q, R>, epoch: nat, calls: nat)
    ensures Happened([], transport, epoch, calls)
  {
  }

  lemma AllAnswered<Q, R>(requests: seq<Q>, results: seq<R>, log: seq<Send<Q, R>>)
    requires |results| == |requests| && Sound(log, results) && AnsweredSet(log) == Indices(IndexItems(requests))
    ensures FullyAnswered(requests, results, log)
  {
    hide AnsweredSet, Sound;
    IndexedItems(requests);
  }

  lemma PassSent<Q(!new), R(!new)>(s: Snapshot<Q>, items: seq<Item<Q>>, groups: seq<Group<Q>>, sends: seq<Send<Q, R>>, transport: Transport<Q, R>,
                                   epoch: nat, calls: nat)
    requires Grouped(s, items, groups) && SentInOrder(groups, sends, transport, epoch, calls)
    ensures SentFrom(s, items, sends) && Happened(sends, transport, epoch, calls)
    ensures Ascending(items) ==> RequestOrder(sends)
  {
    forall n | 0 <= n < |sends|
      ensures sends[n].items == ItemsFor(s, items, sends[n].addr)
      ensures Ascending(items) ==> Ascending(sends[n].items)
      ensures sends[n].outcome == transport(calls + n, epoch, sends[n].addr, Requests(sends[n].items))
    {
      assert sends[n] == SendOf(groups[n], transport, epoch, calls + n);
      ItemsForOrder(s, items, groups[n].addr);
    }
  }

  lemma RetryStamped<Q>(s: Snapshot<Q>, requests: seq<Q>, groups: seq<Group<Q>>, left: nat)
    requires Grouped(s, IndexItems(requests), groups) && left <= |groups|
    ensures StampedRequests(s, requests, FlattenGroups(groups[left..]))
    decreases |groups| - left
  {
    if left < |groups| {
      var items, group := IndexItems(requests), groups[left].items;
      RetryStamped(s, requests, groups, left + 1);
      assert groups[left..][1..] == groups[left + 1..];
      forall k | 0 <= k < |group| ensures group[k].index < |requests| && group[k].request == s.stamp(requests[group[k].index]) {
        assert group[k] in group;
        ItemsForMembers(s, items, groups[left].addr, group[k]);
        var i :| 0 <= i < |items| && s.resolve(items[i].request) == Some(groups[left].addr) && Stamped(s, items[i]) == group[k];
      }
    }
  }

  lemma BlankSound<Q, R>(results: seq<R>, log: seq<Send<Q, R>>)
    requires log == []
    ensures Sound(log, results) && AnsweredSet(log) == {}
  {
  }

  /** What was not answered in the first pass is what remains. */
  lemma RemainingPositions<Q>(groups: seq<Group<Q>>, left: nat)
    requires Separate(groups) && left <= |groups|
    ensures Separate(groups[left..]) && Positions(groups[..left]) !! Positions(groups[left..])
    ensures Positions(groups) == Positions(groups[..left]) + Positions(groups[left..])
  {
    forall i ensures i in Positions(groups) <==> i in Positions(groups[..left]) || i in Positions(groups[left..])
             ensures !(i in Positions(groups[..left]) && i in Positions(groups[left..])) {
      hide Separate, Positions, Indices;
      SplitPosition(groups, left, i);
      if i in Positions(groups[..left]) && i in Positions(groups[left..]) {
        PositionOnce(groups, left, i);
      }
    }
  }

  lemma SplitPosition<Q>(groups: seq<Group<Q>>, left: nat, i: nat)
    requires left <= |groups|
    ensures i in Positions(groups) <==> i in Positions(groups[..left]) || i in Positions(groups[left..])
    decreases left
  {
    if left == 0 {
      assert groups[..0] == [] && groups[0..] == groups;
    } else {
      assert groups[..left][1..] == groups[1..][..left - 1] && groups[left..] == groups[1..][left - 1..];
      SplitPosition(groups[1..], left - 1, i);
    }
  }

  lemma PositionOnce<Q>(groups: seq<Group<Q>>, left: nat, i: nat)
    requires Separate(groups) && left <= |groups|
    ensures !(i in Positions(groups[..left]) && i in Positions(groups[left..]))
  {
    hide Indices, Positions, Distinct;
    PositionsIn(groups[..left], i);
    PositionsIn(groups[left..], i);
    forall g, h | 0 <= g < left && 0 <= h < |groups| - left
      ensures !(i in Indices(groups[..left][g].items) && i in Indices(groups[left..][h].items))
    {
      Apart(groups, g, left + h, i);
    }
  }

  lemma Apart<Q>(groups: seq<Group<Q>>, g: nat, h: nat, i: nat)
    requires Separate(groups) && g < h < |groups|
    ensures !(i in Indices(groups[g].items) && i in Indices(groups[h].items))
  {
    assert Indices(groups[g].items) !! Indices(groups[h].items);
  }
}
