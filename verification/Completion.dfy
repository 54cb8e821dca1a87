/** Completion lists: ranked, cut to size, and remembered so that a later
    resolve names an item of exactly the list the editor was shown. */
module Completion {
  import opened Wrappers
  import opened Lexicographic
  import opened StableSort

  /** `body` stands for every field that ranking does not read. */
  datatype Item = Item(caption: string, sortText: Option<string>, body: seq<char>)

  // ---- ranking ----

  function SortKey(item: Item): string { if item.sortText.Some? then item.sortText.value else item.caption }

  predicate RankLe(a: Item, b: Item) {
    if SortKey(a) == SortKey(b) then StrLe(a.caption, b.caption) else StrLe(SortKey(a), SortKey(b))
  }

  lemma RankOrder()
    ensures TotalPreorder(RankLe)
  {
    hide StrLe;
    forall x, y ensures RankLe(x, y) || RankLe(y, x) {
      StrOrder(SortKey(x), SortKey(y), SortKey(y));
      StrOrder(x.caption, y.caption, y.caption);
    }
    forall x, y, z | RankLe(x, y) && RankLe(y, z) ensures RankLe(x, z) {
      StrOrder(SortKey(x), SortKey(y), SortKey(z));
      StrOrder(SortKey(y), SortKey(x), SortKey(y));
      StrOrder(SortKey(y), SortKey(z), SortKey(y));
      StrOrder(x.caption, y.caption, z.caption);
    }
  }

  function Rank(items: seq<Item>): seq<Item> { Sort(RankLe, items) }

  function Limit(maxItems: nat): nat { if maxItems < 1 then 1 else if maxItems > 500 then 500 else maxItems }

  /** What is delivered for a server's reply. */
  function Kept(reply: seq<Item>, maxItems: nat, sortItems: bool): seq<Item> {
    var items := if sortItems then Rank(reply) else reply;
    if |items| > Limit(maxItems) then items[..Limit(maxItems)] else items
  }

  function Dropped(reply: seq<Item>, maxItems: nat): seq<Item> { Rank(reply)[|Kept(reply, maxItems, true)|..] }

  /** Ranking first and cutting afterwards: kept and dropped items together are
      the server's, and no dropped item ranks strictly ahead of a kept one. */
  lemma NothingBetterDropped(reply: seq<Item>, maxItems: nat)
    ensures var kept, dropped := Kept(reply, maxItems, true), Dropped(reply, maxItems);
            && kept + dropped == Rank(reply) && multiset(kept) + multiset(dropped) == multiset(reply)
            && (dropped != [] ==> |kept| == Limit(maxItems))
            && forall x, y | x in kept && y in dropped :: RankLe(x, y)
  {
    hide RankLe, Limit, Sort, TotalPreorder;
    var ranked, kept, dropped := Rank(reply), Kept(reply, maxItems, true), Dropped(reply, maxItems);
    RankOrder();
    SortSorted(RankLe, reply);
    SortPermutes(RankLe, reply);
    assert ranked == kept + dropped;
    forall x, y | x in kept && y in dropped ensures RankLe(x, y) {
      var i :| 0 <= i < |kept| && kept[i] == x;
      var j :| 0 <= j < |dropped| && dropped[j] == y;
      assert x == ranked[i] && y == ranked[|kept| + j];
    }
  }

  /** Ranked items follow their sort texts, the label standing in where a server
      omits one, and their labels where those agree. */
  lemma RankedBySortText(reply: seq<Item>, i: nat, j: nat)
    requires i < j < |Rank(reply)|
    ensures var x, y := Rank(reply)[i], Rank(reply)[j];
            var kx := if x.sortText.Some? then x.sortText.value else x.caption;
            var ky := if y.sortText.Some? then y.sortText.value else y.caption;
            StrLe(kx, ky) && (kx == ky ==> StrLe(x.caption, y.caption))
  {
    hide StrLe;
    RankOrder();
    SortSorted(RankLe, reply);
    assert RankLe(Rank(reply)[i], Rank(reply)[j]);
    StrOrder(SortKey(Rank(reply)[i]), SortKey(Rank(reply)[j]), "");
  }

  /** The editor's limit is obeyed, but never below one item or above 500; with
      ranking off the server's own first items are delivered. */
  lemma KeptSize(reply: seq<Item>, maxItems: nat, sortItems: bool)
    ensures var kept := Kept(reply, maxItems, sortItems);
      && (maxItems == 0 && reply != [] ==> |kept| == 1)
      && (1 <= maxItems <= 500 ==> |kept| == if |reply| <= maxItems then |reply| else maxItems)
      && (maxItems > 500 ==> |kept| == if |reply| <= 500 then |reply| else 500)
      && (!sortItems ==> kept <= reply)
      && (sortItems ==> kept <= Rank(reply))
  {
    hide RankLe, Sort;
    SortPermutes(RankLe, reply);
  }

  function Group(key: string, items: seq<Item>): seq<Item> { Filter((item: Item) => SortKey(item) == key, items) }

  /** Items sharing a sort key keep the server's order exactly when the server
      already listed them by label. */
  lemma GroupKeepsServerOrder(items: seq<Item>, key: string)
    ensures Group(key, Rank(items)) == Sort(RankLe, Group(key, items))
    ensures Group(key, Rank(items)) == Group(key, items) <==> ByCaption(Group(key, items))
  {
    hide RankLe, StrLe, Sort, Filter, TotalPreorder;
    RankOrder();
    FilterSort(RankLe, (item: Item) => SortKey(item) == key, items);
    SortFixed(RankLe, Group(key, items));
    GroupOrder(key, items);
  }

  ghost predicate ByCaption(items: seq<Item>) {
    forall i, j | 0 <= i < j < |items| :: StrLe(items[i].caption, items[j].caption)
  }

  lemma GroupOrder(key: string, items: seq<Item>)
    ensures Sorted(RankLe, Group(key, items)) <==> ByCaption(Group(key, items))
  {
    hide StrLe, Filter;
    var group := Group(key, items);
    forall i | 0 <= i < |group| ensures SortKey(group[i]) == key {
      FilterKeeps((item: Item) => SortKey(item) == key, items, group[i]);
    }
    if Sorted(RankLe, group) {
      forall i, j | 0 <= i < j < |group| ensures StrLe(group[i].caption, group[j].caption) {
        assert RankLe(group[i], group[j]);
      }
    }
  }

  /** So a shared sort text does not by itself keep the server's order. */
  lemma SharedSortTextReordered()
    ensures var b, a := Item("b", Some("1"), ""), Item("a", Some("1"), "");
            SortKey(a) == SortKey(b) && Rank([b, a]) == [a, b]
  {
    var b, a := Item("b", Some("1"), ""), Item("a", Some("1"), "");
    assert Utf8.Encode("a") == [97] && Utf8.Encode("b") == [98];
    assert !RankLe(b, a);
    assert [b, a][1..] == [a] && [a][1..] == [];
    assert Sort(RankLe, [a]) == [a];
    assert Insert(RankLe, b, [a]) == [a] + Insert(RankLe, b, []);
  }

  // ---- identity ----

  /** The lock-protected steps of the completion requests of one client. */
  datatype Op =
    | Start                                      // a request takes the next generation
    | Drop(generation: nat)                      // superseded, or it failed
    | Deliver(generation: nat, kept: seq<Item>)  // the reply is cached and sent to the editor

  datatype State = State(counter: nat, waiting: set<nat>, generation: nat, items: seq<Item>)
  {
    predicate Enabled(op: Op) { op.Start? || op.generation in waiting }

    function Apply(op: Op): State {
      match op
      case Start => this.(counter := counter + 1, waiting := waiting + {counter + 1})
      case Drop(g) => this.(waiting := waiting - {g})
      case Deliver(g, kept) =>
        var left := waiting - {g};
        if g >= generation then State(counter, left, g, kept) else this.(waiting := left)
    }

    function Resolve(g: nat, index: nat): Option<Item> {
      if generation == g && index < |items| then Some(items[index]) else None
    }
  }

  const IDLE := State(0, {}, 0, [])

  /** What the editor and the server do. */
  datatype Event =
    | Wanted
    | GivenUp(generation: nat)
    | Replied(generation: nat, reply: seq<Item>, maxItems: nat, sortItems: bool)
    | Selected(generation: nat, index: nat)

  /** The answer to one resolve. */
  datatype Resolved = Resolved(generation: nat, index: nat, item: Option<Item>)

  class Completions {
    var counter: nat
    var generation: nat
    var items: seq<Item>
    var waiting: set<nat>

    function View(): State
      reads this
    {
      State(counter, waiting, generation, items)
    }

    constructor ()
      ensures View() == IDLE
    {
      counter, generation, items, waiting := 0, 0, [], {};
    }

    /** The generation is taken when the request starts, not when it returns. */
    method Start() returns (g: nat)
      modifies this
      ensures View() == old(View()).Apply(Op.Start) && g == counter
    {
      counter := counter + 1;
      waiting := waiting + {counter};
      g := counter;
    }

    method Drop(g: nat)
      modifies this
      ensures View() == old(View()).Apply(Op.Drop(g))
    {
      waiting := waiting - {g};
    }

    method Deliver(g: nat, reply: seq<Item>, maxItems: nat, sortItems: bool) returns (kept: seq<Item>)
      modifies this
      ensures kept == Kept(reply, maxItems, sortItems)
      ensures View() == old(View()).Apply(Op.Deliver(g, kept))
    {
      kept := reply;
      if sortItems {
        kept := Rank(kept);
      }
      var limit := Limit(maxItems);
      if |kept| > limit {
        kept := kept[..limit];
      }
      if g >= generation {
        generation := g;
        items := kept;
      }
      waiting := waiting - {g};
    }

    method Resolve(g: nat, index: nat) returns (r: Option<Item>)
      ensures r == View().Resolve(g, index)
    {
      if generation != g || index >= |items| {
        return None;
      }
      r := Some(items[index]);
    }

    /** Any schedule, events that cannot happen being skipped, is a legal history
        of the object, and each resolve on the way is answered from the history
        so far. */
    method Drive(schedule: seq<Event>) returns (answers: seq<Resolved>, ghost ops: seq<Op>)
      requires View() == IDLE
      modifies this
      ensures Legal(ops) && After(ops) == View()
      ensures forall a <- answers :: AnsweredFrom(ops, a)
    {
      answers, ops := [], [];
      for k := 0 to |schedule|
        invariant Legal(ops) && After(ops) == View()
        invariant forall a <- answers :: AnsweredFrom(ops, a)
      {
        ghost var op: Op;
        match schedule[k] {
          case Wanted =>
            var g := Start();
            op := Op.Start;
          case GivenUp(g) =>
            if g !in waiting { continue; }
            Drop(g);
            op := Op.Drop(g);
          case Replied(g, reply, maxItems, sortItems) =>
            if g !in waiting { continue; }
            var kept := Deliver(g, reply, maxItems, sortItems);
            op := Op.Deliver(g, kept);
          case Selected(g, index) =>
            var item := Resolve(g, index);
            answers := answers + [Resolved(g, index, item)];
            assert ops[..|ops|] == ops && AnsweredFrom(ops, Resolved(g, index, item));
            continue;
        }
        HistoryGrows(ops, op, answers);
        ops := ops + [op];
      }
    }
  }

  /** The answer is what the history up to some moment resolves to. */
  ghost predicate AnsweredFrom(ops: seq<Op>, a: Resolved) {
    exists n: nat | n <= |ops| :: Legal(ops[..n]) && After(ops[..n]).Resolve(a.generation, a.index) == a.item
  }

  lemma HistoryGrows(ops: seq<Op>, op: Op, answers: seq<Resolved>)
    requires Legal(ops) && After(ops).Enabled(op) && forall a <- answers :: AnsweredFrom(ops, a)
    ensures Legal(ops + [op]) && After(ops + [op]) == After(ops).Apply(op)
    ensures forall a <- answers :: AnsweredFrom(ops + [op], a)
  {
    assert (ops + [op])[..|ops|] == ops;
    forall a <- answers ensures AnsweredFrom(ops + [op], a) {
      var n: nat :| n <= |ops| && Legal(ops[..n]) && After(ops[..n]).Resolve(a.generation, a.index) == a.item;
      assert (ops + [op])[..n] == ops[..n];
    }
  }

  // ---- every interleaving ----

  function After(ops: seq<Op>): State {
    if ops == [] then IDLE else After(ops[..|ops| - 1]).Apply(ops[|ops| - 1])
  }

  ghost predicate Legal(ops: seq<Op>) {
    ops == [] || (Legal(ops[..|ops| - 1]) && After(ops[..|ops| - 1]).Enabled(ops[|ops| - 1]))
  }

  /** The cache holds the newest list delivered so far; no generation is both
      delivered and still awaited. */
  ghost predicate Newest(ops: seq<Op>, s: State) {
    && (forall g <- s.waiting :: 1 <= g <= s.counter)
    && (forall op <- ops :: op.Deliver? ==> 1 <= op.generation <= s.generation && op.generation !in s.waiting)
    && s.generation <= s.counter
    && (if s.generation == 0 then s.items == [] else Op.Deliver(s.generation, s.items) in ops)
    && (forall o, p | o in ops && p in ops && o.Deliver? && p.Deliver? && o.generation == p.generation :: o == p)
  }

  lemma NewestStep(ops: seq<Op>, s: State, op: Op)
    requires Newest(ops, s) && s.Enabled(op)
    ensures Newest(ops + [op], s.Apply(op))
  {
  }

  lemma {:induction false} NewestAlways(ops: seq<Op>)
    requires Legal(ops)
    ensures Newest(ops, After(ops))
  {
    if ops != [] {
      var before, last := ops[..|ops| - 1], ops[|ops| - 1];
      NewestAlways(before);
      NewestStep(before, After(before), last);
      assert ops == before + [last];
    }
  }

  function Starts(ops: seq<Op>): nat {
    if ops == [] then 0 else Starts(ops[..|ops| - 1]) + if ops[|ops| - 1].Start? then 1 else 0
  }

  ghost predicate Over(ops: seq<Op>, g: nat) { exists op <- ops :: !op.Start? && op.generation == g }

  /** The n-th request has generation n, and is awaited until its reply is
      delivered or it is given up. */
  lemma {:induction false} AwaitedExactly(ops: seq<Op>)
    requires Legal(ops)
    ensures After(ops).counter == Starts(ops)
    ensures forall g :: g in After(ops).waiting <==> 1 <= g <= Starts(ops) && !Over(ops, g)
    ensures forall op <- ops :: !op.Start? ==> 1 <= op.generation <= Starts(ops)
  {
    if ops != [] {
      var before, last := ops[..|ops| - 1], ops[|ops| - 1];
      AwaitedExactly(before);
      assert ops == before + [last];
      forall g ensures Over(ops, g) <==> Over(before, g) || (!last.Start? && last.generation == g) {
        assert last in ops;
      }
    }
  }

  ghost predicate NewestDelivery(ops: seq<Op>, g: nat, kept: seq<Item>) {
    Op.Deliver(g, kept) in ops && forall op <- ops :: op.Deliver? ==> op.generation <= g
  }

  /** In every interleaving a resolve of (generation, index) succeeds exactly
      when that generation is the newest one delivered, and then uses exactly
      the item that was delivered under that index. */
  lemma ResolveExact(ops: seq<Op>, g: nat, index: nat, x: Item)
    requires Legal(ops)
    ensures After(ops).Resolve(g, index) == Some(x)
            <==> exists kept :: NewestDelivery(ops, g, kept) && index < |kept| && kept[index] == x
  {
    NewestAlways(ops);
    var s := After(ops);
    if s.Resolve(g, index) == Some(x) {
      assert NewestDelivery(ops, g, s.items);
    }
    if kept :| NewestDelivery(ops, g, kept) && index < |kept| && kept[index] == x {
      assert Op.Deliver(s.generation, s.items) in ops;
    }
  }

  /** And a generation names one list only. */
  lemma OneListPerGeneration(ops: seq<Op>, g: nat, kept: seq<Item>, other: seq<Item>)
    requires Legal(ops) && Op.Deliver(g, kept) in ops && Op.Deliver(g, other) in ops
    ensures kept == other
  {
    NewestAlways(ops);
  }
}
