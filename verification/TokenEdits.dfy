/** Semantic-token delta edits (LSP 3.17, "Semantic Tokens"). The wire speaks of
    offsets in one flat array of integers, five to a token; the client splices
    grouped tokens. */
module TokenEdits {
  import opened Wrappers
  import opened StableSort

  datatype Token = Token(deltaLine: nat, deltaStart: nat, length: nat, tokenType: nat, modifiers: nat)

  datatype Edit = Edit(start: nat, deleteCount: nat, data: Option<seq<Token>>)
  {
    function End(): nat { start + deleteCount }
    function Data(): seq<Token> { if data.Some? then data.value else [] }
    predicate Aligned() { start % 5 == 0 && deleteCount % 5 == 0 }
  }

  // ---- the flat array, and all edits applied to it at once ----

  function Five(t: Token): seq<nat> { [t.deltaLine, t.deltaStart, t.length, t.tokenType, t.modifiers] }

  function Flat(tokens: seq<Token>): seq<nat> {
    if tokens == [] then [] else Five(tokens[0]) + Flat(tokens[1..])
  }

  function Starting(edits: seq<Edit>, p: nat): seq<Edit> {
    if edits == [] then []
    else (if edits[0].start == p then [edits[0]] else []) + Starting(edits[1..], p)
  }

  /** What lands before position `p`. Of several edits at one position a later
      one goes in front, because it is spliced into the result of an earlier one. */
  function Joined(edits: seq<Edit>): seq<nat> {
    if edits == [] then [] else Joined(edits[1..]) + Flat(edits[0].Data())
  }

  function Inserted(edits: seq<Edit>, p: nat): seq<nat> { Joined(Starting(edits, p)) }

  predicate Deleted(edits: seq<Edit>, p: nat) { exists e <- edits :: e.start <= p < e.End() }

  /** The flat array from position `p` on after every edit took effect, each
      measured against the original array: no edit sees another. */
  function Simultaneous(flat: seq<nat>, edits: seq<Edit>, p: nat := 0): seq<nat>
    requires p <= |flat|
    decreases |flat| - p
  {
    Inserted(edits, p) +
    if p == |flat| then []
    else (if Deleted(edits, p) then [] else [flat[p]]) + Simultaneous(flat, edits, p + 1)
  }

  ghost predicate LaterKeep(edits: seq<Edit>) {
    forall p, k | 0 < k < |Starting(edits, p)| :: Starting(edits, p)[k].deleteCount == 0
  }

  ghost predicate Disjoint(edits: seq<Edit>) {
    forall e, f | e in edits && f in edits && e.start < f.start :: e.End() <= f.start
  }

  /** Whole tokens, inside the cached array, not overlapping; and of several
      edits with the same start only the first listed may delete. */
  ghost predicate Acceptable(size: nat, edits: seq<Edit>) {
    && (forall e <- edits :: e.Aligned() && e.End() <= 5 * size)
    && Disjoint(edits)
    && LaterKeep(edits)
  }

  // ---- the client's splice ----

  function Descending(): (Edit, Edit) -> bool { (e: Edit, f: Edit) => e.start >= f.start }

  method ApplySemanticTokenEdits(previous: seq<Token>, edits: seq<Edit>) returns (r: Option<seq<Token>>)
    ensures r.Some? <==> Acceptable(|previous|, edits)
    ensures r.Some? ==> Flat(r.value) == Simultaneous(Flat(previous), edits)
  {
    hide *;
    var sorted := Sort(Descending(), edits);
    SortedEdits(edits);
    ChainEmpty(|previous|);
    assert sorted[..0] == [];
    var upperBound := |previous|;
    var normalized: seq<(nat, nat, seq<Token>)> := [];
    for i := 0 to |sorted|
      invariant |normalized| == i
      invariant upperBound == if i == 0 then |previous| else sorted[i - 1].start / 5
      invariant forall j | 0 <= j < i :: Normal(sorted[j], normalized[j])
      invariant Chain(|previous|, sorted[..i])
    {
      var edit := sorted[i];
      var start, deleteCount := edit.start / 5, edit.deleteCount / 5;
      var end := start + deleteCount;
      PassesMeans(edit, |previous|, upperBound);
      if edit.start % 5 != 0 || edit.deleteCount % 5 != 0 || start > |previous| || end > |previous|
         || end > upperBound {
        Rejected(|previous|, sorted, i, upperBound);
        SameAcceptance(|previous|, edits);
        return None;
      }
      ChainExtend(|previous|, sorted, i, upperBound);
      NormalEdit(edit);
      upperBound := start;
      normalized := normalized + [(start, end, edit.Data())];
    }
    assert sorted[..|sorted|] == sorted;
    ChainAcceptable(|previous|, sorted);
    SameAcceptance(|previous|, edits);

    var data := previous;
    ghost var bound: nat, suffix: seq<Token> := |previous|, [];
    SpliceStart(previous, sorted);
    for i := 0 to |sorted|
      invariant bound <= |previous| && data == previous[..bound] + suffix
      invariant Spliced(previous, sorted, i, bound, suffix)
    {
      var (start, end, replacement) := normalized[i];
      SpliceOne(previous, sorted, i, bound, suffix, normalized[i]);
      KeepFront(previous, start, end, bound, suffix);
      data := data[..start] + replacement + data[end..];
      suffix := replacement + (previous[end..bound] + suffix);
      bound := start;
    }
    SpliceEnd(previous, sorted, bound, suffix);
    SameMeaning(previous, edits);
    r := Some(data);
  }

  // ---- flat arrays ----

  lemma {:induction false} FlatConcat(a: seq<Token>, b: seq<Token>)
    ensures Flat(a + b) == Flat(a) + Flat(b)
    ensures |Flat(a)| == 5 * |a|
  {
    if a == [] {
      assert a + b == b;
    } else {
      assert (a + b)[1..] == a[1..] + b;
      FlatConcat(a[1..], b);
    }
  }

  ghost predicate FlatSize(tokens: seq<Token>) { |Flat(tokens)| == 5 * |tokens| }

  lemma FlatSlice(tokens: seq<Token>, a: nat, b: nat)
    requires a <= b <= |tokens|
    ensures |Flat(tokens)| == 5 * |tokens|
    ensures Flat(tokens[a..b]) == Flat(tokens)[5 * a..5 * b]
  {
    hide Flat;
    var x, y, z := tokens[..a], tokens[a..b], tokens[b..];
    assert tokens == x + (y + z);
    FlatConcat(x, y + z);
    FlatConcat(y, z);
    FlatConcat(tokens, []);
    MiddleOf(Flat(x), Flat(y), Flat(z));
  }

  lemma MiddleOf<T>(a: seq<T>, b: seq<T>, c: seq<T>)
    ensures (a + (b + c))[|a|..|a| + |b|] == b
  {
  }

  // ---- acceptance ----

  ghost predicate Normal(e: Edit, n: (nat, nat, seq<Token>)) {
    e.Aligned() && n == (e.start / 5, e.End() / 5, e.Data())
  }

  lemma NormalEdit(e: Edit)
    requires e.start % 5 == 0 && e.deleteCount % 5 == 0
    ensures Normal(e, (e.start / 5, e.start / 5 + e.deleteCount / 5, e.Data()))
  {
  }

  ghost predicate Ordered(sorted: seq<Edit>) {
    forall i, j | 0 <= i < j < |sorted| :: sorted[i].start >= sorted[j].start
  }

  lemma SortedEdits(edits: seq<Edit>)
    ensures Ordered(Sort(Descending(), edits))
  {
    SortSorted(Descending(), edits);
    var sorted := Sort(Descending(), edits);
    forall i, j | 0 <= i < j < |sorted| ensures sorted[i].start >= sorted[j].start {
      assert Descending()(sorted[i], sorted[j]);
    }
  }

  /** What the loop has checked: each edit ends at or before every earlier start. */
  ghost predicate Chain(size: nat, sorted: seq<Edit>) {
    && (forall e <- sorted :: e.Aligned() && e.End() <= 5 * size)
    && (forall i, j | 0 <= i < j < |sorted| :: sorted[j].End() <= sorted[i].start)
  }

  lemma ChainEmpty(size: nat)
    ensures Chain(size, [])
  {
  }

  /** The loop's own test on one edit, in whole tokens. */
  predicate Passes(e: Edit, size: nat, upperBound: nat) {
    && e.start % 5 == 0 && e.deleteCount % 5 == 0
    && e.start / 5 <= size && e.start / 5 + e.deleteCount / 5 <= size
    && e.start / 5 + e.deleteCount / 5 <= upperBound
  }

  lemma PassesMeans(e: Edit, size: nat, upperBound: nat)
    ensures var start, end := e.start / 5, e.start / 5 + e.deleteCount / 5;
            Passes(e, size, upperBound)
            <==> !(e.start % 5 != 0 || e.deleteCount % 5 != 0 || start > size || end > size || end > upperBound)
  {
  }

  lemma ChainExtend(size: nat, sorted: seq<Edit>, i: nat, upperBound: nat)
    requires i < |sorted| && Chain(size, sorted[..i])
    requires upperBound == if i == 0 then size else sorted[i - 1].start / 5
    requires Passes(sorted[i], size, upperBound)
    ensures Chain(size, sorted[..i + 1])
  {
    var front, edit := sorted[..i], sorted[i];
    assert sorted[..i + 1] == front + [edit];
    forall k | 0 <= k < i ensures edit.End() <= front[k].start {
      assert front[i - 1].Aligned();
      if k < i - 1 {
        assert front[i - 1].End() <= front[k].start;
      }
    }
  }

  lemma StartingCons(e: Edit, rest: seq<Edit>, p: nat)
    ensures Starting([e] + rest, p) == (if e.start == p then [e] else []) + Starting(rest, p)
    ensures Starting([], p) == []
  {
    assert ([e] + rest)[1..] == rest;
  }

  lemma {:induction false} StartingConcat(a: seq<Edit>, b: seq<Edit>, p: nat)
    ensures Starting(a + b, p) == Starting(a, p) + Starting(b, p)
    decreases |a|
  {
    hide *;
    if a == [] {
      assert a + b == b;
      StartingCons(Edit(0, 0, None), b, p);
    } else {
      var first, rest := a[0], a[1..];
      assert a == [first] + rest;
      assert a + b == [first] + (rest + b);
      StartingCons(first, rest, p);
      StartingCons(first, rest + b, p);
      StartingConcat(rest, b, p);
    }
  }

  lemma {:induction false} StartingMembers(edits: seq<Edit>, p: nat)
    ensures forall e :: e in Starting(edits, p) <==> e in edits && e.start == p
  {
    if edits != [] {
      StartingMembers(edits[1..], p);
      assert forall e :: e in edits <==> e == edits[0] || e in edits[1..];
    }
  }

  lemma Rejected(size: nat, sorted: seq<Edit>, i: nat, upperBound: nat)
    requires i < |sorted| && Ordered(sorted)
    requires upperBound == if i == 0 then size else sorted[i - 1].start / 5
    requires !Passes(sorted[i], size, upperBound)
    ensures !Acceptable(size, sorted)
  {
    var e := sorted[i];
    if e.Aligned() && e.End() <= 5 * size && i > 0 && e.start == sorted[i - 1].start {
      var before, here := sorted[..i], [e];
      assert sorted == before + (here + sorted[i + 1..]);
      StartingConcat(before, here + sorted[i + 1..], e.start);
      StartingConcat(here, sorted[i + 1..], e.start);
      StartingMembers(before, e.start);
      assert sorted[i - 1] in Starting(before, e.start);
      assert Starting(here, e.start) == [e];
      assert Starting(sorted, e.start)[|Starting(before, e.start)|] == e;
    }
  }

  lemma {:induction false} ChainLaterKeep(size: nat, sorted: seq<Edit>)
    requires Chain(size, sorted)
    ensures LaterKeep(sorted)
  {
    if sorted != [] {
      var front, e := sorted[..|sorted| - 1], sorted[|sorted| - 1];
      ChainLaterKeep(size, front);
      forall p, k | 0 < k < |Starting(sorted, p)| ensures Starting(sorted, p)[k].deleteCount == 0 {
        assert sorted == front + [e];
        StartingConcat(front, [e], p);
        StartingMembers(front, p);
        assert Starting([e], p) == if e.start == p then [e] else [];
        if k == |Starting(front, p)| {
          assert Starting(sorted, p)[k] == e;
          var first := Starting(front, p)[0];
          assert first in front && first.start == p;
          assert e.End() <= first.start;
        } else {
          assert Starting(sorted, p)[k] == Starting(front, p)[k];
        }
      }
    }
  }

  lemma ChainAcceptable(size: nat, sorted: seq<Edit>)
    requires Chain(size, sorted) && Ordered(sorted)
    ensures Acceptable(size, sorted)
  {
    ChainLaterKeep(size, sorted);
  }

  lemma SameStarting(edits: seq<Edit>, p: nat)
    ensures Starting(Sort(Descending(), edits), p) == Starting(edits, p)
  {
    var here := (e: Edit) => e.start == p;
    SortStable(Descending(), here, edits);
    StartingIsFilter(edits, p, here);
    StartingIsFilter(Sort(Descending(), edits), p, here);
  }

  lemma {:induction false} StartingIsFilter(edits: seq<Edit>, p: nat, here: Edit -> bool)
    requires forall e :: here(e) <==> e.start == p
    ensures Starting(edits, p) == Filter(here, edits)
  {
    if edits != [] {
      StartingIsFilter(edits[1..], p, here);
    }
  }

  lemma SameAcceptance(size: nat, edits: seq<Edit>)
    ensures Acceptable(size, Sort(Descending(), edits)) <==> Acceptable(size, edits)
  {
    var sorted := Sort(Descending(), edits);
    SameElements(Descending(), edits);
    forall p ensures Starting(sorted, p) == Starting(edits, p) {
      SameStarting(edits, p);
    }
    assert LaterKeep(sorted) <==> LaterKeep(edits);
  }

  // ---- meaning ----

  lemma {:induction false} SameSimultaneous(flat: seq<nat>, a: seq<Edit>, b: seq<Edit>, p: nat)
    requires p <= |flat|
    requires forall q | p <= q :: Starting(a, q) == Starting(b, q)
    requires forall q | p <= q :: Deleted(a, q) == Deleted(b, q)
    ensures Simultaneous(flat, a, p) == Simultaneous(flat, b, p)
    decreases |flat| - p
  {
    if p < |flat| {
      SameSimultaneous(flat, a, b, p + 1);
    }
  }

  lemma SameMeaning(previous: seq<Token>, edits: seq<Edit>)
    ensures Simultaneous(Flat(previous), Sort(Descending(), edits)) == Simultaneous(Flat(previous), edits)
  {
    var sorted := Sort(Descending(), edits);
    SameElements(Descending(), edits);
    forall p ensures Starting(sorted, p) == Starting(edits, p) {
      SameStarting(edits, p);
    }
    SameSimultaneous(Flat(previous), sorted, edits, 0);
  }

  lemma NothingAt(edits: seq<Edit>, p: nat)
    requires forall e <- edits :: e.start != p
    ensures Inserted(edits, p) == []
  {
    NoneStarting(edits, p);
  }

  lemma {:induction false} NoneStarting(edits: seq<Edit>, p: nat)
    requires forall e <- edits :: e.start != p
    ensures Starting(edits, p) == []
  {
    if edits != [] {
      NoneStarting(edits[1..], p);
    }
  }

  lemma SnocEdit(edits: seq<Edit>, e: Edit, p: nat)
    ensures Inserted(edits + [e], p) == (if e.start == p then Flat(e.Data()) else []) + Inserted(edits, p)
    ensures Deleted(edits + [e], p) <==> Deleted(edits, p) || e.start <= p < e.End()
  {
    SnocStarting(edits, e, p);
    JoinedSnoc(Starting(edits, p), e);
    assert Starting(edits, p) + [] == Starting(edits, p);
    assert forall f :: f in edits + [e] <==> f in edits || f == e;
  }

  lemma SnocStarting(edits: seq<Edit>, e: Edit, p: nat)
    ensures Starting(edits + [e], p) == Starting(edits, p) + if e.start == p then [e] else []
  {
    StartingConcat(edits, [e], p);
    assert [e][1..] == [];
    assert Starting([e], p) == if e.start == p then [e] else [];
  }

  /** From beyond its own range on, a new edit changes nothing. */
  lemma BeyondEdit(flat: seq<nat>, edits: seq<Edit>, e: Edit, p: nat)
    requires p <= |flat| && e.start < p && e.End() <= p
    ensures Simultaneous(flat, edits + [e], p) == Simultaneous(flat, edits, p)
  {
    forall q | p <= q
      ensures Starting(edits + [e], q) == Starting(edits, q) && Deleted(edits + [e], q) == Deleted(edits, q)
    {
      SnocStarting(edits, e, q);
      SnocEdit(edits, e, q);
    }
    hide *;
    SameSimultaneous(flat, edits + [e], edits, p);
  }

  lemma Unfold(flat: seq<nat>, edits: seq<Edit>, p: nat)
    requires p < |flat|
    ensures Simultaneous(flat, edits, p)
            == Inserted(edits, p) + ((if Deleted(edits, p) then [] else [flat[p]]) + Simultaneous(flat, edits, p + 1))
  {
  }

  lemma {:induction false} JoinedSnoc(edits: seq<Edit>, e: Edit)
    ensures Joined(edits + [e]) == Flat(e.Data()) + Joined(edits)
  {
    if edits == [] {
      assert [e][1..] == [];
    } else {
      assert (edits + [e])[1..] == edits[1..] + [e];
      JoinedSnoc(edits[1..], e);
    }
  }

  /** Above its own start and below the earlier edits, a new edit drops what it
      deletes and keeps the rest. */
  lemma {:induction false} BelowBound(flat: seq<nat>, edits: seq<Edit>, e: Edit, b: nat, p: nat)
    requires b <= |flat| && e.End() <= b && e.start < p <= b
    requires forall f <- edits :: f.start >= b
    ensures var low := if p < e.End() then e.End() else p;
            Simultaneous(flat, edits + [e], p) == flat[low..b] + Simultaneous(flat, edits, b)
    decreases b - p
  {
    hide *;
    if p == b {
      BeyondEdit(flat, edits, e, b);
      assert flat[p..b] == [];
    } else {
      BelowBound(flat, edits, e, b, p + 1);
      BareAt(edits, e, b, p);
      Unfold(flat, edits + [e], p);
      if p >= e.End() {
        assert flat[p..b] == [flat[p]] + flat[p + 1..b];
      }
    }
  }

  lemma BareAt(edits: seq<Edit>, e: Edit, b: nat, p: nat)
    requires e.start < p < b && forall f <- edits :: f.start >= b
    ensures Inserted(edits + [e], p) == [] && (Deleted(edits + [e], p) <==> p < e.End())
  {
    NothingAt(edits, p);
    SnocEdit(edits, e, p);
  }

  lemma AddEdit(flat: seq<nat>, edits: seq<Edit>, e: Edit, b: nat)
    requires b <= |flat| && e.End() <= b
    requires forall f <- edits :: f.start >= b
    ensures Simultaneous(flat, edits + [e], e.start)
            == Flat(e.Data()) + (flat[e.End()..b] + Simultaneous(flat, edits, b))
  {
    hide Simultaneous, Inserted, Deleted, Flat, Starting, Joined;
    var p := e.start;
    SnocEdit(edits, e, p);
    if p < b {
      BelowBound(flat, edits, e, b, p + 1);
      NothingAt(edits, p);
      NoneDeleted(edits, p);
      Unfold(flat, edits + [e], p);
      if e.deleteCount == 0 {
        assert flat[p..b] == [flat[p]] + flat[p + 1..b];
      }
    } else {
      assert flat[b..b] == [];
      if p < |flat| {
        Unfold(flat, edits, p);
        Unfold(flat, edits + [e], p);
        BeyondEdit(flat, edits, e, p + 1);
      } else {
        AtTheEnd(flat, edits);
        AtTheEnd(flat, edits + [e]);
      }
    }
  }

  lemma NoneDeleted(edits: seq<Edit>, p: nat)
    requires forall f <- edits :: f.start > p
    ensures !Deleted(edits, p)
  {
  }

  lemma AtTheEnd(flat: seq<nat>, edits: seq<Edit>)
    ensures Simultaneous(flat, edits, |flat|) == Inserted(edits, |flat|)
  {
  }

  /** The splice loop after `i` edits: what lies behind `bound` is final. */
  ghost predicate Spliced(previous: seq<Token>, sorted: seq<Edit>, i: nat, bound: nat, suffix: seq<Token>) {
    && i <= |sorted| && bound == (if i == 0 then |previous| else sorted[i - 1].start / 5)
    && FlatSize(previous) && bound <= |previous|
    && Flat(suffix) == Simultaneous(Flat(previous), sorted[..i], 5 * bound)
  }

  lemma SpliceStart(previous: seq<Token>, sorted: seq<Edit>)
    ensures Spliced(previous, sorted, 0, |previous|, [])
    ensures previous == previous[..|previous|] + []
  {
    FlatConcat(previous, []);
    hide Flat, Simultaneous;
    assert sorted[..0] == [];
    AtTheEnd(Flat(previous), []);
    NothingInserted(5 * |previous|);
  }

  lemma NothingInserted(p: nat)
    ensures Inserted([], p) == [] && Flat([]) == []
  {
  }

  lemma KeepFront(previous: seq<Token>, start: nat, end: nat, bound: nat, suffix: seq<Token>)
    requires start <= end <= bound <= |previous|
    ensures var data := previous[..bound] + suffix;
            data[..start] == previous[..start] && data[end..] == previous[end..bound] + suffix
  {
  }

  lemma EarlierStart(size: nat, sorted: seq<Edit>, i: nat)
    requires i < |sorted| && Chain(size, sorted)
    ensures var bound := if i == 0 then size else sorted[i - 1].start / 5;
            && sorted[i].Aligned() && sorted[i].End() <= 5 * bound
            && forall f <- sorted[..i] :: f.start >= 5 * bound
  {
    if i > 0 { assert sorted[i - 1].Aligned(); }
    forall f | f in sorted[..i] ensures f.start >= 5 * (sorted[i - 1].start / 5) {
      var j :| 0 <= j < i && sorted[j] == f;
      if j < i - 1 { assert sorted[i - 1].End() <= f.start; }
    }
  }

  lemma SpliceOne(previous: seq<Token>, sorted: seq<Edit>, i: nat, bound: nat, suffix: seq<Token>,
                  n: (nat, nat, seq<Token>))
    requires i < |sorted| && Chain(|previous|, sorted) && Normal(sorted[i], n)
    requires Spliced(previous, sorted, i, bound, suffix)
    ensures n.0 == sorted[i].start / 5 && n.0 <= n.1 <= bound
    ensures Spliced(previous, sorted, i + 1, n.0, n.2 + (previous[n.1..bound] + suffix))
  {
    hide Simultaneous, Inserted, Deleted, Flat, Starting, Joined, Chain;
    var e := sorted[i];
    assert sorted[..i + 1] == sorted[..i] + [e];
    EarlierStart(|previous|, sorted, i);
    AddEdit(Flat(previous), sorted[..i], e, 5 * bound);
    FlatSlice(previous, n.1, bound);
    FlatConcat(n.2, previous[n.1..bound] + suffix);
    FlatConcat(previous[n.1..bound], suffix);
  }

  lemma {:induction false} Untouched(flat: seq<nat>, edits: seq<Edit>, b: nat, p: nat)
    requires p <= b <= |flat| && forall e <- edits :: e.start >= b
    ensures Simultaneous(flat, edits, p) == flat[p..b] + Simultaneous(flat, edits, b)
    decreases b - p
  {
    hide *;
    if p < b {
      Untouched(flat, edits, b, p + 1);
      NothingAt(edits, p);
      NoneDeleted(edits, p);
      Unfold(flat, edits, p);
      assert flat[p..b] == [flat[p]] + flat[p + 1..b];
    } else {
      assert flat[p..b] == [];
    }
  }

  lemma SpliceEnd(previous: seq<Token>, sorted: seq<Edit>, bound: nat, suffix: seq<Token>)
    requires Chain(|previous|, sorted) && Spliced(previous, sorted, |sorted|, bound, suffix)
    ensures Flat(previous[..bound] + suffix) == Simultaneous(Flat(previous), sorted)
  {
    hide Flat, Simultaneous;
    assert sorted[..|sorted|] == sorted;
    forall f | f in sorted ensures f.start >= 5 * bound {
      var j :| 0 <= j < |sorted| && sorted[j] == f;
      if j < |sorted| - 1 { assert sorted[|sorted| - 1].End() <= f.start; }
    }
    Untouched(Flat(previous), sorted, 5 * bound, 0);
    FlatSlice(previous, 0, bound);
    FlatConcat(previous[..bound], suffix);
  }

  // ---- consequences ----

  /** Edits with distinct starts are accepted exactly when they are whole tokens,
      in range and disjoint. */
  lemma DistinctStarts(size: nat, edits: seq<Edit>)
    requires forall i, j | 0 <= i < j < |edits| :: edits[i].start != edits[j].start
    ensures Acceptable(size, edits)
            <==> (forall e <- edits :: e.Aligned() && e.End() <= 5 * size) && Disjoint(edits)
  {
    forall p ensures |Starting(edits, p)| <= 1 {
      AtMostOne(edits, p);
    }
  }

  lemma {:induction false} AtMostOne(edits: seq<Edit>, p: nat)
    requires forall i, j | 0 <= i < j < |edits| :: edits[i].start != edits[j].start
    ensures |Starting(edits, p)| <= 1
  {
    hide *;
    if edits != [] {
      var first, rest := edits[0], edits[1..];
      assert edits == [first] + rest;
      StartingCons(first, rest, p);
      AtMostOne(rest, p);
      if first.start == p {
        forall e | e in rest ensures e.start != p {
          var j :| 0 <= j < |rest| && rest[j] == e;
          assert edits[j + 1] == e;
        }
        NoneStarting(rest, p);
      }
    } else {
      StartingCons(Edit(0, 0, None), [], p);
    }
  }

  lemma {:induction false} StartingCounts(edits: seq<Edit>, p: nat, e: Edit)
    ensures multiset(Starting(edits, p))[e] == if e.start == p then multiset(edits)[e] else 0
  {
    if edits == [] {
      StartingCons(e, [], p);
    } else {
      var first, rest := edits[0], edits[1..];
      assert edits == [first] + rest;
      StartingCons(first, rest, p);
      hide Starting;
      StartingCounts(rest, p, e);
    }
  }

  lemma OneArrangement<T>(xs: seq<T>, ys: seq<T>)
    requires multiset(xs) == multiset(ys) && |xs| <= 1
    ensures xs == ys
  {
    assert |xs| == |multiset(xs)| == |multiset(ys)| == |ys|;
    if xs != [] {
      assert ys[0] in multiset(xs);
      assert xs == [xs[0]] && ys == [ys[0]];
    }
  }

  lemma SameStartings(a: seq<Edit>, b: seq<Edit>, p: nat)
    requires multiset(a) == multiset(b)
    requires forall i, j | 0 <= i < j < |a| :: a[i].start != a[j].start
    ensures Starting(a, p) == Starting(b, p)
  {
    hide *;
    AtMostOne(a, p);
    forall e ensures multiset(Starting(a, p))[e] == multiset(Starting(b, p))[e] {
      StartingCounts(a, p, e);
      StartingCounts(b, p, e);
    }
    OneArrangement(Starting(a, p), Starting(b, p));
  }

  /** The order in which edits with distinct starts are listed matters neither
      to their acceptance nor to their meaning. */
  lemma ListingOrderIrrelevant(size: nat, flat: seq<nat>, a: seq<Edit>, b: seq<Edit>)
    requires multiset(a) == multiset(b)
    requires forall i, j | 0 <= i < j < |a| :: a[i].start != a[j].start
    ensures Acceptable(size, a) <==> Acceptable(size, b)
    ensures Simultaneous(flat, a) == Simultaneous(flat, b)
  {
    forall p ensures Starting(a, p) == Starting(b, p) {
      SameStartings(a, b, p);
    }
    forall e ensures e in a <==> e in b {
      assert e in a <==> e in multiset(a);
      assert e in b <==> e in multiset(b);
    }
    hide Starting, Simultaneous;
    assert LaterKeep(a) <==> LaterKeep(b);
    SameSimultaneous(flat, a, b, 0);
  }

  // ---- what edits mean, token by token ----

  /** A stretch of tokens that stays, then one that goes and what comes instead. */
  datatype Piece = Piece(keep: seq<Token>, gone: seq<Token>, put: Option<seq<Token>>)

  function Before(pieces: seq<Piece>, tail: seq<Token>): seq<Token> {
    if pieces == [] then tail else pieces[0].keep + pieces[0].gone + Before(pieces[1..], tail)
  }

  function After(pieces: seq<Piece>, tail: seq<Token>): seq<Token> {
    if pieces == [] then tail
    else pieces[0].keep + Instead(pieces[0].put) + After(pieces[1..], tail)
  }

  function Instead(put: Option<seq<Token>>): seq<Token> {
    match put
    case Some(data) => data
    case None => []
  }

  /** The edits on the wire, in offsets of the flat array, the last one first. */
  function EditsOf(pieces: seq<Piece>, offset: nat): seq<Edit> {
    if pieces == [] then []
    else
      var Piece(keep, gone, put) := pieces[0];
      EditsOf(pieces[1..], offset + |keep| + |gone|) + [Edit(5 * (offset + |keep|), 5 * |gone|, put)]
  }

  lemma {:induction false} EditsStart(pieces: seq<Piece>, offset: nat)
    ensures forall e <- EditsOf(pieces, offset) :: e.start >= 5 * offset
  {
    if pieces != [] {
      EditsStart(pieces[1..], offset + |pieces[0].keep| + |pieces[0].gone|);
    }
  }

  /** The pieces of an array that starts with `front`. */
  lemma {:induction false} EditsRewrite(front: seq<Token>, pieces: seq<Piece>, tail: seq<Token>)
    ensures 5 * |front| <= |Flat(front + Before(pieces, tail))|
    ensures Simultaneous(Flat(front + Before(pieces, tail)), EditsOf(pieces, |front|), 5 * |front|)
            == Flat(After(pieces, tail))
    decreases |pieces|
  {
    var all := front + Before(pieces, tail);
    FlatConcat(front, Before(pieces, tail));
    FlatConcat(front, []);
    if pieces == [] {
      NoEdits(Flat(all), 5 * |front|);
      assert Flat(all)[5 * |front|..] == Flat(tail);
    } else {
      var Piece(keep, gone, put) := pieces[0];
      var rest := pieces[1..];
      var further := front + keep + gone;
      assert all == further + Before(rest, tail);
      EditsRewrite(further, rest, tail);
      hide *;
      EditsStep(front, pieces, tail);
    }
  }

  lemma PiecesUnfold(pieces: seq<Piece>, tail: seq<Token>, offset: nat)
    requires pieces != []
    ensures var Piece(keep, gone, put) := pieces[0];
      && Before(pieces, tail) == keep + gone + Before(pieces[1..], tail)
      && After(pieces, tail) == keep + Instead(put) + After(pieces[1..], tail)
      && EditsOf(pieces, offset)
         == EditsOf(pieces[1..], offset + |keep| + |gone|) + [Edit(5 * (offset + |keep|), 5 * |gone|, put)]
  {
  }

  lemma EditsStep(front: seq<Token>, pieces: seq<Piece>, tail: seq<Token>)
    requires pieces != [] && 5 * |front| <= |Flat(front + Before(pieces, tail))|
    requires var further, rest := front + pieces[0].keep + pieces[0].gone, pieces[1..];
      && 5 * |further| <= |Flat(further + Before(rest, tail))|
      && Simultaneous(Flat(further + Before(rest, tail)), EditsOf(rest, |further|), 5 * |further|)
         == Flat(After(rest, tail))
    ensures Simultaneous(Flat(front + Before(pieces, tail)), EditsOf(pieces, |front|), 5 * |front|)
            == Flat(After(pieces, tail))
  {
    hide *;
    var Piece(keep, gone, put) := pieces[0];
    var rest, further := pieces[1..], front + keep + gone;
    PiecesUnfold(pieces, tail, |front|);
    EditsStart(rest, |further|);
    var all := further + Before(rest, tail);
    assert front + Before(pieces, tail) == all;
    assert all[|front|..|front| + |keep|] == keep;
    FlatSlice(all, |front|, |front| + |keep|);
    OneMore(Flat(all), EditsOf(rest, |further|), 5 * |front|, 5 * |keep|, 5 * |gone|, put);
    FlatConcat(keep + Instead(put), After(rest, tail));
    FlatConcat(keep, Instead(put));
    Append3(Flat(keep), Flat(Instead(put)), Flat(After(rest, tail)));
  }

  lemma Append3<T>(a: seq<T>, b: seq<T>, c: seq<T>)
    ensures a + (b + c) == a + b + c
  {
  }

  /** One edit before all others, in a flat array. */
  lemma OneMore(flat: seq<nat>, later: seq<Edit>, p: nat, keep: nat, gone: nat, put: Option<seq<Token>>)
    requires p + keep + gone <= |flat| && forall f <- later :: f.start >= p + keep + gone
    ensures Simultaneous(flat, later + [Edit(p + keep, gone, put)], p)
            == flat[p..p + keep] + (Flat(Instead(put)) + Simultaneous(flat, later, p + keep + gone))
  {
    hide *;
    var all := later + [Edit(p + keep, gone, put)];
    EditFirst(flat, later, p + keep, gone, put);
    AllStart(later, Edit(p + keep, gone, put), p + keep);
    Untouched(flat, all, p + keep, p);
  }

  lemma EditFirst(flat: seq<nat>, later: seq<Edit>, p: nat, gone: nat, put: Option<seq<Token>>)
    requires p + gone <= |flat| && forall f <- later :: f.start >= p + gone
    ensures Simultaneous(flat, later + [Edit(p, gone, put)], p)
            == Flat(Instead(put)) + Simultaneous(flat, later, p + gone)
  {
    EditSays(p, gone, put);
    hide *;
    AddEdit(flat, later, Edit(p, gone, put), p + gone);
    NothingBetween(flat, p + gone, Simultaneous(flat, later, p + gone));
  }

  lemma EditSays(start: nat, gone: nat, put: Option<seq<Token>>)
    ensures var e := Edit(start, gone, put); e.Data() == Instead(put) && e.End() == start + gone
  {
  }

  lemma NothingBetween(flat: seq<nat>, p: nat, rest: seq<nat>)
    requires p <= |flat|
    ensures flat[p..p] + rest == rest
  {
  }

  lemma AllStart(edits: seq<Edit>, e: Edit, b: nat)
    requires e.start >= b && forall f <- edits :: f.start >= b
    ensures forall f <- edits + [e] :: f.start >= b
  {
    forall f <- edits + [e] ensures f.start >= b {
      assert f in edits || f == e;
    }
  }

  lemma {:induction false} NoEdits(flat: seq<nat>, p: nat)
    requires p <= |flat|
    ensures Simultaneous(flat, [], p) == flat[p..]
    decreases |flat| - p
  {
    if p < |flat| {
      NoEdits(flat, p + 1);
      assert flat[p..] == [flat[p]] + flat[p + 1..];
    }
  }

  /** Applying the edits of any rewriting, however they are listed, replaces just
      the stretches that go by what comes instead. Pieces that start at one and
      the same place are told apart by the listing, so they are excluded. */
  lemma EditsMean(pieces: seq<Piece>, tail: seq<Token>, edits: seq<Edit>)
    requires multiset(edits) == multiset(EditsOf(pieces, 0))
    requires forall i, j | 0 <= i < j < |EditsOf(pieces, 0)| :: EditsOf(pieces, 0)[i].start != EditsOf(pieces, 0)[j].start
    ensures Simultaneous(Flat(Before(pieces, tail)), edits) == Flat(After(pieces, tail))
  {
    assert [] + Before(pieces, tail) == Before(pieces, tail);
    EditsRewrite([], pieces, tail);
    hide *;
    ListingOrderIrrelevant(0, Flat(Before(pieces, tail)), EditsOf(pieces, 0), edits);
  }

  /** One edit: replace, insert or delete. */
  lemma OneEdit(a: seq<Token>, mid: seq<Token>, b: seq<Token>, data: seq<Token>)
    ensures Simultaneous(Flat(a + mid + b), [Edit(5 * |a|, 5 * |mid|, Some(data))]) == Flat(a + data + b)
    ensures Simultaneous(Flat(a + mid + b), [Edit(5 * |a|, 5 * |mid|, None)]) == Flat(a + b)
  {
    hide *;
    InsteadOf(a, b, data);
    OnePiece(a, mid, b, Some(data));
    OnePiece(a, mid, b, None);
  }

  lemma InsteadOf(a: seq<Token>, b: seq<Token>, data: seq<Token>)
    ensures Instead(Some(data)) == data && a + Instead(None) + b == a + b
  {
  }

  lemma OnePiece(a: seq<Token>, mid: seq<Token>, b: seq<Token>, put: Option<seq<Token>>)
    ensures Simultaneous(Flat(a + mid + b), [Edit(5 * |a|, 5 * |mid|, put)]) == Flat(a + Instead(put) + b)
  {
    var pieces := [Piece(a, mid, put)];
    NoPieces(b, |a| + |mid|);
    assert pieces[1..] == [];
    PiecesUnfold(pieces, b, 0);
    hide *;
    assert EditsOf(pieces, 0) == [Edit(5 * |a|, 5 * |mid|, put)];
    EditsMean(pieces, b, EditsOf(pieces, 0));
  }

  lemma NoPieces(tail: seq<Token>, offset: nat)
    ensures Before([], tail) == tail == After([], tail) && EditsOf([], offset) == []
  {
  }

  /** Two edits of separate stretches, listed either way. */
  lemma TwoEdits(a: seq<Token>, m: seq<Token>, b: seq<Token>, n: seq<Token>, c: seq<Token>, d: seq<Token>, f: seq<Token>)
    requires m + b != []
    ensures var first, second := Edit(5 * |a|, 5 * |m|, Some(d)), Edit(5 * |a + m + b|, 5 * |n|, Some(f));
      && Simultaneous(Flat(a + m + b + n + c), [first, second]) == Flat(a + d + b + f + c)
      && Simultaneous(Flat(a + m + b + n + c), [second, first]) == Flat(a + d + b + f + c)
  {
    hide *;
    var first, second := Edit(5 * |a|, 5 * |m|, Some(d)), Edit(5 * |a + m + b|, 5 * |n|, Some(f));
    var pieces := [Piece(a, m, Some(d)), Piece(b, n, Some(f))];
    TwoPieces(a, m, b, n, c, d, f);
    Swapped(first, second);
    EditsMean(pieces, c, [first, second]);
    EditsMean(pieces, c, [second, first]);
  }

  lemma TwoPieces(a: seq<Token>, m: seq<Token>, b: seq<Token>, n: seq<Token>, c: seq<Token>, d: seq<Token>, f: seq<Token>)
    ensures var pieces := [Piece(a, m, Some(d)), Piece(b, n, Some(f))];
      && EditsOf(pieces, 0) == [Edit(5 * |a + m + b|, 5 * |n|, Some(f)), Edit(5 * |a|, 5 * |m|, Some(d))]
      && Before(pieces, c) == a + m + b + n + c && After(pieces, c) == a + d + b + f + c
  {
    assert Instead(Some(d)) == d && Instead(Some(f)) == f;
    var rest := [Piece(b, n, Some(f))];
    var pieces := [Piece(a, m, Some(d)), Piece(b, n, Some(f))];
    assert pieces[1..] == rest && rest[1..] == [];
    NoPieces(c, |a| + |m| + |b| + |n|);
    PiecesUnfold(rest, c, |a| + |m|);
    PiecesUnfold(pieces, c, 0);
    hide *;
    Spread(a, m, b, n, c);
    Spread(a, d, b, f, c);
  }

  lemma Spread<T>(a: seq<T>, b: seq<T>, c: seq<T>, d: seq<T>, e: seq<T>)
    ensures a + b + (c + d + e) == a + b + c + d + e
  {
  }

  lemma Swapped<T>(x: T, y: T)
    ensures multiset([x, y]) == multiset([y, x])
  {
  }
}
