/** Code lenses and code actions are executed by index into the latest reply.
    An index means something only inside the reply that supplied it, so the
    cache remembers that reply's identity: the editor's request generation and
    the document. */
module ReplyCache {
  import opened Wrappers

  datatype Identity = Identity(generation: nat, uri: string)
  {
    predicate Matches(g: nat, u: string) { g > 0 && u != "" && generation == g && uri == u }

    predicate Opens(g: nat, u: string) { g > generation && u != "" }

    function Begin(g: nat, u: string): Identity { if Opens(g, u) then Identity(g, u) else this }

    /** The generation stays: a late request must not reopen it. */
    function Invalidate(): Identity { Identity(generation, "") }

    function InvalidateUri(u: string): Identity { if uri == u then Invalidate() else this }

    /** Past `g` for good, or at `g` but no longer for `u`. */
    predicate Retired(g: nat, u: string) { generation > g || (generation == g && uri != u) }
  }

  const FRESH := Identity(0, "")

  class Cache<T> {
    var identity: Identity
    var items: seq<T>

    constructor ()
      ensures identity == FRESH && items == []
    {
      identity, items := FRESH, [];
    }

    method Begin(generation: nat, uri: string) returns (ok: bool)
      modifies this
      ensures ok == old(identity).Opens(generation, uri)
      ensures Content(identity, items) == Content(old(identity), old(items)).Apply(Op.Begin(generation, uri))
    {
      if generation <= identity.generation || uri == "" {
        return false;
      }
      identity := Identity(generation, uri);
      items := [];
      ok := true;
    }

    method Replace(generation: nat, uri: string, newItems: seq<T>) returns (ok: bool)
      modifies this
      ensures ok == old(identity).Matches(generation, uri)
      ensures Content(identity, items) == Content(old(identity), old(items)).Apply(Op.Replace(generation, uri, newItems))
    {
      if !identity.Matches(generation, uri) {
        return false;
      }
      items := newItems;
      ok := true;
    }

    method Invalidate()
      modifies this
      ensures Content(identity, items) == Content(old(identity), old(items)).Apply(Op.Invalidate)
    {
      identity := Identity(identity.generation, "");
      items := [];
    }

    method InvalidateUri(uri: string)
      modifies this
      ensures Content(identity, items) == Content(old(identity), old(items)).Apply(Op.InvalidateUri(uri))
    {
      if identity.uri == uri {
        Invalidate();
      }
    }

    /** Stale identities and indexes past the end are refused. */
    method Item(generation: nat, uri: string, index: nat) returns (r: Option<T>)
      ensures r.Some? <==> identity.Matches(generation, uri) && index < |items|
      ensures r.Some? ==> r.value == items[index]
    {
      if !identity.Matches(generation, uri) || index >= |items| {
        return None;
      }
      return Some(items[index]);
    }
  }

  // ---- histories ----

  datatype Op<T> =
    | Begin(generation: nat, uri: string)
    | Replace(generation: nat, uri: string, items: seq<T>)
    | Invalidate
    | InvalidateUri(uri: string)

  datatype Content<T> = Content(identity: Identity, items: seq<T>)
  {
    function Apply(op: Op<T>): Content<T> {
      match op
      case Begin(g, u) => if identity.Opens(g, u) then Content(identity.Begin(g, u), []) else this
      case Replace(g, u, new_) => if identity.Matches(g, u) then Content(identity, new_) else this
      case Invalidate => Content(identity.Invalidate(), [])
      case InvalidateUri(u) => if identity.uri == u then Content(identity.Invalidate(), []) else this
    }
  }

  function After<T>(ops: seq<Op<T>>): Content<T> {
    if ops == [] then Content(FRESH, []) else After(ops[..|ops| - 1]).Apply(ops[|ops| - 1])
  }

  /** What ends the life of an open reply identity. */
  predicate Closes<T>(op: Op<T>, g: nat, u: string) {
    match op
    case Begin(g', u') => g' > g && u' != ""
    case Replace(_, _, _) => false
    case Invalidate => true
    case InvalidateUri(u') => u' == u
  }

  /** The request that opened (g, u): no request before it was as new, and
      nothing since has closed it. */
  ghost predicate OpenedAt<T>(ops: seq<Op<T>>, b: nat, g: nat, u: string) {
    && b < |ops| && ops[b] == Op.Begin(g, u) && u != "" && g > 0
    && (forall i | 0 <= i < b && ops[i].Begin? && ops[i].uri != "" :: ops[i].generation < g)
    && (forall i | b < i < |ops| :: !Closes(ops[i], g, u))
  }

  /** The items of the last reply recorded for (g, u) since operation `b`. */
  function LastReply<T>(ops: seq<Op<T>>, b: nat, g: nat, u: string): seq<T>
  {
    if |ops| <= b then []
    else
      var last := ops[|ops| - 1];
      if last.Replace? && last.generation == g && last.uri == u then last.items
      else LastReply(ops[..|ops| - 1], b, g, u)
  }

  lemma {:induction false} Watermark<T>(ops: seq<Op<T>>)
    ensures forall i | 0 <= i < |ops| && ops[i].Begin? && ops[i].uri != "" ::
              ops[i].generation <= After(ops).identity.generation
    ensures After(ops).identity.generation > 0 ==>
              exists i :: 0 <= i < |ops| && ops[i].Begin? && ops[i].uri != ""
                          && ops[i].generation == After(ops).identity.generation
    ensures After(ops).identity.uri == "" ==> After(ops).items == []
  {
    if ops != [] {
      var front := ops[..|ops| - 1];
      Watermark(front);
      if After(front).identity.generation > 0 && After(ops).identity.generation == After(front).identity.generation {
        var i :| 0 <= i < |front| && front[i].Begin? && front[i].uri != ""
                 && front[i].generation == After(front).identity.generation;
        assert ops[i] == front[i];
      } else if After(ops).identity.generation > 0 {
        assert ops[|ops| - 1].Begin?;
      }
    }
  }

  /** An identity is accepted exactly while the request that opened it is the
      newest ever begun and nothing has closed it; and then the items are those
      of the last reply recorded for it. */
  lemma {:induction false} MatchesExactly<T>(ops: seq<Op<T>>, g: nat, u: string)
    ensures After(ops).identity.Matches(g, u) <==> exists b: nat :: OpenedAt(ops, b, g, u)
    ensures forall b: nat | OpenedAt(ops, b, g, u) :: After(ops).items == LastReply(ops, b, g, u)
  {
    if ops != [] {
      var n := |ops| - 1;
      var front, op := ops[..n], ops[n];
      MatchesExactly(front, g, u);
      Watermark(front);
      if After(ops).identity.Matches(g, u) {
        if After(front).identity.Matches(g, u) {
          var b: nat :| OpenedAt(front, b, g, u);
          assert OpenedAt(ops, b, g, u);
        } else {
          assert OpenedAt(ops, n, g, u);
        }
      }
      forall b: nat | OpenedAt(ops, b, g, u)
        ensures After(ops).identity.Matches(g, u) && After(ops).items == LastReply(ops, b, g, u)
      {
        if b < n {
          assert ops[b] == front[b];
          assert OpenedAt(front, b, g, u);
        } else {
          assert forall i | 0 <= i < n :: front[i] == ops[i];
          assert After(front).identity.generation < g;
          assert LastReply(ops, b, g, u) == LastReply(front, b, g, u) == [];
        }
      }
    }
  }

  /** Retirement is final: no operation brings a retired identity back. */
  lemma RetiredForGood<T>(c: Content<T>, op: Op<T>, g: nat, u: string)
    requires c.identity.Retired(g, u)
    ensures c.Apply(op).identity.Retired(g, u) || u == ""
    ensures !c.Apply(op).identity.Matches(g, u)
  {
  }
}
