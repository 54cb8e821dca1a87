/** The cache of semantic-token results that delta requests build on. Requests
    for one document may interleave: closing a document drops its lock while
    other tasks still hold it. So every await ends a step here. */
module TokenCache {
  import opened Wrappers
  import opened TokenEdits
  import opened TokenDecoding

  const SEMTOK_CACHE_LIMIT: nat := 64

  datatype Entry = Entry(resultId: Option<string>, data: seq<Token>, lastUsed: nat)

  type Cache = map<string, Entry>

  datatype Reply =
    | Failed
    | Null
    | Full(resultId: Option<string>, data: seq<Token>)
    | Delta(resultId: Option<string>, edits: seq<Edit>)
    | Unreadable

  // ---- one step on the cache ----

  /** The new entry went in; if that was one document too many, least recently
      stored documents went out, and no more than needed. */
  ghost predicate Stored(before: Cache, after: Cache, uri: string, entry: Entry) {
    var all := before[uri := entry];
    && after.Keys <= all.Keys && (forall k <- after :: after[k] == all[k])
    && |after| == (if |all| <= 64 then |all| else 64)
    && forall k, j | k in all && k !in after && j in after :: all[k].lastUsed <= all[j].lastUsed
  }

  /** `r` is what the caller gets: nothing yet when the tokens must be requested
      again in full. */
  ghost predicate DeltaStep(before: Cache, after: Cache, uri: string, previous: seq<Token>, reply: Reply,
                            clock: nat, r: Option<seq<Item>>)
  {
    match reply
    case Null => after == before - {uri} && r == Some([])
    case Full(id, data) => Stored(before, after, uri, Entry(id, data, clock)) && r == Some(Decode(data, 0, 0))
    case Delta(id, edits) =>
      if Acceptable(|previous|, edits) then
        exists data {:trigger Flat(data)} ::
          && Flat(data) == Simultaneous(Flat(previous), edits)
          && Stored(before, after, uri, Entry(id, data, clock)) && r == Some(Decode(data, 0, 0))
      else after == before - {uri} && r == None
    case _ => after == before - {uri} && r == None
  }

  /** The answer to a full request; nothing when the request is an error. */
  ghost predicate FullStep(before: Cache, after: Cache, uri: string, reply: Reply, clock: nat, r: Option<seq<Item>>) {
    match reply
    case Null => after == before - {uri} && r == Some([])
    case Full(id, data) => Stored(before, after, uri, Entry(id, data, clock)) && r == Some(Decode(data, 0, 0))
    case _ => after == before && r == None
  }

  class SemanticTokens {
    var cache: Cache
    /** The requests that wait for a reply. */
    var tasks: map<nat, Task>

    function View(): State
      reads this
    {
      State(cache, tasks)
    }

    constructor ()
      ensures View() == IDLE
    {
      cache, tasks := map[], map[];
    }

    method StoreSemtokCache(uri: string, resultId: Option<string>, data: seq<Token>, clock: nat)
      modifies this`cache
      ensures Stored(old(cache), cache, uri, Entry(resultId, data, clock))
    {
      ghost var all := cache[uri := Entry(resultId, data, clock)];
      cache := cache[uri := Entry(resultId, data, clock)];
      while |cache| > SEMTOK_CACHE_LIMIT
        invariant cache.Keys <= all.Keys && forall k <- cache :: cache[k] == all[k]
        invariant |all| <= SEMTOK_CACHE_LIMIT ==> cache == all
        invariant |all| >= SEMTOK_CACHE_LIMIT ==> |cache| >= SEMTOK_CACHE_LIMIT
        invariant forall k, j | k in all && k !in cache && j in cache :: all[k].lastUsed <= all[j].lastUsed
        decreases |cache|
      {
        var oldest := Oldest();
        assert (cache - {oldest}).Keys == cache.Keys - {oldest};
        cache := cache - {oldest};
      }
    }

    method Oldest() returns (oldest: string)
      requires cache != map[]
      ensures oldest in cache && forall k <- cache :: cache[oldest].lastUsed <= cache[k].lastUsed
    {
      oldest :| oldest in cache;
      var todo := cache.Keys;
      while todo != {}
        invariant todo <= cache.Keys && oldest in cache
        invariant forall k | k in cache && k !in todo :: cache[oldest].lastUsed <= cache[k].lastUsed
        decreases |todo|
      {
        var k :| k in todo;
        if cache[k].lastUsed < cache[oldest].lastUsed {
          oldest := k;
        }
        todo := todo - {k};
      }
    }

    /** Before a delta request: what the server is asked to compare with. */
    method Previous(uri: string) returns (previous: Option<(string, seq<Token>)>)
      ensures previous.Some? <==> uri in cache && cache[uri].resultId.Some?
      ensures previous.Some? ==> previous.value == (cache[uri].resultId.value, cache[uri].data)
    {
      if uri in cache && cache[uri].resultId.Some? {
        return Some((cache[uri].resultId.value, cache[uri].data));
      }
      return None;
    }

    method DeltaReplied(uri: string, previous: seq<Token>, reply: Reply, clock: nat) returns (r: Option<seq<Item>>)
      modifies this`cache
      ensures DeltaStep(old(cache), cache, uri, previous, reply, clock, r)
    {
      match reply
      case Null =>
        cache := cache - {uri};
        return Some([]);
      case Full(id, data) =>
        StoreSemtokCache(uri, id, data, clock);
        var items := DecodeRawTokens(data);
        return Some(items);
      case Delta(id, edits) =>
        var data := ApplySemanticTokenEdits(previous, edits);
        if data.None? {
          cache := cache - {uri};
          return None;
        }
        StoreSemtokCache(uri, id, data.value, clock);
        var items := DecodeRawTokens(data.value);
        return Some(items);
      case _ =>
        cache := cache - {uri};
        return None;
    }

    method FullReplied(uri: string, reply: Reply, clock: nat) returns (r: Option<seq<Item>>)
      modifies this`cache
      ensures FullStep(old(cache), cache, uri, reply, clock, r)
    {
      match reply
      case Null =>
        cache := cache - {uri};
        return Some([]);
      case Full(id, data) =>
        StoreSemtokCache(uri, id, data, clock);
        var items := DecodeRawTokens(data);
        return Some(items);
      case _ =>
        return None;
    }

    method DidClose(uri: string)
      modifies this`cache
      ensures cache == old(cache) - {uri}
    {
      cache := cache - {uri};
    }

    // ---- requests, from one await to the next ----

    method RequestFull(t: nat, uri: string)
      requires t !in tasks
      modifies this`tasks
      ensures Moves(old(View()), Step.RequestFull(t, uri), View())
    {
      tasks := tasks[t := AwaitFull(uri)];
    }

    method RequestDelta(t: nat, uri: string)
      requires t !in tasks
      modifies this`tasks
      ensures Moves(old(View()), Step.RequestDelta(t, uri), View())
    {
      var previous := Previous(uri);
      tasks := tasks[t := if previous.Some? then AwaitDelta(uri, previous.value.0, previous.value.1) else AwaitFull(uri)];
    }

    /** A reply to the request of task `t`; after an unusable delta the same task
        asks again in full. */
    method Answer(t: nat, reply: Reply, clock: nat, ghost now: Option<seq<Token>>)
        returns (r: Option<seq<Item>>, ghost step: Step)
      requires t in tasks
      modifies this
      ensures step == (if old(tasks)[t].AwaitDelta? then DeltaAnswer(t, reply, now, clock, r)
                       else FullAnswered(t, reply, now, clock, r))
      ensures Moves(old(View()), step, View())
    {
      hide DeltaStep, FullStep;
      match tasks[t]
      case AwaitDelta(uri, id, previous) =>
        r := DeltaReplied(uri, previous, reply, clock);
        tasks := if r.None? then tasks[t := AwaitFull(uri)] else tasks - {t};
        step := DeltaAnswer(t, reply, now, clock, r);
      case AwaitFull(uri) =>
        r := FullReplied(uri, reply, clock);
        tasks := tasks - {t};
        step := FullAnswered(t, reply, now, clock, r);
    }

    /** Any schedule, events that cannot happen being skipped, takes the object
        along a path of the model, and delivers the answers of that path. */
    method Drive(schedule: seq<Event>) returns (answers: seq<(nat, seq<Item>)>, ghost states: seq<State>, ghost steps: seq<Step>)
      requires View() == IDLE
      modifies this
      ensures Path(states, steps) && states[|steps|] == View() && answers == Delivered(steps)
    {
      hide Moves;
      answers, states, steps := [], [View()], [];
      for k := 0 to |schedule|
        invariant |states| == |steps| + 1 && Path(states, steps) && states[|steps|] == View()
        invariant answers == Delivered(steps)
      {
        ghost var step: Step;
        match schedule[k] {
          case WantFull(t, uri) =>
            if t in tasks { continue; }
            RequestFull(t, uri);
            step := Step.RequestFull(t, uri);
          case WantDelta(t, uri) =>
            if t in tasks { continue; }
            RequestDelta(t, uri);
            step := Step.RequestDelta(t, uri);
          case Arrived(t, reply, now, clock) =>
            if t !in tasks { continue; }
            var r;
            r, step := Answer(t, reply, clock, now);
            if r.Some? {
              answers := answers + [(t, r.value)];
            }
          case CloseDocument(uri) =>
            ghost var before := View();
            DidClose(uri);
            step := Close(uri);
            CloseMoves(before, uri);
        }
        PathGrows(states, steps, step, View());
        states, steps := states + [View()], steps + [step];
        assert steps[..|steps| - 1] + [step] == steps;
      }
    }
  }

  lemma CloseMoves(s: State, uri: string)
    ensures Moves(s, Close(uri), s.(cache := s.cache - {uri}))
  {
  }

  lemma PathGrows(states: seq<State>, steps: seq<Step>, step: Step, s': State)
    requires Path(states, steps) && Moves(states[|steps|], step, s')
    ensures Path(states + [s'], steps + [step])
    ensures Delivered(steps + [step]) == Delivered(steps) + Answered(step)
  {
    var more, steps' := states + [s'], steps + [step];
    assert steps'[..|steps|] == steps;
    forall i | 0 <= i < |steps'| ensures MoveAt(more, steps', i) {
      assert i < |steps| ==> MoveAt(states, steps, i);
    }
  }

  // ---- a truthful server ----

  /** The tokens behind each result id the server ever issued for a document. */
  type Issued = (string, string) -> seq<Token>

  /** `now` is what the server holds for the document when it answers; it says
      null when it holds nothing. */
  ghost predicate Truthful(issued: Issued, uri: string, reply: Reply, now: Option<seq<Token>>) {
    match reply
    case Null => now == None
    case Full(id, data) => now == Some(data) && (id.Some? ==> issued(uri, id.value) == data)
    case _ => true
  }

  ghost predicate TruthfulDelta(issued: Issued, uri: string, previousId: string, reply: Reply, now: Option<seq<Token>>) {
    && Truthful(issued, uri, reply, now)
    && (reply.Delta? && Acceptable(|issued(uri, previousId)|, reply.edits) ==>
          && now.Some?
          && Flat(now.value) == Simultaneous(Flat(issued(uri, previousId)), reply.edits)
          && (reply.resultId.Some? ==> issued(uri, reply.resultId.value) == now.value))
  }

  /** What a full request would give the editor at that moment. */
  function FullAnswer(now: Option<seq<Token>>): seq<Item> {
    match now
    case None => []
    case Some(data) => Decode(data, 0, 0)
  }

  // ---- all interleavings ----

  datatype Task = AwaitDelta(uri: string, previousId: string, previous: seq<Token>) | AwaitFull(uri: string)

  datatype State = State(cache: Cache, tasks: map<nat, Task>)

  datatype Step =
    | RequestFull(task: nat, uri: string)
    | RequestDelta(task: nat, uri: string)
    | DeltaAnswer(task: nat, reply: Reply, now: Option<seq<Token>>, clock: nat, r: Option<seq<Item>>)
    | FullAnswered(task: nat, reply: Reply, now: Option<seq<Token>>, clock: nat, r: Option<seq<Item>>)
    | Close(uri: string)

  /** What happens to the requests of a document, from outside. */
  datatype Event =
    | WantFull(task: nat, uri: string)
    | WantDelta(task: nat, uri: string)
    | Arrived(task: nat, reply: Reply, now: Option<seq<Token>>, clock: nat)
    | CloseDocument(uri: string)

  const IDLE := State(map[], map[])

  /** What the client does. */
  ghost predicate Moves(s: State, step: Step, s': State) {
    match step
    case RequestFull(t, uri) => t !in s.tasks && s' == s.(tasks := s.tasks[t := AwaitFull(uri)])
    case RequestDelta(t, uri) =>
      && t !in s.tasks
      && s' == s.(tasks := s.tasks[t :=
           if uri in s.cache && s.cache[uri].resultId.Some?
           then AwaitDelta(uri, s.cache[uri].resultId.value, s.cache[uri].data) else AwaitFull(uri)])
    case DeltaAnswer(t, reply, _, clock, r) =>
      && t in s.tasks && s.tasks[t].AwaitDelta?
      && var AwaitDelta(uri, id, previous) := s.tasks[t];
      && DeltaStep(s.cache, s'.cache, uri, previous, reply, clock, r)
      && s'.tasks == (if r.None? then s.tasks[t := AwaitFull(uri)] else s.tasks - {t})
    case FullAnswered(t, reply, _, clock, r) =>
      && t in s.tasks && s.tasks[t].AwaitFull?
      && FullStep(s.cache, s'.cache, s.tasks[t].uri, reply, clock, r)
      && s'.tasks == s.tasks - {t}
    case Close(uri) => s' == s.(cache := s.cache - {uri})
  }

  /** And what the server must have said truthfully. */
  ghost predicate Honest(issued: Issued, s: State, step: Step) {
    match step
    case DeltaAnswer(t, reply, now, _, _) =>
      t in s.tasks && s.tasks[t].AwaitDelta? ==>
        TruthfulDelta(issued, s.tasks[t].uri, s.tasks[t].previousId, reply, now)
    case FullAnswered(t, reply, now, _, _) => t in s.tasks ==> Truthful(issued, s.tasks[t].uri, reply, now)
    case _ => true
  }

  ghost predicate Next(issued: Issued, s: State, step: Step, s': State) { Moves(s, step, s') && Honest(issued, s, step) }

  ghost predicate MoveAt(states: seq<State>, steps: seq<Step>, i: nat)
    requires i < |steps| && |states| == |steps| + 1
  {
    Moves(states[i], steps[i], states[i + 1])
  }

  ghost predicate Path(states: seq<State>, steps: seq<Step>) {
    && |states| == |steps| + 1 && states[0] == IDLE
    && forall i | 0 <= i < |steps| :: MoveAt(states, steps, i)
  }

  ghost predicate HonestAt(issued: Issued, states: seq<State>, steps: seq<Step>, i: nat)
    requires i < |steps| && |states| == |steps| + 1
  {
    Honest(issued, states[i], steps[i])
  }

  /** A path along which the server was truthful. */
  ghost predicate Run(issued: Issued, states: seq<State>, steps: seq<Step>) {
    Path(states, steps) && forall i | 0 <= i < |steps| :: HonestAt(issued, states, steps, i)
  }

  /** What a step hands to the editor, if anything. */
  function Answered(step: Step): seq<(nat, seq<Item>)> {
    if (step.DeltaAnswer? || step.FullAnswered?) && step.r.Some? then [(step.task, step.r.value)] else []
  }

  function Delivered(steps: seq<Step>): seq<(nat, seq<Item>)> {
    if steps == [] then [] else Delivered(steps[..|steps| - 1]) + Answered(steps[|steps| - 1])
  }

  ghost predicate Coherent(issued: Issued, s: State) {
    && |s.cache| <= 64
    && (forall u | u in s.cache && s.cache[u].resultId.Some? ::
          s.cache[u].data == issued(u, s.cache[u].resultId.value))
    && (forall t | t in s.tasks && s.tasks[t].AwaitDelta? ::
          s.tasks[t].previous == issued(s.tasks[t].uri, s.tasks[t].previousId))
  }

  lemma {:induction false} FlatInjective(a: seq<Token>, b: seq<Token>)
    requires Flat(a) == Flat(b)
    ensures a == b
  {
    FlatConcat(a, []);
    FlatConcat(b, []);
    if a != [] {
      var fa, fb := Flat(a), Flat(b);
      assert fa[..5] == Five(a[0]) && fb[..5] == Five(b[0]);
      assert Five(a[0])[0] == Five(b[0])[0] && Five(a[0])[1] == Five(b[0])[1] && Five(a[0])[2] == Five(b[0])[2]
          && Five(a[0])[3] == Five(b[0])[3] && Five(a[0])[4] == Five(b[0])[4];
      assert a[0] == b[0];
      assert Flat(a[1..]) == fa[5..] && Flat(b[1..]) == fb[5..];
      FlatInjective(a[1..], b[1..]);
    }
  }

  lemma StoreKeepsCoherent(issued: Issued, s: State, cache': Cache, uri: string, entry: Entry)
    requires Coherent(issued, s) && Stored(s.cache, cache', uri, entry)
    requires entry.resultId.Some? ==> issued(uri, entry.resultId.value) == entry.data
    ensures Coherent(issued, s.(cache := cache'))
  {
    var all := s.cache[uri := entry];
    forall u | u in cache' && cache'[u].resultId.Some?
      ensures cache'[u].data == issued(u, cache'[u].resultId.value)
    {
      assert cache'[u] == all[u];
    }
  }

  lemma DropKeepsCoherent(issued: Issued, s: State, uri: string)
    requires Coherent(issued, s)
    ensures Coherent(issued, s.(cache := s.cache - {uri}))
  {
    var after := s.cache - {uri};
    assert after.Keys == s.cache.Keys - {uri};
    assert |after.Keys| <= |s.cache.Keys|;
  }

  lemma DeltaCoherent(issued: Issued, s: State, uri: string, id: string, reply: Reply,
                      now: Option<seq<Token>>, clock: nat, cache': Cache, r: Option<seq<Item>>)
    requires Coherent(issued, s) && TruthfulDelta(issued, uri, id, reply, now)
    requires DeltaStep(s.cache, cache', uri, issued(uri, id), reply, clock, r)
    ensures Coherent(issued, s.(cache := cache'))
    ensures r.Some? ==> r.value == FullAnswer(now)
  {
    hide Coherent, Stored, Flat, Decode, Simultaneous, Acceptable;
    DropKeepsCoherent(issued, s, uri);
    match reply
    case Full(newId, data) => StoreKeepsCoherent(issued, s, cache', uri, Entry(newId, data, clock));
    case Delta(newId, edits) =>
      if Acceptable(|issued(uri, id)|, edits) {
        var data :| Flat(data) == Simultaneous(Flat(issued(uri, id)), edits)
          && Stored(s.cache, cache', uri, Entry(newId, data, clock)) && r == Some(Decode(data, 0, 0));
        FlatInjective(data, now.value);
        StoreKeepsCoherent(issued, s, cache', uri, Entry(newId, data, clock));
      }
    case _ =>
  }

  lemma FullCoherent(issued: Issued, s: State, uri: string, reply: Reply,
                     now: Option<seq<Token>>, clock: nat, cache': Cache, r: Option<seq<Item>>)
    requires Coherent(issued, s) && Truthful(issued, uri, reply, now)
    requires FullStep(s.cache, cache', uri, reply, clock, r)
    ensures Coherent(issued, s.(cache := cache'))
    ensures r.Some? ==> r.value == FullAnswer(now)
  {
    hide Coherent, Stored, Decode;
    DropKeepsCoherent(issued, s, uri);
    if reply.Full? {
      StoreKeepsCoherent(issued, s, cache', uri, Entry(reply.resultId, reply.data, clock));
    }
  }

  lemma NoMoreDeltas(issued: Issued, s: State, s': State)
    requires Coherent(issued, s.(cache := s'.cache))
    requires forall t <- s'.tasks :: s'.tasks[t].AwaitDelta? ==> t in s.tasks && s'.tasks[t] == s.tasks[t]
    ensures Coherent(issued, s')
  {
  }

  lemma AskedCoherent(issued: Issued, s: State, t: nat, uri: string, s': State)
    requires Coherent(issued, s) && Moves(s, Step.RequestDelta(t, uri), s')
    ensures Coherent(issued, s')
  {
  }

  /** One step keeps the cache and every waiting request in agreement with the
      server, and hands the editor what a full request would have. */
  lemma StepCoherent(issued: Issued, s: State, step: Step, s': State)
    requires Coherent(issued, s) && Next(issued, s, step, s')
    ensures Coherent(issued, s')
    ensures (step.DeltaAnswer? || step.FullAnswered?) && step.r.Some? ==> step.r.value == FullAnswer(step.now)
  {
    hide DeltaStep, FullStep, Truthful, TruthfulDelta, FullAnswer, Coherent;
    match step
    case DeltaAnswer(t, reply, now, clock, r) =>
      WaitsFor(issued, s, t);
      DeltaCoherent(issued, s, s.tasks[t].uri, s.tasks[t].previousId, reply, now, clock, s'.cache, r);
      NoMoreDeltas(issued, s, s');
    case FullAnswered(t, reply, now, clock, r) =>
      FullCoherent(issued, s, s.tasks[t].uri, reply, now, clock, s'.cache, r);
      NoMoreDeltas(issued, s, s');
    case RequestFull(_, _) => NoMoreDeltas(issued, s, s');
    case RequestDelta(t, uri) => AskedCoherent(issued, s, t, uri, s');
    case Close(uri) => DropKeepsCoherent(issued, s, uri);
  }

  lemma WaitsFor(issued: Issued, s: State, t: nat)
    requires Coherent(issued, s) && t in s.tasks && s.tasks[t].AwaitDelta?
    ensures s.tasks[t].previous == issued(s.tasks[t].uri, s.tasks[t].previousId)
  {
  }

  lemma RunStep(issued: Issued, states: seq<State>, steps: seq<Step>, i: nat)
    requires Run(issued, states, steps) && i < |steps|
    ensures |states| == |steps| + 1 && Next(issued, states[i], steps[i], states[i + 1])
  {
    assert MoveAt(states, steps, i) && HonestAt(issued, states, steps, i);
  }

  lemma RunSize(issued: Issued, states: seq<State>, steps: seq<Step>)
    requires Run(issued, states, steps)
    ensures |states| == |steps| + 1 && Coherent(issued, states[0])
  {
  }

  lemma {:induction false} CoherentAt(issued: Issued, states: seq<State>, steps: seq<Step>, t: nat)
    requires Run(issued, states, steps) && t < |states|
    ensures Coherent(issued, states[t])
  {
    RunSize(issued, states, steps);
    hide *;
    if t > 0 {
      CoherentAt(issued, states, steps, t - 1);
      RunStep(issued, states, steps, t - 1);
      StepCoherent(issued, states[t - 1], steps[t - 1], states[t]);
    }
  }

  /** In every run each cached pair is one the server issued, at most 64
      documents are cached, and every delivered answer is the full answer. */
  lemma RunCoherent(issued: Issued, states: seq<State>, steps: seq<Step>)
    requires Run(issued, states, steps)
    ensures forall i | 0 <= i < |states| :: Coherent(issued, states[i])
    ensures forall i | 0 <= i < |steps| && (steps[i].DeltaAnswer? || steps[i].FullAnswered?) && steps[i].r.Some? ::
              steps[i].r.value == FullAnswer(steps[i].now)
  {
    RunSize(issued, states, steps);
    hide *;
    forall i | 0 <= i < |states| ensures Coherent(issued, states[i]) {
      CoherentAt(issued, states, steps, i);
    }
    forall i | 0 <= i < |steps| && (steps[i].DeltaAnswer? || steps[i].FullAnswered?) && steps[i].r.Some?
      ensures steps[i].r.value == FullAnswer(steps[i].now)
    {
      CoherentAt(issued, states, steps, i);
      RunStep(issued, states, steps, i);
      StepCoherent(issued, states[i], steps[i], states[i + 1]);
    }
  }

  /** Every readable reply is answered: null with no tokens, a full list with that
      list, a delta that can be applied with its result. Only an unreadable reply
      and an unusable delta are not; after such a delta the same request goes on as
      a full one, and nothing is cached for the document. */
  lemma ReadableIsAnswered(s: State, step: Step, s': State)
    requires Moves(s, step, s')
    ensures step.FullAnswered? ==>
      && (step.r.Some? <==> step.reply.Null? || step.reply.Full?)
      && (step.reply.Full? ==> step.r == Some(Decode(step.reply.data, 0, 0)))
      && (step.reply.Null? ==> step.r == Some([]))
    ensures step.DeltaAnswer? ==>
      && (step.r.Some? <==> step.reply.Null? || step.reply.Full?
                            || (step.reply.Delta? && Acceptable(|s.tasks[step.task].previous|, step.reply.edits)))
      && (step.reply.Full? ==> step.r == Some(Decode(step.reply.data, 0, 0)))
      && (step.r.None? ==> s.tasks[step.task].uri !in s'.cache
                           && s'.tasks == s.tasks[step.task := AwaitFull(s.tasks[step.task].uri)])
  {
    hide Decode, Acceptable, Stored;
  }

  /** An answer that arrives later than everything cached is what is cached for the
      document, under the id the server gave it: the next delta is asked for
      against it. */
  lemma AnswerIsCached(s: State, step: Step, s': State)
    requires Moves(s, step, s') && (step.DeltaAnswer? || step.FullAnswered?)
    requires step.r.Some? && !step.reply.Null?
    requires forall k <- s.cache :: k != s.tasks[step.task].uri ==> s.cache[k].lastUsed < step.clock
    ensures var task := s.tasks[step.task];
      && task.uri in s'.cache
      && var entry := s'.cache[task.uri];
      && entry.resultId == step.reply.resultId && step.r == Some(Decode(entry.data, 0, 0))
      && (step.reply.Full? ==> entry.data == step.reply.data)
      && (step.reply.Delta? ==> Flat(entry.data) == Simultaneous(Flat(task.previous), step.reply.edits))
  {
    hide Decode, Acceptable, Stored;
    var uri := s.tasks[step.task].uri;
    forall entry | Stored(s.cache, s'.cache, uri, entry) && entry.lastUsed == step.clock
      ensures uri in s'.cache && s'.cache[uri] == entry
    {
      NewestIsCached(s.cache, s'.cache, uri, entry);
    }
  }

  lemma NewestIsCached(before: Cache, after: Cache, uri: string, entry: Entry)
    requires Stored(before, after, uri, entry)
    requires forall k <- before :: k != uri ==> before[k].lastUsed < entry.lastUsed
    ensures uri in after && after[uri] == entry
  {
  }
}
