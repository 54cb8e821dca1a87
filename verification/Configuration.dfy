/** Layered settings: user values merged over defaults, looked up by section
    for the language server, and the choice of servers for a file type. */
module Configuration {
  import opened Wrappers
  import opened Lexicographic
  import opened StableSort

  datatype Json =
    | Null
    | Bool(bool)
    | Number(real)
    | Text(string)
    | Array(seq<Json>)
    | Object(fields: map<string, Json>)

  // ---- merging ----

  /** Objects merge key by key; anything else is replaced whole. */
  function Merge(base: Json, over: Json): Json
    decreases over
  {
    if base.Object? && over.Object? then
      Object(map key | key in base.fields.Keys + over.fields.Keys ::
        if key !in over.fields then base.fields[key]
        else if key in base.fields then Merge(base.fields[key], over.fields[key])
        else over.fields[key])
    else over
  }

  /** The override's keys are visited in whatever order its map yields them. */
  method MergeJsonValue(base: Json, over: Json) returns (merged: Json)
    ensures merged == Merge(base, over)
    decreases over
  {
    if !(base.Object? && over.Object?) {
      return over;
    }
    hide *;
    var fields, left := base.fields, over.fields.Keys;
    MergingStarts(base.fields, over.fields);
    while left != {}
      invariant left <= over.fields.Keys && Merging(base.fields, over.fields, fields, left)
      decreases |left|
    {
      var key :| key in left;
      MergingAt(base.fields, over.fields, fields, left, key);
      if key in fields {
        var value := MergeJsonValue(fields[key], over.fields[key]);
        fields := fields[key := value];
      } else {
        fields := fields[key := over.fields[key]];
      }
      left := left - {key};
    }
    MergingEnds(base.fields, over.fields, fields);
    merged := Object(fields);
  }

  function MergeField(base: map<string, Json>, over: map<string, Json>, key: string): Json
    requires key in base || key in over
  {
    if key !in over then base[key] else if key in base then Merge(base[key], over[key]) else over[key]
  }

  /** The keys of `left` are still to be merged. */
  ghost predicate Merging(base: map<string, Json>, over: map<string, Json>, fields: map<string, Json>, left: set<string>) {
    && fields.Keys == base.Keys + (over.Keys - left)
    && forall key <- fields :: fields[key] == if key in left then base[key] else MergeField(base, over, key)
  }

  lemma MergingStarts(base: map<string, Json>, over: map<string, Json>)
    ensures Merging(base, over, base, over.Keys)
  {
  }

  lemma MergingAt(base: map<string, Json>, over: map<string, Json>, fields: map<string, Json>, left: set<string>, key: string)
    requires Merging(base, over, fields, left) && key in left && left <= over.Keys
    ensures key in fields ==> key in base && fields[key] == base[key]
    ensures var value := if key in fields then Merge(fields[key], over[key]) else over[key];
            Merging(base, over, fields[key := value], left - {key})
  {
    hide Merge;
  }

  lemma MergingEnds(base: map<string, Json>, over: map<string, Json>, fields: map<string, Json>)
    requires Merging(base, over, fields, {})
    ensures Object(fields) == Merge(Object(base), Object(over))
  {
    assert fields == Merge(Object(base), Object(over)).fields;
  }

  /** A server without defaults (null) and without settings has none. */
  method MergeJson(defaults: Json, overrides: Option<Json>) returns (r: Option<Json>)
    ensures overrides.None? ==> r == if defaults.Null? then None else Some(defaults)
    ensures overrides.Some? ==> r == Some(Merge(defaults, overrides.value))
    ensures defaults.Null? ==> r == overrides
  {
    if overrides.None? {
      return if defaults.Null? then None else Some(defaults);
    }
    var merged := MergeJsonValue(defaults, overrides.value);
    r := Some(merged);
  }

  /** Merging the same overrides twice changes nothing. */
  lemma {:induction false} MergeIdempotent(d: Json, u: Json)
    ensures Merge(Merge(d, u), u) == Merge(d, u)
    decreases u
  {
    if d.Object? && u.Object? {
      var once := Merge(d, u);
      forall key <- once.fields ensures Merge(once, u).fields[key] == once.fields[key] {
        if key in u.fields {
          if key in d.fields {
            MergeIdempotent(d.fields[key], u.fields[key]);
          } else {
            MergeSelf(u.fields[key]);
          }
        }
      }
      assert Merge(once, u).fields == once.fields;
    } else {
      MergeSelf(u);
    }
  }

  lemma {:induction false} MergeSelf(u: Json)
    ensures Merge(u, u) == u
    decreases u
  {
    if u.Object? {
      forall key <- u.fields ensures Merge(u, u).fields[key] == u.fields[key] {
        MergeSelf(u.fields[key]);
      }
      assert Merge(u, u).fields == u.fields;
    }
  }

  // ---- looking up ----

  function GetPath(value: Json, path: seq<string>): Option<Json> {
    if path == [] then Some(value)
    else if value.Object? && path[0] in value.fields then GetPath(value.fields[path[0]], path[1..])
    else None
  }

  /** `u` is an object all along `path` until a key of it is missing. */
  predicate Leaves(u: Json, path: seq<string>) {
    && u.Object? && path != []
    && (path[0] !in u.fields || Leaves(u.fields[path[0]], path[1..]))
  }

  /** What a path finds once `u` is merged over `d`, read off `d` and `u` alone. */
  function Layered(d: Json, u: Json, path: seq<string>): Option<Json> {
    match (GetPath(d, path), GetPath(u, path))
    case (Some(y), Some(x)) => Some(Merge(y, x))
    case (None, Some(x)) => Some(x)
    case (y, None) => if Leaves(u, path) then y else None
  }

  lemma {:induction false} MergeLookup(d: Json, u: Json, path: seq<string>)
    ensures GetPath(Merge(d, u), path) == Layered(d, u, path)
    decreases path
  {
    if path != [] && d.Object? && u.Object? {
      var key := path[0];
      if key in d.fields && key in u.fields {
        MergeLookup(d.fields[key], u.fields[key], path[1..]);
      }
    }
  }

  /** A path that finds nothing leaves the object or runs into a non-object. */
  lemma {:induction false} PathCases(u: Json, path: seq<string>)
    ensures Leaves(u, path) ==> GetPath(u, path).None?
    ensures GetPath(u, path).None? && !Leaves(u, path)
            <==> exists n: nat | n < |path| :: GetPath(u, path[..n]).Some? && !GetPath(u, path[..n]).value.Object?
    decreases path
  {
    if path == [] {
    } else if !u.Object? {
      assert path[..0] == [];
    } else if path[0] !in u.fields {
      forall n: nat | 0 < n < |path| ensures GetPath(u, path[..n]).None? {
        assert path[..n][0] == path[0];
      }
    } else {
      var v := u.fields[path[0]];
      PathCases(v, path[1..]);
      forall n: nat | 0 < n < |path| ensures GetPath(u, path[..n]) == GetPath(v, path[1..][..n - 1]) {
        assert path[..n][0] == path[0] && path[..n][1..] == path[1..][..n - 1];
      }
      if n: nat :| n < |path[1..]| && GetPath(v, path[1..][..n]).Some? && !GetPath(v, path[1..][..n]).value.Object? {
        assert GetPath(u, path[..n + 1]) == GetPath(v, path[1..][..n]);
      }
      if n: nat :| n < |path| && GetPath(u, path[..n]).Some? && !GetPath(u, path[..n]).value.Object? {
        assert n > 0 by { assert path[..0] == []; }
        assert GetPath(v, path[1..][..n - 1]) == GetPath(u, path[..n]);
      }
    }
  }

  function Split(s: string): (parts: seq<string>)
    ensures parts != []
  {
    if s == "" then [""]
    else if s[0] == '.' then [""] + Split(s[1..])
    else
      var rest := Split(s[1..]);
      [[s[0]] + rest[0]] + rest[1..]
  }

  function Join(parts: seq<string>): string
    requires parts != []
  {
    if |parts| == 1 then parts[0] else parts[0] + "." + Join(parts[1..])
  }

  lemma {:induction false} SplitPlain(s: string, rest: string)
    requires '.' !in s
    ensures Split(s) == [s]
    ensures Split(s + "." + rest) == [s] + Split(rest)
  {
    if s == "" {
      assert s + "." + rest == "." + rest && ("." + rest)[1..] == rest;
    } else {
      SplitPlain(s[1..], rest);
      assert (s + "." + rest)[1..] == s[1..] + "." + rest;
      assert [s[0]] + s[1..] == s;
    }
  }

  /** A section name is cut back into exactly the keys it was joined from. */
  lemma {:induction false} SplitJoin(parts: seq<string>)
    requires parts != [] && forall part <- parts :: '.' !in part
    ensures Split(Join(parts)) == parts
  {
    assert parts[0] in parts;
    if |parts| == 1 {
      SplitPlain(parts[0], "");
    } else {
      SplitPlain(parts[0], Join(parts[1..]));
      assert forall part <- parts[1..] :: part in parts;
      SplitJoin(parts[1..]);
    }
  }

  /** An exact key comes first, then the path of keys between the dots. */
  function ConfigurationValue(settings: Json, section: string): Json {
    if settings.Object? && section in settings.fields then settings.fields[section]
    else match GetPath(settings, Split(section))
      case Some(value) => value
      case None => Null
  }

  /** The value an exact key would give, if either layer leaves one. */
  function Exact(d: Json, u: Json, section: string): Option<Json> { Layered(d, u, [section]) }

  lemma ExactOrPath(d: Json, u: Json, section: string)
    ensures ConfigurationValue(Merge(d, u), section)
            == match Exact(d, u, section)
               case Some(value) => value
               case None => match Layered(d, u, Split(section)) case Some(value) => value case None => Null
  {
    hide Merge, Split;
    var merged := Merge(d, u);
    MergeLookup(d, u, [section]);
    MergeLookup(d, u, Split(section));
    assert [section][1..] == [];
    assert GetPath(merged, [section])
        == if merged.Object? && section in merged.fields then Some(merged.fields[section]) else None;
  }

  /** A non-object value set by the user on a path of keys is what the server is
      told, exactly unless an exact dotted key says otherwise. */
  lemma UserValueWins(d: Json, u: Json, path: seq<string>, x: Json)
    requires path != [] && forall key <- path :: '.' !in key
    requires GetPath(u, path) == Some(x) && !x.Object?
    ensures ConfigurationValue(Merge(d, u), Join(path)) == x
            <==> Exact(d, u, Join(path)).None? || Exact(d, u, Join(path)).value == x
  {
    hide Split, GetPath;
    SplitJoin(path);
    ExactOrPath(d, u, Join(path));
  }

  /** A path and an exact key that the user leaves alone keep their defaults. */
  lemma DefaultStays(d: Json, u: Json, section: string)
    requires Leaves(u, Split(section)) && Leaves(u, [section])
    ensures ConfigurationValue(Merge(d, u), section) == ConfigurationValue(d, section)
  {
    hide Split;
    PathCases(u, Split(section));
    PathCases(u, [section]);
    ExactOrPath(d, u, section);
    assert [section][1..] == [];
    assert GetPath(d, [section]) == if d.Object? && section in d.fields then Some(d.fields[section]) else None;
  }

  // ---- servers ----

  datatype Server = Server(filetypes: seq<string>, priority: int)

  function Priority(servers: map<string, Server>, name: string): int {
    if name in servers then servers[name].priority else 0
  }

  predicate Before(servers: map<string, Server>, a: string, b: string) {
    var p, q := Priority(servers, a), Priority(servers, b);
    p > q || (p == q && StrLe(a, b))
  }

  function Order(servers: map<string, Server>): (string, string) -> bool { (a, b) => Before(servers, a, b) }

  predicate Handles(servers: map<string, Server>, name: string, filetype: string) {
    name in servers && filetype in servers[name].filetypes
  }

  /** The servers for a file type: each once, best first. */
  ghost predicate Selection(servers: map<string, Server>, filetype: string, names: seq<string>) {
    && (forall name :: name in names <==> Handles(servers, name, filetype))
    && (forall i, j | 0 <= i < j < |names| :: names[i] != names[j] && Before(servers, names[i], names[j]))
  }

  lemma ServerOrder(servers: map<string, Server>)
    ensures TotalPreorder(Order(servers))
    ensures forall a, b :: Before(servers, a, b) && Before(servers, b, a) ==> a == b
  {
    hide StrLe, Priority;
    forall a, b, c
      ensures Before(servers, a, b) || Before(servers, b, a)
      ensures Before(servers, a, b) && Before(servers, b, a) ==> a == b
      ensures Before(servers, a, b) && Before(servers, b, c) ==> Before(servers, a, c)
    {
      StrOrder(a, b, c);
    }
  }

  /** The map is walked in any order; the result is sorted afterwards. */
  method ServersForFiletype(servers: map<string, Server>, filetype: string) returns (names: seq<string>)
    ensures Selection(servers, filetype, names)
  {
    hide Before, Priority;
    var left := servers.Keys;
    names := [];
    while left != {}
      invariant left <= servers.Keys
      invariant forall name :: name in names <==> Handles(servers, name, filetype) && name !in left
      invariant Distinct(names)
      decreases |left|
    {
      var name :| name in left;
      if filetype in servers[name].filetypes {
        names := names + [name];
      }
      left := left - {name};
    }
    SortedSelection(servers, filetype, names);
    names := Sort(Order(servers), names);
  }

  ghost predicate Distinct(names: seq<string>) { forall i, j | 0 <= i < j < |names| :: names[i] != names[j] }

  lemma SortedSelection(servers: map<string, Server>, filetype: string, names: seq<string>)
    requires Distinct(names) && forall name :: name in names <==> Handles(servers, name, filetype)
    ensures Selection(servers, filetype, Sort(Order(servers), names))
  {
    hide Before, Priority, Handles, Sort;
    ServerOrder(servers);
    SortSorted(Order(servers), names);
    SameElements(Order(servers), names);
    SortPermutes(Order(servers), names);
    DistinctPermuted(names, Sort(Order(servers), names));
    var sorted := Sort(Order(servers), names);
    forall i, j | 0 <= i < j < |sorted| ensures Before(servers, sorted[i], sorted[j]) {
      assert Order(servers)(sorted[i], sorted[j]);
    }
  }

  lemma DistinctTail(names: seq<string>)
    requires names != []
    ensures Distinct(names) <==> names[0] !in names[1..] && Distinct(names[1..])
  {
    var rest := names[1..];
    if Distinct(names) {
      forall i | 0 <= i < |rest| ensures rest[i] != names[0] {
        assert names[i + 1] == rest[i];
      }
    }
    if names[0] !in rest && Distinct(rest) {
      forall i, j | 0 <= i < j < |names| ensures names[i] != names[j] {
        assert names[j] == rest[j - 1] && (i > 0 ==> names[i] == rest[i - 1]);
      }
    }
  }

  lemma {:induction false} DistinctCounts(names: seq<string>)
    ensures Distinct(names) <==> forall name <- names :: multiset(names)[name] == 1
  {
    if names != [] {
      hide Distinct;
      var first, rest := names[0], names[1..];
      DistinctTail(names);
      DistinctCounts(rest);
      assert names == [first] + rest;
      assert forall name :: multiset(names)[name] == multiset(rest)[name] + if name == first then 1 else 0;
      assert first in rest <==> first in multiset(rest);
      assert first in names && forall name <- rest :: name in names;
    }
  }

  lemma DistinctPermuted(xs: seq<string>, ys: seq<string>)
    requires multiset(xs) == multiset(ys) && Distinct(xs)
    ensures Distinct(ys)
  {
    hide Distinct;
    DistinctCounts(xs);
    DistinctCounts(ys);
    forall name <- ys ensures multiset(ys)[name] == 1 {
      assert name in multiset(ys);
      assert name in xs;
    }
  }

  /** There is only one such list, so the map's iteration order cannot matter. */
  lemma SelectionUnique(servers: map<string, Server>, filetype: string, xs: seq<string>, ys: seq<string>)
    requires Selection(servers, filetype, xs) && Selection(servers, filetype, ys)
    ensures xs == ys
  {
    hide Before, Priority, Handles;
    ServerOrder(servers);
    assert Distinct(xs) && Distinct(ys);
    DistinctCounts(xs);
    DistinctCounts(ys);
    forall name ensures multiset(xs)[name] == multiset(ys)[name] {
      assert name in xs <==> name in ys;
      assert name in multiset(xs) <==> name in xs;
      assert name in multiset(ys) <==> name in ys;
    }
    SortedUnique(Order(servers), xs, ys);
  }

  /** Higher priority first; among equals the name decides. */
  lemma HigherFirst(servers: map<string, Server>, filetype: string, names: seq<string>, i: nat, j: nat)
    requires Selection(servers, filetype, names) && i < j < |names|
    ensures forall name :: name in names <==> name in servers && filetype in servers[name].filetypes
    ensures names[i] in servers && names[j] in servers
    ensures servers[names[i]].priority >= servers[names[j]].priority
    ensures servers[names[i]].priority == servers[names[j]].priority ==> StrLe(names[i], names[j])
  {
    assert names[i] in names && names[j] in names;
    assert Before(servers, names[i], names[j]);
    hide StrLe;
  }

  /** Objects within one another along a path of keys. */
  function Nest(path: seq<string>, value: Json): Json {
    if path == [] then value else Object(map[path[0] := Nest(path[1..], value)])
  }

  /** A value is found at its path, at no path that leaves it, and a setting under
      an exact dotted key is preferred to it. */
  lemma {:induction false} NestedIsFound(path: seq<string>, value: Json)
    ensures GetPath(Nest(path, value), path) == Some(value)
    ensures forall key, more | !value.Object? :: GetPath(Nest(path, value), path + [key] + more) == None
  {
    forall key, more | !value.Object? ensures GetPath(Nest(path, value), path + [key] + more) == None {
      if path == [] {
        assert [] + [key] + more == [key] + more;
      } else {
        NestedIsFound(path[1..], value);
        assert (path + [key] + more)[1..] == path[1..] + [key] + more;
      }
    }
    if path != [] {
      NestedIsFound(path[1..], value);
    }
  }

  lemma SectionIsFound(path: seq<string>, value: Json)
    requires path != [] && forall key <- path :: '.' !in key
    ensures ConfigurationValue(Nest(path, value), Join(path)) == value
    ensures forall fields: map<string, Json>, section | section in fields ::
              ConfigurationValue(Object(fields), section) == fields[section]
    ensures forall settings: Json, section | !settings.Object? :: ConfigurationValue(settings, section) == Null
  {
    SplitJoin(path);
    NestedIsFound(path, value);
    if |path| > 1 {
      JoinedLonger(path);
    }
  }

  lemma JoinedLonger(path: seq<string>)
    requires |path| > 1
    ensures |Join(path)| > |path[0]|
  {
  }
}
