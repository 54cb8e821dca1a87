/** Signature help for the editor: parameter labels given as UTF-16 offsets are
    cut out of the signature exactly, every caption is located in bytes, and the
    selected overload is moved to the front. */
module SignatureHelp {
  import opened Wrappers
  import opened Utf8

  // ---- measuring a caption ----

  function Units(s: string): nat { if s == "" then 0 else Utf16Len(s[0]) + Units(s[1..]) }

  function Bytes(s: string): nat { |Encode(s)| }

  /** Byte offset of a character position. */
  function ByteAt(caption: string, i: nat): nat
    requires i <= |caption|
  {
    Bytes(caption[..i])
  }

  /** The caption in UTF-16. */
  ghost function Utf16Of(s: string): seq<nat> { if s == "" then [] else Utf16(s[0]) + Utf16Of(s[1..]) }

  lemma {:induction false} UnitsMeasureUtf16(s: string)
    ensures Units(s) == |Utf16Of(s)|
  {
    if s != "" {
      Utf16Units(s[0]);
      UnitsMeasureUtf16(s[1..]);
    }
  }

  ghost predicate AtBoundary(caption: string, units: nat) {
    exists i :: 0 <= i <= |caption| && Units(caption[..i]) == units
  }

  lemma {:induction false} UnitsConcat(a: string, b: string)
    ensures Units(a + b) == Units(a) + Units(b)
  {
    if a == "" {
      assert a + b == b;
    } else {
      assert (a + b)[1..] == a[1..] + b;
      UnitsConcat(a[1..], b);
    }
  }

  /** Prefixes grow strictly, in units and in bytes. */
  lemma PrefixGrows(caption: string, i: nat, j: nat)
    requires i <= j <= |caption|
    ensures Units(caption[..j]) == Units(caption[..i]) + Units(caption[i..j])
    ensures ByteAt(caption, j) == ByteAt(caption, i) + Bytes(caption[i..j])
    ensures i < j ==> Units(caption[..i]) < Units(caption[..j]) && ByteAt(caption, i) < ByteAt(caption, j)
  {
    assert caption[..j] == caption[..i] + caption[i..j];
    UnitsConcat(caption[..i], caption[i..j]);
    EncodeConcat(caption[..i], caption[i..j]);
  }

  lemma BoundaryUnique(caption: string, i: nat, j: nat)
    requires i <= |caption| && j <= |caption|
    requires Units(caption[..i]) == Units(caption[..j]) || ByteAt(caption, i) == ByteAt(caption, j)
    ensures i == j
  {
    if i < j { PrefixGrows(caption, i, j); }
    if j < i { PrefixGrows(caption, j, i); }
  }

  // ---- slicing ----

  /** The byte offset of a UTF-16 offset, if it falls between two characters. */
  method ByteOffset(caption: string, offset: nat) returns (r: Option<nat>)
    ensures r.Some? <==> AtBoundary(caption, offset)
    ensures r.Some? ==> exists i :: 0 <= i <= |caption| && Units(caption[..i]) == offset && r.value == ByteAt(caption, i)
  {
    var units, byte := 0, 0;
    for i := 0 to |caption|
      invariant units == Units(caption[..i]) && byte == ByteAt(caption, i)
      invariant units <= offset
      invariant forall j | 0 <= j < i :: Units(caption[..j]) != offset
    {
      if units == offset {
        return Some(byte);
      }
      PrefixGrows(caption, i, i + 1);
      assert caption[i..i + 1] == [caption[i]] && Units([caption[i]]) == Utf16Len(caption[i]);
      units := units + Utf16Len(caption[i]);
      byte := byte + Bytes([caption[i]]);
      if units > offset {
        forall j | 0 <= j <= |caption| ensures Units(caption[..j]) != offset {
          if j > i { PrefixGrows(caption, i + 1, j); }
        }
        return None;
      }
    }
    assert caption[..|caption|] == caption;
    if units == offset {
      return Some(byte);
    }
    return None;
  }

  function IndexAtByte(caption: string, byte: nat, i: nat := 0): Option<nat>
    requires i <= |caption|
    decreases |caption| - i
  {
    if ByteAt(caption, i) == byte then Some(i)
    else if i == |caption| then None
    else IndexAtByte(caption, byte, i + 1)
  }

  lemma {:induction false} IndexAtByteFinds(caption: string, k: nat, i: nat)
    requires i <= k <= |caption|
    ensures IndexAtByte(caption, ByteAt(caption, k), i) == Some(k)
    decreases k - i
  {
    if i < k {
      PrefixGrows(caption, i, k);
      IndexAtByteFinds(caption, k, i + 1);
    }
  }

  /** `str::get`: nothing when the bounds cross or cut a character. */
  function Get(caption: string, from: nat, to: nat): Option<string> {
    match (IndexAtByte(caption, from), IndexAtByte(caption, to))
    case (Some(i), Some(j)) => if i <= j <= |caption| then Some(caption[i..j]) else None
    case _ => None
  }

  /** Between UTF-16 offsets `start` and `end`: the text, and its byte offset. */
  ghost predicate CutOut(caption: string, start: nat, end: nat, text: string, byte: nat) {
    exists i, j :: 0 <= i <= j <= |caption| && Units(caption[..i]) == start && Units(caption[..j]) == end
                   && text == caption[i..j] && byte == ByteAt(caption, i)
  }

  /** A slice exists exactly when the offsets are in order and both fall between
      characters, and is then exactly as long as they say. */
  method SignatureLabelSlice(caption: string, start: nat, end: nat) returns (r: Option<(string, nat)>)
    ensures r.Some? <==> start <= end && AtBoundary(caption, start) && AtBoundary(caption, end)
    ensures r.Some? ==> CutOut(caption, start, end, r.value.0, r.value.1) && Units(r.value.0) == end - start
  {
    var from := ByteOffset(caption, start);
    if from.None? { return None; }
    var to := ByteOffset(caption, end);
    if to.None? { return None; }
    ghost var i :| 0 <= i <= |caption| && Units(caption[..i]) == start && from.value == ByteAt(caption, i);
    ghost var j :| 0 <= j <= |caption| && Units(caption[..j]) == end && to.value == ByteAt(caption, j);
    IndexAtByteFinds(caption, i, 0);
    IndexAtByteFinds(caption, j, 0);
    if i <= j { PrefixGrows(caption, i, j); } else { PrefixGrows(caption, j, i); }
    var text := Get(caption, from.value, to.value);
    if text.None? { return None; }
    r := Some((text.value, from.value));
  }

  lemma CutOutUnique(caption: string, start: nat, end: nat, t: string, b: nat, t': string, b': nat)
    requires CutOut(caption, start, end, t, b) && CutOut(caption, start, end, t', b')
    ensures t == t' && b == b'
  {
    var i, j :| 0 <= i <= j <= |caption| && Units(caption[..i]) == start && Units(caption[..j]) == end
                && t == caption[i..j] && b == ByteAt(caption, i);
    var i', j' :| 0 <= i' <= j' <= |caption| && Units(caption[..i']) == start && Units(caption[..j']) == end
                  && t' == caption[i'..j'] && b' == ByteAt(caption, i');
    BoundaryUnique(caption, i, i');
    BoundaryUnique(caption, j, j');
  }

  // ---- parameters ----

  datatype ParameterLabel = Simple(text: string) | LabelOffsets(start: nat, end: nat)

  datatype Parameter = Parameter(caption: ParameterLabel, documentation: Option<string>)

  datatype ParameterInfo = ParameterInfo(byteRange: Option<(nat, nat)>, caption: string, documentation: Option<string>)

  predicate OccursAt(text: string, caption: string, i: nat) { i + |text| <= |caption| && caption[i..i + |text|] == text }

  /** The first occurrence at or after `from`. */
  function Find(text: string, caption: string, from: nat): (r: Option<nat>)
    requires from <= |caption|
    ensures r.Some? ==> from <= r.value && OccursAt(text, caption, r.value)
    ensures forall i | from <= i < (if r.Some? then r.value else |caption| + 1) :: !OccursAt(text, caption, i)
    decreases |caption| - from
  {
    if OccursAt(text, caption, from) then Some(from)
    else if from == |caption| then None
    else Find(text, caption, from + 1)
  }

  /** One parameter found from character position `from` on: what is reported,
      and where the search for the next one starts. */
  ghost predicate Located(caption: string, from: nat, p: Parameter, info: ParameterInfo, next: nat) {
    && from <= |caption| && next <= |caption| && info.documentation == p.documentation
    && match p.caption
       case Simple(text) => PlainLocated(caption, from, text, info, next)
       case LabelOffsets(start, end) => SliceLocated(caption, from, start, end, info, next)
  }

  /** A plain label is at its first occurrence; an empty one is nowhere. */
  ghost predicate PlainLocated(caption: string, from: nat, text: string, info: ParameterInfo, next: nat) {
    && info.caption == text
    && match info.byteRange
       case None =>
         next == from && (text == "" || forall i | from <= i :: !OccursAt(text, caption, i))
       case Some((a, b)) =>
         && text != "" && from + |text| <= next <= |caption| && OccursAt(text, caption, next - |text|)
         && (forall i | from <= i < next - |text| :: !OccursAt(text, caption, i))
         && a == ByteAt(caption, next - |text|) && b == ByteAt(caption, next)
  }

  lemma OccurrenceMeans(text: string, caption: string, i: nat)
    ensures OccursAt(text, caption, i) <==> exists a, b :: |a| == i && caption == a + text + b
  {
    if OccursAt(text, caption, i) {
      assert caption == caption[..i] + text + caption[i + |text|..];
    }
  }

  ghost predicate SliceLocated(caption: string, from: nat, start: nat, end: nat, info: ParameterInfo, next: nat) {
    if start <= end && AtBoundary(caption, start) && AtBoundary(caption, end) then
      && info.byteRange.Some?
      && var (a, b) := info.byteRange.value;
      && CutOut(caption, start, end, info.caption, a) && b == a + Bytes(info.caption)
      && next <= |caption| && ByteAt(caption, next) == b
    else info.caption == "" && info.byteRange == None && next == from
  }

  ghost predicate AllLocated(caption: string, from: nat, ps: seq<Parameter>, infos: seq<ParameterInfo>, at: seq<nat>) {
    && |infos| == |ps| && |at| == |ps| + 1 && at[0] == from
    && forall k | 0 <= k < |ps| :: Located(caption, at[k], ps[k], infos[k], at[k + 1])
  }

  /** Just past the first opening parenthesis. */
  function SearchStart(caption: string): (i: nat)
    ensures i <= |caption|
  {
    match Find("(", caption, 0)
    case Some(i) => i + 1
    case None => 0
  }

  lemma SearchStartMeans(a: string, b: string)
    requires '(' !in a
    ensures SearchStart(a) == 0 && SearchStart(a + "(" + b) == |a| + 1
  {
    var caption := a + "(" + b;
    assert caption[|a|] == '(' && caption[|a|..|a| + 1] == "(" && OccursAt("(", caption, |a|);
    forall i: nat | i < |a| ensures !OccursAt("(", caption, i) && !OccursAt("(", a, i) {
      assert a[i] in a && caption[i] == a[i] && caption[i..i + 1][0] == a[i] && a[i..i + 1][0] == a[i];
    }
  }

  method LocateOne(caption: string, from: nat, p: Parameter) returns (info: ParameterInfo, next: nat)
    requires from <= |caption|
    ensures Located(caption, from, p, info, next)
  {
    hide Encode, Bytes, ByteAt, Units, AtBoundary, CutOut, Find;
    next := from;
    match p.caption
    case Simple(text) =>
      var found := Find(text, caption, from);
      if found.Some? && text != "" {
        next := found.value + |text|;
        info := ParameterInfo(Some((ByteAt(caption, found.value), ByteAt(caption, next))), text, p.documentation);
      } else {
        info := ParameterInfo(None, text, p.documentation);
      }
    case LabelOffsets(start, end) =>
      var slice := SignatureLabelSlice(caption, start, end);
      if slice.None? {
        return ParameterInfo(None, "", p.documentation), from;
      }
      var (text, byte) := slice.value;
      ghost var j := SliceEnd(caption, start, end, text, byte);
      IndexAtByteFinds(caption, j, 0);
      info := ParameterInfo(Some((byte, byte + Bytes(text))), text, p.documentation);
      next := IndexAtByte(caption, byte + Bytes(text)).value;
  }

  /** Each parameter is looked up from where the one before it left off. */
  method LocateParameters(caption: string, ps: seq<Parameter>) returns (infos: seq<ParameterInfo>)
    ensures exists at :: AllLocated(caption, SearchStart(caption), ps, infos, at)
  {
    hide *;
    var searchFrom: nat := SearchStart(caption);
    infos := [];
    ghost var at: seq<nat> := [searchFrom];
    StartLocated(caption, searchFrom);
    for k := 0 to |ps|
      invariant |at| == k + 1 && at[k] == searchFrom <= |caption|
      invariant AllLocated(caption, at[0], ps[..k], infos, at) && at[0] == SearchStart(caption)
    {
      var info, next := LocateOne(caption, searchFrom, ps[k]);
      MoreLocated(caption, ps, k, infos, at, info, next);
      infos, at := infos + [info], at + [next];
      searchFrom := next;
    }
    assert ps[..|ps|] == ps;
    assert AllLocated(caption, SearchStart(caption), ps, infos, at);
  }

  lemma SliceEnd(caption: string, start: nat, end: nat, text: string, byte: nat) returns (j: nat)
    requires CutOut(caption, start, end, text, byte)
    ensures j <= |caption| && ByteAt(caption, j) == byte + Bytes(text)
  {
    hide Encode, Bytes, ByteAt, Units;
    var i;
    i, j :| 0 <= i <= j <= |caption| && Units(caption[..i]) == start && Units(caption[..j]) == end
            && text == caption[i..j] && byte == ByteAt(caption, i);
    PrefixGrows(caption, i, j);
  }

  lemma StartLocated(caption: string, from: nat)
    ensures AllLocated(caption, from, [], [], [from])
  {
  }

  lemma MoreLocated(caption: string, ps: seq<Parameter>, k: nat, infos: seq<ParameterInfo>, at: seq<nat>,
                    info: ParameterInfo, next: nat)
    requires k < |ps| && |at| == k + 1 && AllLocated(caption, at[0], ps[..k], infos, at)
    requires Located(caption, at[k], ps[k], info, next)
    ensures AllLocated(caption, at[0], ps[..k + 1], infos + [info], at + [next]) && next <= |caption|
  {
  }

  /** Every reported byte range cuts exactly the reported label out of the
      signature's UTF-8 bytes. */
  lemma RangeCutsLabel(caption: string, from: nat, p: Parameter, info: ParameterInfo, next: nat)
    requires Located(caption, from, p, info, next) && info.byteRange.Some?
    ensures var (a, b) := info.byteRange.value;
      a <= b <= |Encode(caption)| && Encode(caption)[a..b] == Encode(info.caption)
  {
    hide Encode, Bytes, ByteAt, Units, AtBoundary, Find;
    var i, j;
    match p.caption {
      case Simple(text) =>
        i, j := next - |text|, next;
      case LabelOffsets(start, end) =>
        i, j :| 0 <= i <= j <= |caption| && Units(caption[..i]) == start && Units(caption[..j]) == end
                && info.caption == caption[i..j] && info.byteRange.value.0 == ByteAt(caption, i);
        PrefixGrows(caption, i, j);
    }
    assert caption[i..j] == info.caption;
    CutBytes(caption, i, j);
  }

  lemma CutBytes(caption: string, i: nat, j: nat)
    requires i <= j <= |caption|
    ensures ByteAt(caption, i) <= ByteAt(caption, j) <= Bytes(caption) == |Encode(caption)|
    ensures Encode(caption)[ByteAt(caption, i)..ByteAt(caption, j)] == Encode(caption[i..j])
  {
    hide Encode;
    var a, b, c := caption[..i], caption[i..j], caption[j..];
    assert caption[..j] == a + b;
    assert caption == (a + b) + c;
    EncodeConcat(a + b, c);
    EncodeConcat(a, b);
    MiddleOf(Encode(a), Encode(b), Encode(c));
  }

  lemma MiddleOf<T>(a: seq<T>, b: seq<T>, c: seq<T>)
    ensures ((a + b) + c)[|a|..|a + b|] == b
  {
  }

  /** Plain labels are found left to right: their ranges increase and do not
      overlap. */
  lemma {:induction false} PlainLabelsIncrease(caption: string, from: nat, ps: seq<Parameter>, infos: seq<ParameterInfo>,
                                               at: seq<nat>, k: nat, l: nat)
    requires AllLocated(caption, from, ps, infos, at) && k < l < |ps|
    requires forall p <- ps :: p.caption.Simple?
    requires infos[k].byteRange.Some? && infos[l].byteRange.Some?
    ensures infos[k].byteRange.value.0 < infos[k].byteRange.value.1 <= infos[l].byteRange.value.0
  {
    hide Encode, Bytes, ByteAt, Units;
    assert Located(caption, at[k], ps[k], infos[k], at[k + 1]) && Located(caption, at[l], ps[l], infos[l], at[l + 1]);
    assert ps[k] in ps && ps[l] in ps;
    SearchAdvances(caption, from, ps, infos, at, k + 1, l);
    var i, j := at[k + 1] - |ps[k].caption.text|, at[l + 1] - |ps[l].caption.text|;
    PrefixGrows(caption, i, at[k + 1]);
    PrefixGrows(caption, at[k + 1], j);
  }

  lemma {:induction false} SearchAdvances(caption: string, from: nat, ps: seq<Parameter>, infos: seq<ParameterInfo>,
                                          at: seq<nat>, k: nat, l: nat)
    requires AllLocated(caption, from, ps, infos, at) && k <= l <= |ps|
    requires forall p <- ps :: p.caption.Simple?
    ensures at[k] <= at[l]
    decreases l - k
  {
    if k < l {
      assert Located(caption, at[k], ps[k], infos[k], at[k + 1]) && ps[k] in ps;
      SearchAdvances(caption, from, ps, infos, at, k + 1, l);
    }
  }

  // ---- overloads ----

  datatype Signature = Signature(caption: string, parameters: Option<seq<Parameter>>,
                                 documentation: Option<string>, activeParameter: Option<nat>)

  datatype Help = Help(signatures: seq<Signature>, activeSignature: Option<nat>, activeParameter: Option<nat>)

  datatype SignatureInfo = SignatureInfo(overloadIndex: nat, overloadCount: nat, caption: string,
                                         documentation: Option<string>, activeParameter: Option<nat>,
                                         parameters: seq<ParameterInfo>)

  /** The reported overload is built from this signature. */
  ghost predicate BuiltFrom(info: SignatureInfo, sig: Signature, help: Help) {
    && info.caption == sig.caption && info.documentation == sig.documentation
    && info.overloadCount == |help.signatures|
    && info.activeParameter == (if sig.activeParameter.Some? then sig.activeParameter else help.activeParameter)
    && match sig.parameters
       case Some(ps) => exists at :: AllLocated(sig.caption, SearchStart(sig.caption), ps, info.parameters, at)
       case None => info.parameters == []
  }

  function Parameters(sig: Signature): seq<Parameter> {
    if sig.parameters.Some? then sig.parameters.value else []
  }

  ghost predicate Reported(infos: seq<SignatureInfo>, index: nat) {
    exists p | 0 <= p < |infos| :: infos[p].overloadIndex == index
  }

  function Active(help: Help): nat {
    var requested := if help.activeSignature.Some? then help.activeSignature.value else 0;
    if requested < |help.signatures| then requested else 0
  }

  /** Every overload is reported exactly once, each under the index it really
      has: the one the server calls active first, and the first one when it names
      none or one that is not there; the others in the server's order. */
  method FromLspSignatureHelp(help: Help) returns (infos: seq<SignatureInfo>)
    ensures |infos| == |help.signatures|
    ensures forall p | 0 <= p < |infos| :: infos[p].overloadIndex < |infos|
                                          && BuiltFrom(infos[p], help.signatures[infos[p].overloadIndex], help)
    ensures forall p, q | 0 <= p < q < |infos| :: infos[p].overloadIndex != infos[q].overloadIndex
    ensures forall i: nat | i < |infos| :: Reported(infos, i)
    ensures infos != [] ==> infos[0].overloadIndex == match help.activeSignature
                                                      case Some(i) => if i < |infos| then i else 0
                                                      case None => 0
    ensures forall p, q | 0 < p < q < |infos| :: infos[p].overloadIndex < infos[q].overloadIndex
  {
    hide *;
    var count := |help.signatures|;
    var active := Active(help);
    var signatures := help.signatures;
    if active > 0 && active < |signatures| {
      var selected := signatures[active];
      signatures := signatures[..active] + signatures[active + 1..];
      signatures := [selected] + signatures;
    }
    ActiveFirst(help, signatures);
    ActiveMeans(help);
    infos := [];
    for position := 0 to count
      invariant |infos| == position
      invariant forall p: nat | p < position :: infos[p].overloadIndex == OriginalIndex(p, active)
      invariant forall p: nat | p < position :: BuiltFrom(infos[p], signatures[p], help)
    {
      var sig := signatures[position];
      var parameters := LocateParameters(sig.caption, Parameters(sig));
      var info := SignatureInfo(OriginalIndex(position, active), count, sig.caption, sig.documentation,
                                if sig.activeParameter.Some? then sig.activeParameter else help.activeParameter,
                                parameters);
      Built(info, sig, help);
      infos := infos + [info];
    }
    Reindexed(infos, help, signatures);
    Bijection(infos, active);
  }

  /** Where the overload now at `position` stood in the server's list. */
  function OriginalIndex(position: nat, active: nat): nat {
    if position == 0 then active else if position <= active then position - 1 else position
  }

  ghost predicate MovedToFront(before: seq<Signature>, active: nat, after: seq<Signature>) {
    && (active < |before| || active == 0)
    && after == if 0 < active then [before[active]] + (before[..active] + before[active + 1..]) else before
  }

  lemma ActiveMeans(help: Help)
    ensures Active(help) == match help.activeSignature
                            case Some(i) => if i < |help.signatures| then i else 0
                            case None => 0
  {
  }

  lemma ActiveFirst(help: Help, after: seq<Signature>)
    ensures Active(help) < |help.signatures| || Active(help) == 0
    ensures MovedToFront(help.signatures, Active(help), after) ==> |after| == |help.signatures|
    ensures after == (if 0 < Active(help) then
                        [help.signatures[Active(help)]]
                        + (help.signatures[..Active(help)] + help.signatures[Active(help) + 1..])
                      else help.signatures)
            ==> MovedToFront(help.signatures, Active(help), after)
  {
  }

  lemma MovedAt(before: seq<Signature>, active: nat, after: seq<Signature>, p: nat)
    requires MovedToFront(before, active, after) && p < |before|
    ensures |after| == |before|
    ensures OriginalIndex(p, active) < |before| && after[p] == before[OriginalIndex(p, active)]
  {
  }

  lemma Reindexed(infos: seq<SignatureInfo>, help: Help, after: seq<Signature>)
    requires MovedToFront(help.signatures, Active(help), after) && |infos| == |after| == |help.signatures|
    requires forall p: nat | p < |infos| :: infos[p].overloadIndex == OriginalIndex(p, Active(help))
    requires forall p: nat | p < |infos| :: BuiltFrom(infos[p], after[p], help)
    ensures forall p | 0 <= p < |infos| :: infos[p].overloadIndex < |infos|
                                          && BuiltFrom(infos[p], help.signatures[infos[p].overloadIndex], help)
  {
    hide *;
    forall p: nat | p < |infos|
      ensures infos[p].overloadIndex < |infos| && BuiltFrom(infos[p], help.signatures[infos[p].overloadIndex], help)
    {
      MovedAt(help.signatures, Active(help), after, p);
    }
  }

  lemma Built(info: SignatureInfo, sig: Signature, help: Help)
    requires info.caption == sig.caption && info.documentation == sig.documentation
    requires info.overloadCount == |help.signatures|
    requires info.activeParameter == if sig.activeParameter.Some? then sig.activeParameter else help.activeParameter
    requires exists at :: AllLocated(sig.caption, SearchStart(sig.caption), Parameters(sig), info.parameters, at)
    ensures BuiltFrom(info, sig, help)
  {
  }

  lemma Bijection(infos: seq<SignatureInfo>, active: nat)
    requires active < |infos| || active == 0
    requires forall p: nat | p < |infos| :: infos[p].overloadIndex == OriginalIndex(p, active)
    ensures forall p, q | 0 <= p < q < |infos| :: infos[p].overloadIndex != infos[q].overloadIndex
    ensures forall i: nat | i < |infos| :: Reported(infos, i)
    ensures infos != [] ==> infos[0].overloadIndex == active
    ensures forall p, q | 0 < p < q < |infos| :: infos[p].overloadIndex < infos[q].overloadIndex
  {
    forall i: nat | i < |infos| ensures Reported(infos, i) {
      var p := if i == active then 0 else if i < active then i + 1 else i;
      assert infos[p].overloadIndex == i;
    }
  }
}
