/** How hidden installation siblings are named on disk, and read back: the
    installer's model identifies a sibling by its label, owner and stamp. */
module SiblingNames {
  import opened Wrappers
  import opened Sequences
  import Decimal

  const MAX_PID: nat := 0xFFFF_FFFF
  const MAX_STAMP: nat := 0xFFFF_FFFF_FFFF_FFFF_FFFF_FFFF_FFFF_FFFF

  function Prefix(name: string, tag: string): string { "." + name + "." + tag + "-" }

  function UniqueSibling(name: string, tag: string, pid: nat, stamp: nat): string {
    Prefix(name, tag) + Decimal.Print(pid) + "-" + Decimal.Print(stamp)
  }

  function HiddenSiblingOwner(sibling: string, name: string, tag: string): Option<(nat, nat)> {
    var prefix := Prefix(name, tag);
    if !(prefix <= sibling) then None
    else Owner(sibling[|prefix|..])
  }

  function Owner(suffix: string): Option<(nat, nat)> {
    var dash := IndexOf(suffix, '-');
    if dash == |suffix| then None
    else match (Decimal.Parse(suffix[..dash], MAX_PID), Decimal.Parse(suffix[dash + 1..], MAX_STAMP))
      case (Some(pid), Some(stamp)) => Some((pid, stamp))
      case _ => None
  }

  predicate IsTag(tag: string) { tag == "installing" || tag == "abandoned" || tag == "backup" }

  lemma DashAfterDigits(digits: string, rest: string)
    requires forall c <- digits :: Decimal.IsDigit(c)
    ensures IndexOf(digits + "-" + rest, '-') == |digits|
  {
    var s := digits + "-" + rest;
    assert s[|digits|] == '-';
    forall j | 0 <= j < |digits| ensures s[j] != '-' {
      assert s[j] == digits[j] && digits[j] in digits;
    }
    assert IndexOf(s, '-') >= |digits|;
  }

  lemma OwnerPrinted(pid: nat, stamp: nat)
    requires pid <= MAX_PID && stamp <= MAX_STAMP
    ensures Owner(Decimal.Print(pid) + "-" + Decimal.Print(stamp)) == Some((pid, stamp))
  {
    hide Decimal.Print, Decimal.Parse, Decimal.Value;
    var p, s := Decimal.Print(pid), Decimal.Print(stamp);
    var suffix := p + "-" + s;
    Decimal.PrintDigits(pid);
    DashAfterDigits(p, s);
    assert suffix[..|p|] == p && suffix[|p| + 1..] == s;
    Decimal.ParsePrint(pid, MAX_PID);
    Decimal.ParsePrint(stamp, MAX_STAMP);
  }

  lemma OtherTag(name: string, tag: string, other: string, rest: string)
    requires IsTag(tag) && IsTag(other) && tag != other
    ensures !(Prefix(name, other) <= Prefix(name, tag) + rest)
  {
    var at := |name| + 2;
    assert (Prefix(name, tag) + rest)[at] == Prefix(name, tag)[at] == tag[0];
    assert Prefix(name, other)[at] == other[0];
  }

  /** A sibling's name gives back its owner under its own label, and is nobody's
      under the other two. */
  lemma OwnerOfUnique(name: string, tag: string, other: string, pid: nat, stamp: nat)
    requires IsTag(tag) && IsTag(other) && pid <= MAX_PID && stamp <= MAX_STAMP
    ensures HiddenSiblingOwner(UniqueSibling(name, tag, pid, stamp), name, other)
            == if tag == other then Some((pid, stamp)) else None
  {
    hide Owner, Prefix, Decimal.Print;
    var sibling, rest := UniqueSibling(name, tag, pid, stamp), Decimal.Print(pid) + "-" + Decimal.Print(stamp);
    assert sibling == Prefix(name, tag) + rest;
    if tag == other {
      assert sibling[|Prefix(name, tag)|..] == rest;
      OwnerPrinted(pid, stamp);
    } else {
      OtherTag(name, tag, other, rest);
    }
  }

  /** Only names of that shape have an owner. */
  lemma OwnerExactly(sibling: string, name: string, tag: string, pid: nat, stamp: nat)
    ensures HiddenSiblingOwner(sibling, name, tag) == Some((pid, stamp)) <==>
      exists p, q :: Named(sibling, name, tag, p, q) && '-' !in p
        && Decimal.Parse(p, 0xFFFF_FFFF) == Some(pid)
        && Decimal.Parse(q, 0xFFFF_FFFF_FFFF_FFFF_FFFF_FFFF_FFFF_FFFF) == Some(stamp)
  {
    hide Decimal.Parse, HiddenSiblingOwner;
    if HiddenSiblingOwner(sibling, name, tag) == Some((pid, stamp)) {
      var p, q := OwnerTaken(sibling, name, tag, pid, stamp);
    }
    forall p, q | Named(sibling, name, tag, p, q) && '-' !in p
                  && Decimal.Parse(p, 0xFFFF_FFFF) == Some(pid)
                  && Decimal.Parse(q, 0xFFFF_FFFF_FFFF_FFFF_FFFF_FFFF_FFFF_FFFF) == Some(stamp)
      ensures HiddenSiblingOwner(sibling, name, tag) == Some((pid, stamp))
    {
      OwnerGiven(sibling, name, tag, p, q);
    }
  }

  predicate Named(sibling: string, name: string, tag: string, p: string, q: string) {
    sibling == "." + name + "." + tag + "-" + (p + "-" + q)
  }

  lemma OwnerTaken(sibling: string, name: string, tag: string, pid: nat, stamp: nat) returns (p: string, q: string)
    requires HiddenSiblingOwner(sibling, name, tag) == Some((pid, stamp))
    ensures Named(sibling, name, tag, p, q) && '-' !in p
    ensures Decimal.Parse(p, 0xFFFF_FFFF) == Some(pid)
    ensures Decimal.Parse(q, 0xFFFF_FFFF_FFFF_FFFF_FFFF_FFFF_FFFF_FFFF) == Some(stamp)
  {
    hide Decimal.Parse, Prefix;
    var prefix := Prefix(name, tag);
    var suffix := sibling[|prefix|..];
    var dash := IndexOf(suffix, '-');
    p, q := suffix[..dash], suffix[dash + 1..];
    assert suffix == p + "-" + q;
    assert sibling == prefix + suffix;
    PrefixSpelt(name, tag);
  }

  lemma OwnerGiven(sibling: string, name: string, tag: string, p: string, q: string)
    requires Named(sibling, name, tag, p, q) && '-' !in p
    ensures HiddenSiblingOwner(sibling, name, tag)
            == match (Decimal.Parse(p, 0xFFFF_FFFF), Decimal.Parse(q, 0xFFFF_FFFF_FFFF_FFFF_FFFF_FFFF_FFFF_FFFF))
               case (Some(pid), Some(stamp)) => Some((pid, stamp))
               case _ => None
  {
    hide Decimal.Parse, Prefix;
    var prefix, suffix := Prefix(name, tag), p + "-" + q;
    PrefixSpelt(name, tag);
    assert sibling == prefix + suffix && sibling[|prefix|..] == suffix;
    forall j | 0 <= j < |p| ensures suffix[j] != '-' {
      assert suffix[j] == p[j];
    }
    IndexOfUnique(suffix, '-', |p|);
    assert suffix[..|p|] == p && suffix[|p| + 1..] == q;
  }

  lemma PrefixSpelt(name: string, tag: string)
    ensures Prefix(name, tag) == "." + name + "." + tag + "-"
  {
  }
}
