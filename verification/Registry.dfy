/** The list of registered extensions: of several revisions of one extension the best usable one is kept. */
module Registry {
  import opened Seqs

  /** A target extension.  `specific` tells that it was made for the address family in use and not for any. */
  datatype Extension = Extension(name: string, revision: nat, specific: bool, size: nat)

  /** Which revisions the kernel knows. */
  type Compatible = (string, nat) -> bool

  datatype Registered = Accepted(list: seq<Extension>) | AlreadyRegistered | BadSize

  const STANDARD: string := "standard"

  /** Verdicts are looked up as the standard target. */
  function LookedUp(name: string): string {
    if name == "" || name == "ACCEPT" || name == "DROP" || name == "QUEUE" || name == "RETURN" then STANDARD else name
  }

  function Find(list: seq<Extension>, name: string): (r: Option<nat>)
    ensures r.Some? ==> r.value < |list| && list[r.value].name == name
    ensures r.Some? ==> forall i :: 0 <= i < r.value ==> list[i].name != name
    ensures r.None? ==> forall i :: 0 <= i < |list| ==> list[i].name != name
  {
    if list == [] then None
    else if list[0].name == name then Some(0)
    else match Find(list[1..], name)
      case None => None
      case Some(i) => Some(i + 1)
  }

  predicate Aligned(size: nat) { size % 8 == 0 }

  /** Whether the extension in the list gives way to the new one. */
  predicate GivesWay(compatible: Compatible, old': Extension, me: Extension) {
    && !(compatible(old'.name, old'.revision) && old'.revision > me.revision)
    && compatible(me.name, me.revision)
    && !(old'.revision == me.revision && !me.specific)
  }

  function Register(list: seq<Extension>, me: Extension, compatible: Compatible): Registered {
    match Find(list, LookedUp(me.name))
    case None => if Aligned(me.size) then Accepted([me] + list) else BadSize
    case Some(i) =>
      if list[i].revision == me.revision && list[i].specific == me.specific then AlreadyRegistered
      else if !GivesWay(compatible, list[i], me) then Accepted(list)
      else if Aligned(me.size) then Accepted([me] + RemoveAt(list, i))
      else BadSize
  }

  /** When a registration is refused: the same revision for the same family is there already, or the extension would get
      into the list and its size is no multiple of 8. */
  lemma {:induction false} WhenRefused(list: seq<Extension>, me: Extension, compatible: Compatible)
    requires me.name !in {"", "ACCEPT", "DROP", "QUEUE", "RETURN"}
    ensures match Find(list, me.name)
      case None => Register(list, me, compatible).Accepted? <==> me.size % 8 == 0
      case Some(i) =>
        var twice := list[i].revision == me.revision && list[i].specific == me.specific;
        var kept := (compatible(me.name, list[i].revision) && list[i].revision > me.revision)
                    || !compatible(me.name, me.revision)
                    || (list[i].revision == me.revision && !me.specific);
        Register(list, me, compatible).Accepted? <==> !twice && (kept || me.size % 8 == 0)
    ensures Register(list, me, compatible).BadSize? ==> me.size % 8 != 0
  {
    hide Find;
  }

  /** The list after registering one extension after the other; none if one is refused. */
  function RegisteredAll(exts: seq<Extension>, compatible: Compatible): Option<seq<Extension>> {
    if exts == [] then Some([])
    else match RegisteredAll(exts[..|exts| - 1], compatible)
      case None => None
      case Some(list) =>
        match Register(list, exts[|exts| - 1], compatible)
        case Accepted(list') => Some(list')
        case _ => None
  }

  // -------------------------------------------------------------------------------- the best survives

  /** A higher revision is better; of the same revision, the one made for the family. */
  predicate Better(a: Extension, b: Extension) {
    a.revision > b.revision || (a.revision == b.revision && a.specific && !b.specific)
  }

  predicate Usable(compatible: Compatible, e: Extension) { compatible(e.name, e.revision) }

  /** What the list must hold for `name` once `exts` have been registered: nothing if none of them has the name;
      the best usable one if any is usable; else the first. */
  ghost predicate HoldsBest(list: seq<Extension>, exts: seq<Extension>, compatible: Compatible, name: string) {
    match Find(list, name)
    case None => forall i :: 0 <= i < |exts| ==> exts[i].name != name
    case Some(k) =>
      && list[k] in exts
      && (forall j :: 0 <= j < |list| && list[j].name == name ==> j == k)
      && (forall i {:trigger exts[i]} :: 0 <= i < |exts| && exts[i].name == name && Usable(compatible, exts[i]) ==>
           Usable(compatible, list[k]) && !Better(exts[i], list[k]))
      && (!Usable(compatible, list[k]) ==> Find(exts, name).Some? && list[k] == exts[Find(exts, name).value])
  }

  /** No extension is named like a verdict. */
  ghost predicate PlainNames(exts: seq<Extension>) {
    forall i :: 0 <= i < |exts| ==> LookedUp(exts[i].name) == exts[i].name
  }

  lemma {:induction false} FindIs(list: seq<Extension>, name: string, k: nat)
    requires k < |list| && list[k].name == name && forall i :: 0 <= i < k ==> list[i].name != name
    ensures Find(list, name) == Some(k)
  {
  }

  /** What registering does to the list, name by name. */
  lemma {:induction false} FindAfter(list: seq<Extension>, me: Extension, i: nat, name: string)
    requires i < |list| && list[i].name == me.name
    requires forall j :: 0 <= j < |list| && list[j].name == me.name ==> j == i
    ensures var list' := [me] + RemoveAt(list, i);
      && (name == me.name ==> Find(list', name) == Some(0) && forall j :: 0 < j < |list'| ==> list'[j].name != name)
      && (name != me.name ==>
           (match Find(list, name)
            case None => Find(list', name) == None
            case Some(k) => Find(list', name) == Some(if k < i then k + 1 else k)))
  {
    var list' := [me] + RemoveAt(list, i);
    assert list'[0] == me;
    assert forall j :: 0 < j < |list'| ==> list'[j] == list[if j - 1 < i then j - 1 else j];
    if name == me.name {
      FindIs(list', name, 0);
    } else if Find(list, name).Some? {
      var k := Find(list, name).value;
      FindIs(list', name, if k < i then k + 1 else k);
    }
  }

  lemma {:induction false} FindFront(list: seq<Extension>, me: Extension, name: string)
    ensures Find([me] + list, name) == if name == me.name then Some(0)
      else match Find(list, name) case None => None case Some(k) => Some(k + 1)
  {
    assert ([me] + list)[1..] == list;
  }

  /** Appending to the registered ones. */
  lemma {:induction false} FindGrows(exts: seq<Extension>, me: Extension, name: string)
    ensures Find(exts, name).Some? ==> Find(exts + [me], name) == Find(exts, name)
    ensures Find(exts, name).None? && me.name == name ==> Find(exts + [me], name) == Some(|exts|)
  {
    if Find(exts, name).Some? {
      FindIs(exts + [me], name, Find(exts, name).value);
    } else if me.name == name {
      FindIs(exts + [me], name, |exts|);
    }
  }

  /** Registering one more keeps the best. */
  lemma {:induction false} RegisterKeepsBest(list: seq<Extension>, exts: seq<Extension>, me: Extension,
                                              compatible: Compatible, list': seq<Extension>, name: string)
    requires HoldsBest(list, exts, compatible, name) && HoldsBest(list, exts, compatible, me.name)
    requires LookedUp(me.name) == me.name && Register(list, me, compatible) == Accepted(list')
    ensures HoldsBest(list', exts + [me], compatible, name)
  {
    FindGrows(exts, me, name);
    match Find(list, me.name)
    case None =>
      FindFront(list, me, name);
      NewName(list, exts, me, compatible, name);
    case Some(i) =>
      if GivesWay(compatible, list[i], me) {
        FindAfter(list, me, i, name);
        Replaced(list, exts, me, i, compatible, name);
      } else {
        KeptOld(list, exts, me, i, compatible, name);
      }
  }

  lemma {:induction false} NewName(list: seq<Extension>, exts: seq<Extension>, me: Extension, compatible: Compatible,
                                   name: string)
    requires HoldsBest(list, exts, compatible, name) && HoldsBest(list, exts, compatible, me.name)
             && Find(list, me.name).None?
    requires Find([me] + list, name) == if name == me.name then Some(0)
      else match Find(list, name) case None => None case Some(k) => Some(k + 1)
    requires Find(exts, name).Some? ==> Find(exts + [me], name) == Find(exts, name)
    requires Find(exts, name).None? && me.name == name ==> Find(exts + [me], name) == Some(|exts|)
    ensures HoldsBest([me] + list, exts + [me], compatible, name)
  {
  }

  lemma {:induction false} ReplacedSame(list: seq<Extension>, exts: seq<Extension>, me: Extension, i: nat,
                                        compatible: Compatible)
    requires HoldsBest(list, exts, compatible, me.name)
    requires Find(list, me.name) == Some(i) && GivesWay(compatible, list[i], me)
    requires var list' := [me] + RemoveAt(list, i);
      Find(list', me.name) == Some(0) && forall j :: 0 < j < |list'| ==> list'[j].name != me.name
    ensures HoldsBest([me] + RemoveAt(list, i), exts + [me], compatible, me.name)
  {
    hide RemoveAt, Find;
    var list', exts' := [me] + RemoveAt(list, i), exts + [me];
    assert exts'[|exts|] == me;
    forall j | 0 <= j < |exts'| && exts'[j].name == me.name && Usable(compatible, exts'[j])
        ensures !Better(exts'[j], me) {
      if j < |exts| { assert exts'[j] == exts[j]; }
    }
  }

  lemma {:induction false} ReplacedOther(list: seq<Extension>, exts: seq<Extension>, me: Extension, i: nat,
                                         compatible: Compatible, name: string)
    requires HoldsBest(list, exts, compatible, name) && name != me.name && i < |list|
    requires Find(exts, name).Some? ==> Find(exts + [me], name) == Find(exts, name)
    requires var list' := [me] + RemoveAt(list, i);
      match Find(list, name)
      case None => Find(list', name) == None
      case Some(k) => k != i && Find(list', name) == Some(if k < i then k + 1 else k)
    ensures HoldsBest([me] + RemoveAt(list, i), exts + [me], compatible, name)
  {
    hide Find;
    var list', exts' := [me] + RemoveAt(list, i), exts + [me];
    assert |list'| == |list| && forall j :: 0 < j < |list'| ==> list'[j] == list[if j - 1 < i then j - 1 else j];
    assert list'[0] == me && forall j :: 0 <= j < |exts| ==> exts'[j] == exts[j];
  }

  lemma {:induction false} Replaced(list: seq<Extension>, exts: seq<Extension>, me: Extension, i: nat,
                                    compatible: Compatible, name: string)
    requires HoldsBest(list, exts, compatible, name) && HoldsBest(list, exts, compatible, me.name)
    requires Find(list, me.name) == Some(i) && GivesWay(compatible, list[i], me)
    requires Find(exts, name).Some? ==> Find(exts + [me], name) == Find(exts, name)
    requires var list' := [me] + RemoveAt(list, i);
      && (name == me.name ==> Find(list', name) == Some(0) && forall j :: 0 < j < |list'| ==> list'[j].name != name)
      && (name != me.name ==>
           (match Find(list, name)
            case None => Find(list', name) == None
            case Some(k) => Find(list', name) == Some(if k < i then k + 1 else k)))
    ensures HoldsBest([me] + RemoveAt(list, i), exts + [me], compatible, name)
  {
    if name == me.name {
      ReplacedSame(list, exts, me, i, compatible);
    } else {
      ReplacedOther(list, exts, me, i, compatible, name);
    }
  }

  lemma {:induction false} KeptOld(list: seq<Extension>, exts: seq<Extension>, me: Extension, i: nat,
                                   compatible: Compatible, name: string)
    requires HoldsBest(list, exts, compatible, name)
    requires Find(list, me.name) == Some(i) && !GivesWay(compatible, list[i], me)
    requires !(list[i].revision == me.revision && list[i].specific == me.specific)
    requires Find(exts, name).Some? ==> Find(exts + [me], name) == Find(exts, name)
    ensures HoldsBest(list, exts + [me], compatible, name)
  {
  }

  /** After any accepted registrations every name occurs at most once, with the best usable extension that was
      registered under it, whatever the order. */
  lemma {:induction false} BestIsKept(exts: seq<Extension>, compatible: Compatible, name: string)
    requires PlainNames(exts) && RegisteredAll(exts, compatible).Some?
    ensures HoldsBest(RegisteredAll(exts, compatible).value, exts, compatible, name)
  {
    if exts != [] {
      var front, me := exts[..|exts| - 1], exts[|exts| - 1];
      assert exts == front + [me];
      BestIsKept(front, compatible, name);
      BestIsKept(front, compatible, me.name);
      hide HoldsBest, Register;
      RegisterKeepsBest(RegisteredAll(front, compatible).value, front, me, compatible,
                        RegisteredAll(exts, compatible).value, name);
    }
  }

  /** Two orders of the same extensions leave equally good survivors. */
  lemma {:induction false} OrderDoesNotMatter(exts: seq<Extension>, exts': seq<Extension>, compatible: Compatible,
                                              name: string)
    requires PlainNames(exts) && PlainNames(exts') && multiset(exts) == multiset(exts')
    requires RegisteredAll(exts, compatible).Some? && RegisteredAll(exts', compatible).Some?
    requires exists e :: e in exts && e.name == name && Usable(compatible, e)
    ensures var list, list' := RegisteredAll(exts, compatible).value, RegisteredAll(exts', compatible).value;
      && Find(list, name).Some? && Find(list', name).Some?
      && var a, b := list[Find(list, name).value], list'[Find(list', name).value];
         a.revision == b.revision && a.specific == b.specific && Usable(compatible, a)
  {
    BestIsKept(exts, compatible, name);
    BestIsKept(exts', compatible, name);
    hide RegisteredAll, Register;
    var e :| e in exts && e.name == name && Usable(compatible, e);
    SameMembers(exts, exts');
    var list, list' := RegisteredAll(exts, compatible).value, RegisteredAll(exts', compatible).value;
    BestFor(list, exts, compatible, name, e);
    BestFor(list', exts', compatible, name, e);
    BestFor(list, exts, compatible, name, list'[Find(list', name).value]);
    BestFor(list', exts', compatible, name, list[Find(list, name).value]);
  }

  lemma {:induction false} SameMembers<T>(a: seq<T>, b: seq<T>)
    requires multiset(a) == multiset(b)
    ensures forall x :: x in a <==> x in b
  {
    assert forall x :: x in a <==> x in multiset(a);
  }

  lemma {:induction false} BestFor(list: seq<Extension>, exts: seq<Extension>, compatible: Compatible, name: string,
                                   e: Extension)
    requires HoldsBest(list, exts, compatible, name) && e in exts && e.name == name && Usable(compatible, e)
    ensures Find(list, name).Some?
    ensures var k := Find(list, name).value;
      list[k] in exts && list[k].name == name && Usable(compatible, list[k]) && !Better(e, list[k])
  {
    var i :| 0 <= i < |exts| && exts[i] == e;
  }

  /** The list that the library keeps. */
  class TargetList {
    var targets: seq<Extension>

    constructor ()
      ensures targets == []
    {
      targets := [];
    }

    method FindTarget(name: string) returns (at: Option<nat>)
      ensures at == Find(targets, LookedUp(name))
      ensures var wanted := if name in ["", "ACCEPT", "DROP", "QUEUE", "RETURN"] then "standard" else name;
        if at.None? then forall i :: 0 <= i < |targets| ==> targets[i].name != wanted
        else at.value < |targets| && targets[at.value].name == wanted
    {
      var wanted := LookedUp(name);
      var i := 0;
      while i < |targets|
        invariant i <= |targets| && forall j :: 0 <= j < i ==> targets[j].name != wanted
      {
        if targets[i].name == wanted {
          FindIs(targets, wanted, i);
          return Some(i);
        }
        i := i + 1;
      }
      return None;
    }

    /** The program gives up when the registration is refused. */
    method RegisterTarget(me: Extension, compatible: Compatible) returns (accepted: bool)
      modifies this
      ensures accepted <==> Register(old(targets), me, compatible).Accepted?
      ensures accepted ==> Register(old(targets), me, compatible) == Accepted(targets)
    {
      var old' := FindTarget(me.name);
      if old'.Some? {
        var at := old'.value;
        if targets[at].revision == me.revision && targets[at].specific == me.specific {
          return false;
        }
        if compatible(targets[at].name, targets[at].revision) && targets[at].revision > me.revision {
          return true;
        }
        if !compatible(me.name, me.revision) {
          return true;
        }
        if targets[at].revision == me.revision && !me.specific {
          return true;
        }
        targets := RemoveAt(targets, at);
      }
      if !Aligned(me.size) {
        return false;
      }
      targets := [me] + targets;
      return true;
    }
  }
}
