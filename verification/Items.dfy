/** The firewall's chain rule by rule: between its fixed rules stand single log and accept rules of clients, in
    pairs as long as no table operation fails, and in any order once some have failed half-way. */
module Items {
  import opened Names
  import opened Seqs
  import opened Rulesets
  import opened Editing
  import opened Mangle
  import opened Wall

  /** One of a client's two rules. */
  datatype Item = Log(address: Address) | Accept(address: Address)

  function ItemEntry(s: Setup, x: Item): Entry {
    match x
    case Log(a) => ClientLogEntry(s, a)
    case Accept(a) => ClientAcceptEntry(s, a)
  }

  function ItemRule(s: Setup, x: Item): Rule {
    match x
    case Log(a) => ClientLogRule(s, a)
    case Accept(a) => ClientAcceptRule(s, a)
  }

  function RuleOf(s: Setup): Item -> Rule { (x: Item) => ItemRule(s, x) }

  /** The rules of the chain around the items. */
  function ItemRules(s: Setup, items: seq<Item>): (rules: seq<Rule>)
    ensures |rules| == |items| + 3
    ensures forall i {:trigger items[i]} :: 0 <= i < |items| ==> rules[2 + i] == ItemRule(s, items[i])
  {
    [AuthenticatorRule(s), LocalTrafficRule()] + Map(items, RuleOf(s)) + [TproxyRule(s)]
  }

  /** The first place of an item. */
  function FirstItem(items: seq<Item>, x: Item): (r: Option<nat>)
    ensures r.Some? ==> r.value < |items| && items[r.value] == x
    ensures r.Some? ==> forall i :: 0 <= i < r.value ==> items[i] != x
    ensures r.None? ==> x !in items
  {
    if items == [] then None
    else if items[0] == x then Some(0)
    else match FirstItem(items[1..], x)
      case None => None
      case Some(i) => Some(i + 1)
  }

  /** The items without the first `x`. */
  function Without(items: seq<Item>, x: Item): seq<Item> {
    match FirstItem(items, x)
    case None => items
    case Some(i) => RemoveAt(items, i)
  }

  /** Both rules of each source. */
  function PairItems(sources: seq<Address>): seq<Item> {
    if sources == [] then [] else [Log(sources[0]), Accept(sources[0])] + PairItems(sources[1..])
  }

  /** Table `rs` with the firewall installed and these items in its chain. */
  function Holding(rs: Ruleset, s: Setup, items: seq<Item>): Ruleset
    requires Lookup(rs, PREROUTING).Some?
  {
    var k := Lookup(rs, PREROUTING).value;
    var rs1 := WithRules(rs, k, rs[k].rules + [JumpRule(s)]);
    InsertAt(rs1, Place(rs, CATTIVO), Chain(CATTIVO, 0, RETURN, ItemRules(s, items)))
  }

  // ------------------------------------------------------------------------------- pairs are items

  lemma {:induction false} PairsAreItems(s: Setup, sources: seq<Address>)
    ensures Map(PairItems(sources), RuleOf(s)) == Pairs(s, sources)
  {
    hide ClientLogRule, ClientAcceptRule;
    if sources != [] {
      PairsAreItems(s, sources[1..]);
      var pair := [Log(sources[0]), Accept(sources[0])];
      assert Map(pair + PairItems(sources[1..]), RuleOf(s))
          == Map(pair, RuleOf(s)) + Map(PairItems(sources[1..]), RuleOf(s));
      assert Map(pair, RuleOf(s)) == [ClientLogRule(s, sources[0]), ClientAcceptRule(s, sources[0])];
    }
  }

  /** A table that lets sources through holds their pairs. */
  lemma {:induction false} InstalledHolds(rs: Ruleset, s: Setup, sources: seq<Address>)
    requires Lookup(rs, PREROUTING).Some?
    ensures ChainRules(s, sources) == ItemRules(s, PairItems(sources))
    ensures Installed(rs, s, sources) == Holding(rs, s, PairItems(sources))
  {
    hide ClientLogRule, ClientAcceptRule, AuthenticatorRule, LocalTrafficRule, TproxyRule, JumpRule, Place, Map;
    PairsAreItems(s, sources);
  }

  /** An address has an accept rule among the pairs exactly if it is one of the sources. */
  lemma {:induction false} PairItemsOf(sources: seq<Address>, a: Address)
    ensures Accept(a) in PairItems(sources) <==> a in sources
    ensures Log(a) in PairItems(sources) <==> a in sources
  {
    if sources != [] {
      PairItemsOf(sources[1..], a);
      assert sources == [sources[0]] + sources[1..];
    }
  }

  // ------------------------------------------------------------------------------------ single edits

  /** The firewall's chain stands at `k` of a table and holds the items. */
  ghost predicate HoldsAt(rs: Ruleset, s: Setup, k: nat, items: seq<Item>) {
    && NamesDiffer(rs) && ExtensionsClear(rs) && Lookup(rs, CATTIVO) == Some(k) && k < |rs|
    && rs[k].rules == ItemRules(s, items)
  }

  lemma {:induction false} ItemMeans(rs: Ruleset, s: Setup, x: Item)
    requires ExtensionsClear(rs)
    ensures RuleFor(rs, ItemEntry(s, x)) == Ok(ItemRule(s, x))
  {
    EntriesMean(rs, s, x.address);
    hide RuleFor, ExtensionsClear;
  }

  lemma {:induction false} InsertBehindTwo<T>(a: T, b: T, mid: seq<T>, z: T, x: T)
    ensures InsertAt([a, b] + mid + [z], 2, x) == [a, b] + ([x] + mid) + [z]
  {
  }

  lemma {:induction false} RemoveBehindTwo<T>(a: T, b: T, mid: seq<T>, z: T, i: nat)
    requires i < |mid|
    ensures RemoveAt([a, b] + mid + [z], 2 + i) == [a, b] + RemoveAt(mid, i) + [z]
  {
  }

  lemma {:induction false} ItemPutInFront(s: Setup, items: seq<Item>, x: Item)
    ensures InsertAt(ItemRules(s, items), 2, ItemRule(s, x)) == ItemRules(s, [x] + items)
  {
    assert Map([x] + items, RuleOf(s)) == [ItemRule(s, x)] + Map(items, RuleOf(s));
    hide ItemRule, AuthenticatorRule, LocalTrafficRule, TproxyRule, Map, InsertAt;
    InsertBehindTwo(AuthenticatorRule(s), LocalTrafficRule(), Map(items, RuleOf(s)), TproxyRule(s), ItemRule(s, x));
  }

  lemma {:induction false} ItemTakenOut(s: Setup, items: seq<Item>, i: nat)
    requires i < |items|
    ensures RemoveAt(ItemRules(s, items), 2 + i) == ItemRules(s, RemoveAt(items, i))
  {
    MapRemove(items, i, RuleOf(s));
    hide ItemRule, AuthenticatorRule, LocalTrafficRule, TproxyRule, Map, RemoveAt;
    RemoveBehindTwo(AuthenticatorRule(s), LocalTrafficRule(), Map(items, RuleOf(s)), TproxyRule(s), i);
  }

  /** Inserting an item's entry behind the two fixed rules puts the item in front. */
  lemma {:induction false} PutsItem(rs: Ruleset, s: Setup, k: nat, items: seq<Item>, x: Item)
    requires HoldsAt(rs, s, k, items)
    ensures Insert(rs, CATTIVO, ItemEntry(s, x), 2) == Ok(WithRules(rs, k, ItemRules(s, [x] + items)))
  {
    ItemMeans(rs, s, x);
    ItemPutInFront(s, items, x);
    hide RuleFor, ItemRules, ItemEntry, ItemRule, ExtensionsClear, NamesDiffer, Lookup, InsertAt;
  }

  /** Different items do not compare equal, and none compares equal to a fixed rule. */
  lemma {:induction false} ItemsDiffer(s: Setup, x: Item, y: Item)
    requires SetupOk(s)
    ensures Same(ItemRule(s, x), ItemRule(s, y), DELETE_MASK) <==> x == y
    ensures !Same(ItemRule(s, x), AuthenticatorRule(s), DELETE_MASK)
            && !Same(ItemRule(s, x), LocalTrafficRule(), DELETE_MASK)
    ensures !Same(ItemRule(s, x), TproxyRule(s), DELETE_MASK)
  {
    ClientRulesDiffer(s, x.address, y.address);
    ClientRulesSame(s, x.address);
    AcceptIsNoTproxy(s, x.address);
    hide Same, ClientLogRule, ClientAcceptRule, AuthenticatorRule, LocalTrafficRule, TproxyRule;
  }

  lemma {:induction false} AcceptIsNoTproxy(s: Setup, a: Address)
    ensures !Same(ClientAcceptRule(s, a), TproxyRule(s), DELETE_MASK)
  {
  }

  /** Place `j` of the chain is that of an item `x`. */
  predicate IsPlace(items: seq<Item>, x: Item, j: nat) { 2 <= j < |items| + 2 && items[j - 2] == x }

  lemma {:induction false} SameAtPlace(s: Setup, items: seq<Item>, x: Item, j: nat)
    requires SetupOk(s) && j < |items| + 3
    ensures Same(ItemRule(s, x), ItemRules(s, items)[j], DELETE_MASK) <==> IsPlace(items, x, j)
  {
    var y := if 2 <= j < |items| + 2 then items[j - 2] else x;
    ItemsDiffer(s, x, y);
    hide Same, ItemRule, AuthenticatorRule, LocalTrafficRule, TproxyRule;
    if 2 <= j < |items| + 2 { assert ItemRules(s, items)[2 + (j - 2)] == ItemRule(s, y); }
  }

  /** Where the search for an item's rule ends. */
  lemma {:induction false} ItemFound(s: Setup, items: seq<Item>, x: Item)
    requires SetupOk(s)
    ensures FirstSame(ItemRules(s, items), ItemRule(s, x), DELETE_MASK, 0)
         == match FirstItem(items, x) case None => None case Some(i) => Some(2 + i)
  {
    var rules := ItemRules(s, items);
    var first := FirstItem(items, x);
    hide Same, ItemRule, AuthenticatorRule, LocalTrafficRule, TproxyRule, FirstItem;
    ItemsDiffer(s, x, x);
    forall j | 0 <= j < |rules| ensures Same(ItemRule(s, x), rules[j], DELETE_MASK) <==> IsPlace(items, x, j) {
      SameAtPlace(s, items, x, j);
    }
    assert first.Some? ==>
      IsPlace(items, x, 2 + first.value) && forall j :: 0 <= j < 2 + first.value ==> !IsPlace(items, x, j);
    assert first.None? ==> forall j :: 0 <= j < |rules| ==> !IsPlace(items, x, j);
  }

  /** Deleting an item's entry takes the first such item out, or fails if there is none. */
  lemma {:induction false} DropsItem(rs: Ruleset, s: Setup, k: nat, items: seq<Item>, x: Item)
    requires SetupOk(s) && HoldsAt(rs, s, k, items)
    ensures DeleteSame(rs, CATTIVO, ItemEntry(s, x), DELETE_MASK) == match FirstItem(items, x)
      case None => Err(ENOENT)
      case Some(i) => Ok(WithRules(rs, k, ItemRules(s, RemoveAt(items, i))))
  {
    ItemMeans(rs, s, x);
    ItemFound(s, items, x);
    if FirstItem(items, x).Some? { ItemTakenOut(s, items, FirstItem(items, x).value); }
    hide RuleFor, ItemRules, ItemEntry, ItemRule, ExtensionsClear, NamesDiffer, Lookup, FirstSame, RemoveAt, DeleteSame,
        SetupOk;
    DeleteIs(rs, k, ItemEntry(s, x), ItemRule(s, x));
  }

  // ------------------------------------------------------------------------------ in a host's table

  lemma {:induction false} HoldingAsEdited(rs: Ruleset, s: Setup, items: seq<Item>)
    requires Host(rs)
    ensures Lookup(rs, PREROUTING).Some? && Place(rs, CATTIVO) < |Installed(rs, s, [])|
    ensures Holding(rs, s, items) == WithRules(Installed(rs, s, []), Place(rs, CATTIVO), ItemRules(s, items))
  {
    HostPlaces(rs);
    hide ItemRules, ChainRules, Host, Lookup;
  }

  lemma {:induction false} EditedHolds(rs: Ruleset, s: Setup, k: nat, items: seq<Item>)
    requires k < |rs| && Lookup(WithRules(rs, k, ItemRules(s, items)), CATTIVO) == Some(k)
    requires NamesDiffer(WithRules(rs, k, ItemRules(s, items)))
             && ExtensionsClear(WithRules(rs, k, ItemRules(s, items)))
    ensures HoldsAt(WithRules(rs, k, ItemRules(s, items)), s, k, items)
    ensures WithRules(rs, k, ItemRules(s, items))[k].policy == rs[k].policy
  {
    hide NamesDiffer, ExtensionsClear, Lookup, ItemRules;
  }

  lemma {:induction false} HoldingStands(rs: Ruleset, s: Setup, items: seq<Item>)
    requires Host(rs)
    ensures Lookup(rs, PREROUTING).Some?
    ensures HoldsAt(Holding(rs, s, items), s, Place(rs, CATTIVO), items)
    ensures Holding(rs, s, items)[Place(rs, CATTIVO)].policy == RETURN
  {
    HoldingAsEdited(rs, s, items);
    InstalledPlaces(rs, s, []);
    var k, rs0 := Place(rs, CATTIVO), Installed(rs, s, []);
    assert k < |rs0| && rs0[k].policy == RETURN && Lookup(rs0, CATTIVO) == Some(k);
    hide *;
    LookupKept(rs0, k, ItemRules(s, items));
    EditedHolds(rs0, s, k, items);
  }

  lemma {:induction false} HoldingOthers(rs: Ruleset, s: Setup, items: seq<Item>, items': seq<Item>)
    requires Lookup(rs, PREROUTING).Some? && Place(rs, CATTIVO) < |Holding(rs, s, items)|
    ensures WithRules(Holding(rs, s, items), Place(rs, CATTIVO), ItemRules(s, items')) == Holding(rs, s, items')
  {
    hide ItemRules;
  }

  /** One edit of an installed table. */
  lemma {:induction false} ItemsComeAndGo(rs: Ruleset, s: Setup, items: seq<Item>, x: Item)
    requires Host(rs) && SetupOk(s) && Lookup(rs, PREROUTING).Some?
    ensures Insert(Holding(rs, s, items), CATTIVO, ItemEntry(s, x), 2) == Ok(Holding(rs, s, [x] + items))
    ensures DeleteSame(Holding(rs, s, items), CATTIVO, ItemEntry(s, x), DELETE_MASK)
         == if x in items then Ok(Holding(rs, s, Without(items, x))) else Err(ENOENT)
  {
    HoldingStands(rs, s, items);
    var k := Place(rs, CATTIVO);
    assert k < |Holding(rs, s, items)| by { hide NamesDiffer, ExtensionsClear, ItemRules, Holding, Lookup; }
    hide Insert, DeleteSame, Holding, ItemRules, ItemEntry, Host, SetupOk, HoldsAt, Place, Lookup;
    PutsItem(Holding(rs, s, items), s, k, items, x);
    HoldingOthers(rs, s, items, [x] + items);
    DropsItem(Holding(rs, s, items), s, k, items, x);
    HoldingOthers(rs, s, items, Without(items, x));
  }

  // -------------------------------------------------------------------------------- calls, on items

  /** The items edited so far, those in force, and the number of table operations made. */
  datatype Desk = Desk(edited: seq<Item>, inForce: seq<Item>, ops: nat)

  /** The table is the host's with the firewall installed and these items in its chain. */
  ghost predicate Stands(env: Env, t: Table, d: Desk) {
    && EnvOk(env) && t.edited == Holding(env.host, env.setup, d.edited)
    && t.inForce == Holding(env.host, env.setup, d.inForce) && t.ops == d.ops
  }

  function Put(env: Env, d: Desk, x: Item): (Desk, bool) {
    if env.fault(d.ops) then (d.(ops := d.ops + 1), false) else (d.(edited := [x] + d.edited, ops := d.ops + 1), true)
  }

  function Dropped(env: Env, d: Desk, x: Item): (Desk, bool) {
    if env.fault(d.ops) || x !in d.edited then (d.(ops := d.ops + 1), false)
    else (d.(edited := Without(d.edited, x), ops := d.ops + 1), true)
  }

  function Published(env: Env, d: Desk): (Desk, bool) {
    if env.fault(d.ops) then (d.(ops := d.ops + 1), false) else (d.(inForce := d.edited, ops := d.ops + 1), true)
  }

  /** A client is let in: accept rule, log rule in front of it, commit. */
  function LetIn(env: Env, d: Desk, a: Address): (Desk, bool) {
    var (d1, ok1) := Put(env, d, Accept(a));
    if !ok1 then (d1, false)
    else
      var (d2, ok2) := Put(env, d1, Log(a));
      if !ok2 then (d2, false) else Published(env, d2)
  }

  /** A client is shut out: log rule, accept rule, commit. */
  function ShutOut(env: Env, d: Desk, a: Address): (Desk, bool) {
    var (d1, ok1) := Dropped(env, d, Log(a));
    if !ok1 then (d1, false)
    else
      var (d2, ok2) := Dropped(env, d1, Accept(a));
      if !ok2 then (d2, false) else Published(env, d2)
  }

  lemma {:induction false} StandsIs(env: Env, t: Table, d: Desk)
    ensures Stands(env, t, d) ==>
      EnvOk(env) && Host(env.host) && SetupOk(env.setup) && Lookup(env.host, PREROUTING).Some?
    ensures EnvOk(env) ==>
      (Stands(env, t, d) <==> t.edited == Holding(env.host, env.setup, d.edited)
                              && t.inForce == Holding(env.host, env.setup, d.inForce) && t.ops == d.ops)
  {
    hide Host, SetupOk, Holding;
  }

  lemma {:induction false} PutWhen(env: Env, d: Desk, x: Item)
    ensures Put(env, d, x) == if env.fault(d.ops) then (d.(ops := d.ops + 1), false)
                              else (d.(edited := [x] + d.edited, ops := d.ops + 1), true)
    ensures Dropped(env, d, x) == if env.fault(d.ops) || x !in d.edited then (d.(ops := d.ops + 1), false)
                                  else (d.(edited := Without(d.edited, x), ops := d.ops + 1), true)
  {
    hide Without;
  }

  lemma {:induction false} PublishedWhen(env: Env, d: Desk)
    ensures Published(env, d) == if env.fault(d.ops) then (d.(ops := d.ops + 1), false)
                                 else (d.(inForce := d.edited, ops := d.ops + 1), true)
  {
  }

  lemma {:induction false} InsertStands(env: Env, t: Table, d: Desk, x: Item)
    requires Stands(env, t, d)
    ensures var (t1, ok) := Edited(env, t, Insert(t.edited, CATTIVO, ItemEntry(env.setup, x), 2));
      Stands(env, t1, Put(env, d, x).0) && ok == Put(env, d, x).1
  {
    StandsIs(env, t, d);
    hide *;
    ItemsComeAndGo(env.host, env.setup, d.edited, x);
    EditedWhen(env, t, Insert(t.edited, CATTIVO, ItemEntry(env.setup, x), 2));
    PutWhen(env, d, x);
    StandsIs(env, Edited(env, t, Insert(t.edited, CATTIVO, ItemEntry(env.setup, x), 2)).0, Put(env, d, x).0);
  }

  lemma {:induction false} DeleteStands(env: Env, t: Table, d: Desk, x: Item)
    requires Stands(env, t, d)
    ensures var (t1, ok) := Edited(env, t, DeleteSame(t.edited, CATTIVO, ItemEntry(env.setup, x), DELETE_MASK));
      Stands(env, t1, Dropped(env, d, x).0) && ok == Dropped(env, d, x).1
  {
    StandsIs(env, t, d);
    hide *;
    ItemsComeAndGo(env.host, env.setup, d.edited, x);
    var r := DeleteSame(t.edited, CATTIVO, ItemEntry(env.setup, x), DELETE_MASK);
    EditedWhen(env, t, r);
    PutWhen(env, d, x);
    StandsIs(env, Edited(env, t, r).0, Dropped(env, d, x).0);
  }

  lemma {:induction false} CommitStands(env: Env, t: Table, d: Desk)
    requires Stands(env, t, d)
    ensures var (t1, ok) := Committed(env, t); Stands(env, t1, Published(env, d).0) && ok == Published(env, d).1
  {
    StandsIs(env, t, d);
    hide *;
    CommittedWhen(env, t);
    PublishedWhen(env, d);
    StandsIs(env, Committed(env, t).0, Published(env, d).0);
  }

  /** Whatever fails from outside, a call that lets a client in or shuts one out does to the table what it does to
      the items: the table, edited and in force, always is the host's with the firewall installed around them. */
  lemma {:induction false} CallsActOnItems(env: Env, t: Table, d: Desk, a: Address)
    requires Stands(env, t, d)
    ensures var (t1, ok) := ClientAdded(env, t, a); Stands(env, t1, LetIn(env, d, a).0) && ok == LetIn(env, d, a).1
    ensures var (t1, ok) := ClientRemoved(env, t, a);
      Stands(env, t1, ShutOut(env, d, a).0) && ok == ShutOut(env, d, a).1
  {
    AddingActs(env, t, d, a);
    RemovingActs(env, t, d, a);
    hide *;
  }

  lemma {:induction false} AddingActs(env: Env, t: Table, d: Desk, a: Address)
    requires Stands(env, t, d)
    ensures var (t1, ok) := ClientAdded(env, t, a); Stands(env, t1, LetIn(env, d, a).0) && ok == LetIn(env, d, a).1
  {
    hide Stands, Edited, Committed, Insert, Put, Published, ClientAcceptEntry, ClientLogEntry;
    InsertStands(env, t, d, Accept(a));
    var (t1, ok1) := Edited(env, t, Insert(t.edited, CATTIVO, ClientAcceptEntry(env.setup, a), 2));
    var d1 := Put(env, d, Accept(a)).0;
    if ok1 {
      InsertStands(env, t1, d1, Log(a));
      CommitStands(env, Edited(env, t1, Insert(t1.edited, CATTIVO, ClientLogEntry(env.setup, a), 2)).0,
                   Put(env, d1, Log(a)).0);
    }
  }

  lemma {:induction false} RemovingActs(env: Env, t: Table, d: Desk, a: Address)
    requires Stands(env, t, d)
    ensures var (t1, ok) := ClientRemoved(env, t, a);
      Stands(env, t1, ShutOut(env, d, a).0) && ok == ShutOut(env, d, a).1
  {
    hide Stands, Edited, Committed, DeleteSame, Dropped, Published, ClientAcceptEntry, ClientLogEntry;
    DeleteStands(env, t, d, Log(a));
    var (t1, ok1) := Edited(env, t, DeleteSame(t.edited, CATTIVO, ClientLogEntry(env.setup, a), DELETE_MASK));
    var d1 := Dropped(env, d, Log(a)).0;
    if ok1 {
      DeleteStands(env, t1, d1, Accept(a));
      CommitStands(env, Edited(env, t1, DeleteSame(t1.edited, CATTIVO, ClientAcceptEntry(env.setup, a), DELETE_MASK)).0,
                   Dropped(env, d1, Accept(a)).0);
    }
  }
}
