/** What the firewall keeps in the mangle table: one chain of its own, entered by a jump from PREROUTING. */
module Mangle {
  import opened Names
  import opened Seqs
  import opened Rulesets
  import opened Editing

  type Address = bv32

  const CATTIVO: Name := "cattivo"
  const PREROUTING: Name := "PREROUTING"
  const TCP: nat := 6
  const EVERY_BIT: bv32 := 0xFFFF_FFFF

  const LO: Interface := [0x6C, 0x6F, 0, 0, 0, 0, 0, 0, 0, 0, 0, 0, 0, 0, 0, 0]
  const LO_MASK: Interface := [0xFF, 0xFF, 0xFF, 0, 0, 0, 0, 0, 0, 0, 0, 0, 0, 0, 0, 0]

  /** The configuration: the authenticator's address, the interfaces of the jump, and the data areas of the
      extensions as their option parsers leave them. */
  datatype Setup = Setup(authenticator: Address, inIface: Interface, inMask: Interface,
                         outIface: Interface, outMask: Interface,
                         anyTcp: Bytes, tcpPort80: Bytes, nflog: Bytes, tproxy: Bytes)

  /** Both tcp matches hold the same structure, and everything fits under the comparison mask. */
  predicate SetupOk(s: Setup) {
    |s.anyTcp| == |s.tcpPort80| <= 256 && s.anyTcp != s.tcpPort80 && |s.nflog| <= 256 && |s.tproxy| <= 256
  }

  // ---------------------------------------------------------------------------------------- entries

  /** The header of an entry; the binding writes the protocol in every entry. */
  function Header(src: Address, srcMask: bv32, dst: Address, dstMask: bv32): Ip {
    Ip(src, srcMask, dst, dstMask, NO_INTERFACE, NO_INTERFACE, NO_INTERFACE, NO_INTERFACE, TCP, 0, 0)
  }

  function Accept(): Target { Target("ACCEPT", Zeros(8), 0, "") }

  function AuthenticatorEntry(s: Setup): Entry {
    Entry(Header(0, 0, s.authenticator, EVERY_BIT), [Match("tcp", s.anyTcp)], Accept(), ZERO_COUNTERS)
  }

  function LocalTrafficEntry(): Entry {
    Entry(Header(0, 0, 0, 0).(inIface := LO, inMask := LO_MASK), [], Accept(), ZERO_COUNTERS)
  }

  function TproxyEntry(s: Setup): Entry {
    Entry(Header(0, 0, 0, 0), [Match("tcp", s.tcpPort80)], Target("TPROXY", s.tproxy, 0, ""), ZERO_COUNTERS)
  }

  function JumpEntry(s: Setup): Entry {
    Entry(Header(0, 0, 0, 0).(inIface := s.inIface, inMask := s.inMask, outIface := s.outIface, outMask := s.outMask),
          [], Target(CATTIVO, Zeros(8), 0, ""), ZERO_COUNTERS)
  }

  function ClientAcceptEntry(s: Setup, a: Address): Entry {
    Entry(Header(a, EVERY_BIT, 0, 0), [Match("tcp", s.anyTcp)], Accept(), ZERO_COUNTERS)
  }

  function ClientLogEntry(s: Setup, a: Address): Entry {
    Entry(Header(a, EVERY_BIT, 0, 0), [Match("tcp", s.tcpPort80)], Target("NFLOG", s.nflog, 0, ""), ZERO_COUNTERS)
  }

  // ------------------------------------------------------------------------------------------ rules

  function AcceptRule(ip: Ip, ms: seq<Match>): Rule { Rule(ip, ms, STANDARD_SIZE, Verdict(ACCEPT)) }

  function AuthenticatorRule(s: Setup): Rule { AcceptRule(AuthenticatorEntry(s).ip, AuthenticatorEntry(s).matches) }

  function LocalTrafficRule(): Rule { AcceptRule(LocalTrafficEntry().ip, []) }

  function TproxyRule(s: Setup): Rule {
    Rule(TproxyEntry(s).ip, TproxyEntry(s).matches, HEADER_SIZE + |s.tproxy|, Extension("TPROXY", s.tproxy))
  }

  function JumpRule(s: Setup): Rule { Rule(JumpEntry(s).ip, [], STANDARD_SIZE, Call(CATTIVO)) }

  function ClientAcceptRule(s: Setup, a: Address): Rule {
    AcceptRule(ClientAcceptEntry(s, a).ip, ClientAcceptEntry(s, a).matches)
  }

  function ClientLogRule(s: Setup, a: Address): Rule {
    Rule(ClientLogEntry(s, a).ip, ClientLogEntry(s, a).matches, HEADER_SIZE + |s.nflog|, Extension("NFLOG", s.nflog))
  }

  /** A log rule and an accept rule for each source. */
  function Pairs(s: Setup, sources: seq<Address>): (rules: seq<Rule>)
    ensures |rules| == 2 * |sources|
  {
    if sources == [] then []
    else [ClientLogRule(s, sources[0]), ClientAcceptRule(s, sources[0])] + Pairs(s, sources[1..])
  }

  lemma {:induction false} PairsAt(s: Setup, sources: seq<Address>, i: nat)
    requires i < |sources|
    ensures Pairs(s, sources)[2 * i] == ClientLogRule(s, sources[i])
    ensures Pairs(s, sources)[2 * i + 1] == ClientAcceptRule(s, sources[i])
  {
    if i > 0 {
      PairsAt(s, sources[1..], i - 1);
    }
  }

  /** The rules of the firewall's chain while the sources are let through. */
  function ChainRules(s: Setup, sources: seq<Address>): (rules: seq<Rule>)
    ensures |rules| == 2 * |sources| + 3
  {
    [AuthenticatorRule(s), LocalTrafficRule()] + Pairs(s, sources) + [TproxyRule(s)]
  }

  /** The first place of a source among the rules. */
  function FirstRule(rules: seq<Address>, a: Address): (r: Option<nat>)
    ensures r.Some? ==> r.value < |rules| && rules[r.value] == a
    ensures r.Some? ==> forall i :: 0 <= i < r.value ==> rules[i] != a
    ensures r.None? ==> a !in rules
  {
    if rules == [] then None
    else if rules[0] == a then Some(0)
    else match FirstRule(rules[1..], a)
      case None => None
      case Some(i) => Some(i + 1)
  }

  // ------------------------------------------------------------------------------------- operations

  /** The names of the extensions are not names of chains. */
  predicate ExtensionsClear(rs: Ruleset) {
    Lookup(rs, "TPROXY").None? && Lookup(rs, "NFLOG").None?
  }

  function AddClientTo(rs: Ruleset, s: Setup, a: Address): Result<Ruleset> {
    match Insert(rs, CATTIVO, ClientAcceptEntry(s, a), 2)
    case Err(errno) => Err(errno)
    case Ok(rs1) => Insert(rs1, CATTIVO, ClientLogEntry(s, a), 2)
  }

  function RemoveClientFrom(rs: Ruleset, s: Setup, a: Address): Result<Ruleset> {
    match DeleteSame(rs, CATTIVO, ClientLogEntry(s, a), DELETE_MASK)
    case Err(errno) => Err(errno)
    case Ok(rs1) => DeleteSame(rs1, CATTIVO, ClientAcceptEntry(s, a), DELETE_MASK)
  }

  /** An edit whose failure is ignored. */
  function Try(rs: Ruleset, r: Result<Ruleset>): Ruleset {
    match r
    case Ok(rs') => rs'
    case Err(_) => rs
  }

  /** Drops the jump, empties the chain, deletes it.  Without the chain the jump's target cannot be made. */
  function Cleaned(rs: Ruleset, s: Setup): Ruleset {
    var rs1 := if Lookup(rs, CATTIVO).None? then rs
               else Try(rs, DeleteSame(rs, PREROUTING, JumpEntry(s), DELETE_MASK));
    var rs2 := Try(rs1, Flush(rs1, CATTIVO));
    Try(rs2, Delete(rs2, CATTIVO))
  }

  /** The chain with its fixed rules. */
  function ChainMade(rs: Ruleset, s: Setup): Result<Ruleset> {
    match Create(rs, CATTIVO)
    case Err(errno) => Err(errno)
    case Ok(rs1) =>
      match Append(rs1, CATTIVO, AuthenticatorEntry(s))
      case Err(errno) => Err(errno)
      case Ok(rs2) =>
        match Append(rs2, CATTIVO, LocalTrafficEntry())
        case Err(errno) => Err(errno)
        case Ok(rs3) => Append(rs3, CATTIVO, TproxyEntry(s))
  }

  function Initialized(rs: Ruleset, s: Setup): Result<Ruleset> {
    match ChainMade(Cleaned(rs, s), s)
    case Err(errno) => Err(errno)
    case Ok(rs1) => Append(rs1, PREROUTING, JumpEntry(s))
  }

  // -------------------------------------------------------------------------- what they amount to

  /** A table in which the firewall can be installed. */
  ghost predicate Host(rs: Ruleset) {
    && WellFormed(rs) && ExtensionsClear(rs) && Lookup(rs, CATTIVO).None?
    && exists k :: 0 <= k < |rs| && rs[k].name == PREROUTING && rs[k].hook > 0
  }

  function OwnChain(s: Setup, sources: seq<Address>): Chain { Chain(CATTIVO, 0, RETURN, ChainRules(s, sources)) }

  /** Table `rs` with the firewall installed, letting the sources through. */
  function Installed(rs: Ruleset, s: Setup, sources: seq<Address>): Ruleset
    requires Lookup(rs, PREROUTING).Some?
  {
    var k := Lookup(rs, PREROUTING).value;
    var rs1 := WithRules(rs, k, rs[k].rules + [JumpRule(s)]);
    InsertAt(rs1, Place(rs, CATTIVO), OwnChain(s, sources))
  }

  /** PREROUTING stands before the place of the new chain. */
  lemma {:induction false} HostPlaces(rs: Ruleset)
    requires Host(rs)
    ensures Lookup(rs, PREROUTING).Some? && rs[Lookup(rs, PREROUTING).value].hook > 0
    ensures Lookup(rs, PREROUTING).value < Place(rs, CATTIVO)
  {
    var k :| 0 <= k < |rs| && rs[k].name == PREROUTING && rs[k].hook > 0;
    LookupAt(rs, k);
  }

  lemma {:induction false} InsertedAt(rs: Ruleset, p: nat, c: Chain, j: nat)
    requires p <= |rs| && j <= |rs|
    ensures |InsertAt(rs, p, c)| == |rs| + 1
    ensures InsertAt(rs, p, c)[j] == if j < p then rs[j] else if j == p then c else rs[j - 1]
  {
  }

  lemma {:induction false} StillMissing(rs: Ruleset, p: nat, c: Chain, name: Name)
    requires p <= |rs| && Lookup(rs, name).None? && name != c.name
    ensures Lookup(InsertAt(rs, p, c), name).None?
  {
    hide Lookup;
    forall j | 0 <= j < |InsertAt(rs, p, c)| ensures InsertAt(rs, p, c)[j].name != name { InsertedAt(rs, p, c, j); }
  }

  /** Looking up names after a chain has been put in. */
  lemma {:induction false} LookupInserted(rs: Ruleset, p: nat, c: Chain, name: Name)
    requires NamesDiffer(rs) && p <= |rs| && c.name != "" && Lookup(rs, c.name).None?
    ensures NamesDiffer(InsertAt(rs, p, c))
    ensures Lookup(InsertAt(rs, p, c), name) ==
      if name == c.name then Some(p)
      else match Lookup(rs, name)
        case None => None
        case Some(k) => Some(if k < p then k else k + 1)
  {
    var rs' := InsertAt(rs, p, c);
    CreateKeepsNamesDiffer(rs, p, c);
    hide *;
    InsertedAt(rs, p, c, p);
    LookupAt(rs', p);
    match Lookup(rs, name)
    case None => if name != c.name { StillMissing(rs, p, c, name); }
    case Some(k) =>
      var j := if k < p then k else k + 1;
      InsertedAt(rs, p, c, j);
      LookupAt(rs', j);
  }

  /** Where everything is in an installed table. */
  lemma {:induction false} InstalledPlaces(rs: Ruleset, s: Setup, sources: seq<Address>)
    requires Host(rs)
    ensures Lookup(rs, PREROUTING).Some?
    ensures var rs' := Installed(rs, s, sources);
      && NamesDiffer(rs') && ExtensionsClear(rs')
      && Lookup(rs', CATTIVO) == Some(Place(rs, CATTIVO)) && rs'[Place(rs, CATTIVO)] == OwnChain(s, sources)
      && Lookup(rs', PREROUTING) == Lookup(rs, PREROUTING)
      && rs'[Lookup(rs, PREROUTING).value]
         == rs[Lookup(rs, PREROUTING).value].(rules := rs[Lookup(rs, PREROUTING).value].rules + [JumpRule(s)])
  {
    HostPlaces(rs);
    var k := Lookup(rs, PREROUTING).value;
    var rs1 := WithRules(rs, k, rs[k].rules + [JumpRule(s)]);
    assert SameChains(rs, rs1);
    forall name ensures Lookup(rs1, name) == Lookup(rs, name) && NamesDiffer(rs1) {
      LookupSame(rs, rs1, name);
    }
    forall name ensures NamesDiffer(Installed(rs, s, sources)) && Lookup(Installed(rs, s, sources), name) ==
      if name == CATTIVO then Some(Place(rs, CATTIVO))
      else match Lookup(rs1, name)
        case None => None
        case Some(j) => Some(if j < Place(rs, CATTIVO) then j else j + 1)
    {
      LookupInserted(rs1, Place(rs, CATTIVO), OwnChain(s, sources), name);
    }
  }

  // ------------------------------------------------------------------------------- clients in and out

  /** What the entries stand for. */
  lemma {:induction false} EntriesMean(rs: Ruleset, s: Setup, a: Address)
    requires ExtensionsClear(rs)
    ensures RuleFor(rs, AuthenticatorEntry(s)) == Ok(AuthenticatorRule(s))
    ensures RuleFor(rs, LocalTrafficEntry()) == Ok(LocalTrafficRule())
    ensures RuleFor(rs, TproxyEntry(s)) == Ok(TproxyRule(s))
    ensures RuleFor(rs, ClientAcceptEntry(s, a)) == Ok(ClientAcceptRule(s, a))
    ensures RuleFor(rs, ClientLogEntry(s, a)) == Ok(ClientLogRule(s, a))
  {
    hide Lookup;
  }

  lemma {:induction false} JumpMeans(rs: Ruleset, s: Setup, k: nat)
    requires Lookup(rs, CATTIVO) == Some(k) && k < |rs| && rs[k].hook == 0
    ensures RuleFor(rs, JumpEntry(s)) == Ok(JumpRule(s))
  {
    hide Lookup;
  }

  /** The firewall's chain stands at `k` of a table and lets the sources through. */
  ghost predicate LetsThrough(rs: Ruleset, s: Setup, k: nat, sources: seq<Address>) {
    && NamesDiffer(rs) && ExtensionsClear(rs) && Lookup(rs, CATTIVO) == Some(k) && k < |rs|
    && rs[k].hook == 0 && rs[k].rules == ChainRules(s, sources)
  }

  lemma {:induction false} LookupKept(rs: Ruleset, k: nat, rules: seq<Rule>)
    requires NamesDiffer(rs) && k < |rs| && ExtensionsClear(rs)
    ensures NamesDiffer(WithRules(rs, k, rules)) && ExtensionsClear(WithRules(rs, k, rules))
    ensures forall name :: Lookup(WithRules(rs, k, rules), name) == Lookup(rs, name)
  {
    var rs' := WithRules(rs, k, rules);
    forall name ensures Lookup(rs', name) == Lookup(rs, name) && NamesDiffer(rs') {
      LookupSame(rs, rs', name);
    }
  }

  /** A new source goes to the front. */
  lemma {:induction false} AddingClient(rs: Ruleset, s: Setup, k: nat, sources: seq<Address>, a: Address)
    requires LetsThrough(rs, s, k, sources)
    ensures AddClientTo(rs, s, a) == Ok(WithRules(rs, k, ChainRules(s, [a] + sources)))
  {
    var rules := rs[k].rules;
    var rules1 := InsertAt(rules, 2, ClientAcceptRule(s, a));
    var rules2 := InsertAt(rules1, 2, ClientLogRule(s, a));
    EntriesMean(rs, s, a);
    LookupKept(rs, k, rules1);
    EntriesMean(WithRules(rs, k, rules1), s, a);
    hide Lookup, RuleFor;
    assert ([a] + sources)[1..] == sources;
    assert rules2 == ChainRules(s, [a] + sources);
    assert WithRules(WithRules(rs, k, rules1), k, rules2) == WithRules(rs, k, rules2);
  }

  lemma {:induction false} PairsConcat(s: Setup, a: seq<Address>, b: seq<Address>)
    ensures Pairs(s, a + b) == Pairs(s, a) + Pairs(s, b)
  {
    hide ClientLogRule, ClientAcceptRule;
    if a == [] {
      assert a + b == b;
    } else {
      PairsConcat(s, a[1..], b);
      var first := [ClientLogRule(s, a[0]), ClientAcceptRule(s, a[0])];
      assert (a + b)[1..] == a[1..] + b && (a + b)[0] == a[0];
      assert first + (Pairs(s, a[1..]) + Pairs(s, b)) == (first + Pairs(s, a[1..])) + Pairs(s, b);
    }
  }

  lemma {:induction false} PairsSplit(s: Setup, sources: seq<Address>, i: nat)
    requires i < |sources|
    ensures Pairs(s, sources)
         == Pairs(s, sources[..i]) + ([ClientLogRule(s, sources[i]), ClientAcceptRule(s, sources[i])]
                                      + Pairs(s, sources[i + 1..]))
    ensures Pairs(s, RemoveAt(sources, i)) == Pairs(s, sources[..i]) + Pairs(s, sources[i + 1..])
  {
    hide ClientLogRule, ClientAcceptRule;
    var front, back := sources[..i], sources[i + 1..];
    assert sources == front + ([sources[i]] + back);
    PairsConcat(s, front, [sources[i]] + back);
    PairsConcat(s, front, back);
    assert ([sources[i]] + back)[1..] == back;
  }

  /** The rules of the chain around source `i`. */
  lemma {:induction false} RulesAround(s: Setup, sources: seq<Address>, i: nat)
    requires i < |sources|
    ensures var rules := ChainRules(s, sources);
      && rules[2 + 2 * i] == ClientLogRule(s, sources[i]) && rules[2 + 2 * i + 1] == ClientAcceptRule(s, sources[i])
      && RemoveAt(RemoveAt(rules, 2 + 2 * i), 2 + 2 * i) == ChainRules(s, RemoveAt(sources, i))
  {
    var front, back := sources[..i], sources[i + 1..];
    PairsSplit(s, sources, i);
    hide Pairs, ClientLogRule, ClientAcceptRule, AuthenticatorRule, LocalTrafficRule, TproxyRule;
    var log, accept := ClientLogRule(s, sources[i]), ClientAcceptRule(s, sources[i]);
    TwoRemoved([AuthenticatorRule(s), LocalTrafficRule()], Pairs(s, front), log, accept, Pairs(s, back),
               [TproxyRule(s)]);
  }

  lemma {:induction false} OneRemoved<T>(a: seq<T>, x: T, b: seq<T>)
    ensures (a + [x] + b)[|a|] == x && RemoveAt(a + [x] + b, |a|) == a + b
  {
  }

  lemma {:induction false} TwoRemoved<T>(a: seq<T>, front: seq<T>, x: T, y: T, back: seq<T>, z: seq<T>)
    ensures var n := |a| + |front|; var all := a + (front + ([x, y] + back)) + z;
      all[n] == x && all[n + 1] == y && RemoveAt(RemoveAt(all, n), n) == a + (front + back) + z
  {
    var f, b := a + front, back + z;
    var all := a + (front + ([x, y] + back)) + z;
    assert all == f + [x] + ([y] + b);
    assert f + ([y] + b) == f + [y] + b && f + b == a + (front + back) + z;
    hide RemoveAt;
    OneRemoved(f, x, [y] + b);
    OneRemoved(f, y, b);
  }

  /** Rules of different sources, or of different kinds, do not compare equal. */
  lemma {:induction false} ClientRulesDiffer(s: Setup, a: Address, b: Address)
    ensures !Same(ClientLogRule(s, a), AuthenticatorRule(s), DELETE_MASK)
    ensures !Same(ClientLogRule(s, a), LocalTrafficRule(), DELETE_MASK)
    ensures !Same(ClientLogRule(s, a), TproxyRule(s), DELETE_MASK)
    ensures !Same(ClientLogRule(s, a), ClientAcceptRule(s, b), DELETE_MASK)
    ensures a != b ==> !Same(ClientLogRule(s, a), ClientLogRule(s, b), DELETE_MASK)
    ensures !Same(ClientAcceptRule(s, a), AuthenticatorRule(s), DELETE_MASK)
    ensures !Same(ClientAcceptRule(s, a), LocalTrafficRule(), DELETE_MASK)
    ensures !Same(ClientAcceptRule(s, a), ClientLogRule(s, b), DELETE_MASK)
    ensures a != b ==> !Same(ClientAcceptRule(s, a), ClientAcceptRule(s, b), DELETE_MASK)
  {
  }

  lemma {:induction false} OneMatchSize(m: Match)
    ensures MatchesSize([m]) == MatchSize(m) && MatchesSize([]) == 0
  {
    var f := (m: Match) => MatchSize(m);
    assert Total([m], f) == Total([m][..0], f) + f([m][0]);
  }

  lemma {:induction false} ClientRulesSame(s: Setup, a: Address)
    requires SetupOk(s)
    ensures Same(ClientLogRule(s, a), ClientLogRule(s, a), DELETE_MASK)
    ensures Same(ClientAcceptRule(s, a), ClientAcceptRule(s, a), DELETE_MASK)
  {
    OneMatchSize(Match("tcp", s.anyTcp));
    OneMatchSize(Match("tcp", s.tcpPort80));
    SameReflexive(ClientLogRule(s, a), DELETE_MASK);
    SameReflexive(ClientAcceptRule(s, a), DELETE_MASK);
  }

  /** Where the search for a client's log rule ends. */
  lemma {:induction false} LogRuleFound(s: Setup, sources: seq<Address>, a: Address)
    requires SetupOk(s)
    ensures FirstSame(ChainRules(s, sources), ClientLogRule(s, a), DELETE_MASK, 0)
         == match FirstRule(sources, a) case None => None case Some(i) => Some(2 + 2 * i)
  {
    hide Same, ClientLogRule, ClientAcceptRule, AuthenticatorRule, LocalTrafficRule, TproxyRule;
    var rules := ChainRules(s, sources);
    var n := match FirstRule(sources, a) case None => |rules| case Some(i) => 2 + 2 * i;
    ClientRulesSame(s, a);
    forall j | 0 <= j < n ensures !Same(ClientLogRule(s, a), rules[j], DELETE_MASK) {
      ClientRulesDiffer(s, a, if 2 <= j < |rules| - 1 then sources[(j - 2) / 2] else a);
      RuleAt(s, sources, j);
    }
    if FirstRule(sources, a).Some? {
      RuleAt(s, sources, n);
    }
  }

  lemma {:induction false} RuleAt(s: Setup, sources: seq<Address>, j: nat)
    requires j < |ChainRules(s, sources)|
    ensures ChainRules(s, sources)[j] ==
      if j == 0 then AuthenticatorRule(s)
      else if j == 1 then LocalTrafficRule()
      else if j == 2 * |sources| + 2 then TproxyRule(s)
      else if j % 2 == 0 then ClientLogRule(s, sources[(j - 2) / 2])
      else ClientAcceptRule(s, sources[(j - 2) / 2])
  {
    if 2 <= j < 2 * |sources| + 2 {
      var i := (j - 2) / 2;
      PairsAt(s, sources, i);
      assert Pairs(s, sources)[j - 2] == if j % 2 == 0 then Pairs(s, sources)[2 * i] else Pairs(s, sources)[2 * i + 1];
    }
  }

  /** Once the log rule is gone, the search for the client's accept rule ends in its place. */
  lemma {:induction false} AcceptRuleFound(s: Setup, sources: seq<Address>, a: Address, i: nat)
    requires SetupOk(s) && FirstRule(sources, a) == Some(i)
    ensures 2 + 2 * i < |ChainRules(s, sources)|
    ensures FirstSame(RemoveAt(ChainRules(s, sources), 2 + 2 * i), ClientAcceptRule(s, a), DELETE_MASK, 0)
         == Some(2 + 2 * i)
  {
    hide Same, ClientLogRule, ClientAcceptRule, AuthenticatorRule, LocalTrafficRule, TproxyRule;
    var rules := ChainRules(s, sources);
    var rules' := RemoveAt(rules, 2 + 2 * i);
    ClientRulesSame(s, a);
    RulesAround(s, sources, i);
    assert rules'[2 + 2 * i] == ClientAcceptRule(s, a);
    forall j | 0 <= j < 2 + 2 * i ensures !Same(ClientAcceptRule(s, a), rules'[j], DELETE_MASK) {
      assert rules'[j] == rules[j];
      ClientRulesDiffer(s, a, if 2 <= j then sources[(j - 2) / 2] else a);
      RuleAt(s, sources, j);
    }
  }

  /** Removing a client takes away the first pair of rules for its address, and fails if there is none. */
  lemma {:induction false} RemovingClient(rs: Ruleset, s: Setup, k: nat, sources: seq<Address>, a: Address)
    requires SetupOk(s) && LetsThrough(rs, s, k, sources)
    ensures RemoveClientFrom(rs, s, a) == match FirstRule(sources, a)
      case None => Err(ENOENT)
      case Some(i) => Ok(WithRules(rs, k, ChainRules(s, RemoveAt(sources, i))))
  {
    EntriesMean(rs, s, a);
    LogRuleFound(s, sources, a);
    var rules := ChainRules(s, sources);
    hide *;
    LetsThroughAt(rs, s, k, sources);
    match FirstRule(sources, a)
    case None =>
      DeleteIs(rs, k, ClientLogEntry(s, a), ClientLogRule(s, a));
      GivesUp(rs, s, a);
    case Some(i) =>
      AcceptRuleFound(s, sources, a, i);
      RulesAround(s, sources, i);
      DeleteIs(rs, k, ClientLogEntry(s, a), ClientLogRule(s, a));
      RemovesAccept(rs, s, k, sources, a, i, RemoveAt(rules, 2 + 2 * i));
  }

  lemma {:induction false} LetsThroughAt(rs: Ruleset, s: Setup, k: nat, sources: seq<Address>)
    requires LetsThrough(rs, s, k, sources)
    ensures Lookup(rs, CATTIVO) == Some(k) && k < |rs| && rs[k].rules == ChainRules(s, sources)
  {
  }

  lemma {:induction false} DeleteIs(rs: Ruleset, k: nat, e: Entry, r: Rule)
    requires Lookup(rs, CATTIVO) == Some(k) && k < |rs| && RuleFor(rs, e) == Ok(r)
    ensures DeleteSame(rs, CATTIVO, e, DELETE_MASK) == match FirstSame(rs[k].rules, r, DELETE_MASK, 0)
      case None => Err(ENOENT)
      case Some(i) => Ok(WithRules(rs, k, RemoveAt(rs[k].rules, i)))
  {
  }

  lemma {:induction false} GivesUp(rs: Ruleset, s: Setup, a: Address)
    requires DeleteSame(rs, CATTIVO, ClientLogEntry(s, a), DELETE_MASK) == Err(ENOENT)
    ensures RemoveClientFrom(rs, s, a) == Err(ENOENT)
  {
  }

  /** The second half of a removal: the accept rule goes from what the first half leaves. */
  lemma {:induction false} RemovesAccept(rs: Ruleset, s: Setup, k: nat, sources: seq<Address>, a: Address, i: nat,
                                         rules: seq<Rule>)
    requires LetsThrough(rs, s, k, sources)
    requires DeleteSame(rs, CATTIVO, ClientLogEntry(s, a), DELETE_MASK) == Ok(WithRules(rs, k, rules))
    requires FirstSame(rules, ClientAcceptRule(s, a), DELETE_MASK, 0) == Some(2 + 2 * i)
    ensures RemoveClientFrom(rs, s, a) == Ok(WithRules(rs, k, RemoveAt(rules, 2 + 2 * i)))
  {
    hide LetsThrough, FirstSame, RuleFor, Lookup, DeleteSame;
    LetsThroughAt(rs, s, k, sources);
    var rs1 := WithRules(rs, k, rules);
    Kept(rs, s, k, sources, rules);
    EntriesMean(rs1, s, a);
    DeleteIs(rs1, k, ClientAcceptEntry(s, a), ClientAcceptRule(s, a));
    WithRulesTwice(rs, k, rules, RemoveAt(rules, 2 + 2 * i));
  }

  lemma {:induction false} WithRulesTwice(rs: Ruleset, k: nat, rules: seq<Rule>, rules': seq<Rule>)
    requires k < |rs|
    ensures WithRules(WithRules(rs, k, rules), k, rules') == WithRules(rs, k, rules')
  {
  }

  lemma {:induction false} Kept(rs: Ruleset, s: Setup, k: nat, sources: seq<Address>, rules: seq<Rule>)
    requires LetsThrough(rs, s, k, sources)
    ensures ExtensionsClear(WithRules(rs, k, rules)) && Lookup(WithRules(rs, k, rules), CATTIVO) == Some(k)
  {
    LookupKept(rs, k, rules);
  }

  // ------------------------------------------------------------------------- installing and cleaning

  /** The installed table lets its sources through, at the place of the new chain. */
  lemma {:induction false} InstalledLets(rs: Ruleset, s: Setup, sources: seq<Address>)
    requires Host(rs)
    ensures Lookup(rs, PREROUTING).Some?
    ensures LetsThrough(Installed(rs, s, sources), s, Place(rs, CATTIVO), sources)
  {
    InstalledPlaces(rs, s, sources);
  }

  /** Other sources: only the firewall's own chain differs. */
  lemma {:induction false} InstalledDiffers(rs: Ruleset, s: Setup, sources: seq<Address>, sources': seq<Address>)
    requires Host(rs) && Lookup(rs, PREROUTING).Some?
    ensures Place(rs, CATTIVO) < |Installed(rs, s, sources)|
    ensures WithRules(Installed(rs, s, sources), Place(rs, CATTIVO), ChainRules(s, sources'))
            == Installed(rs, s, sources')
  {
    hide ChainRules, Host;
  }

  /** Adding and removing clients in an installed table. */
  lemma {:induction false} ClientsComeAndGo(rs: Ruleset, s: Setup, sources: seq<Address>, a: Address)
    requires Host(rs) && SetupOk(s) && Lookup(rs, PREROUTING).Some?
    ensures AddClientTo(Installed(rs, s, sources), s, a) == Ok(Installed(rs, s, [a] + sources))
    ensures RemoveClientFrom(Installed(rs, s, sources), s, a) == match FirstRule(sources, a)
      case None => Err(ENOENT)
      case Some(i) => Ok(Installed(rs, s, RemoveAt(sources, i)))
  {
    hide *;
    var rs', k := Installed(rs, s, sources), Place(rs, CATTIVO);
    InstalledLets(rs, s, sources);
    AddingClient(rs', s, k, sources, a);
    RemovingClient(rs', s, k, sources, a);
    InstalledDiffers(rs, s, sources, [a] + sources);
    if FirstRule(sources, a).Some? {
      InstalledDiffers(rs, s, sources, RemoveAt(sources, FirstRule(sources, a).value));
    }
  }

  /** No rule of a table without the chain calls it. */
  lemma {:induction false} NobodyCalls(rs: Ruleset, k: nat, i: nat)
    requires Host(rs) && k < |rs| && i < |rs[k].rules|
    ensures rs[k].rules[i].action != Call(CATTIVO)
  {
    assert RuleOk(rs, rs[k].rules[i]);
  }

  lemma {:induction false} NoCalls(rs: Ruleset)
    requires Host(rs)
    ensures Calls(rs, CATTIVO) == 0
  {
    forall k | 0 <= k < |rs| ensures CallsIn(CATTIVO)(rs[k]) == 0 {
      forall i | 0 <= i < |rs[k].rules| ensures IsCall(CATTIVO)(rs[k].rules[i]) == 0 {
        NobodyCalls(rs, k, i);
      }
      TotalZero(rs[k].rules, IsCall(CATTIVO));
    }
    TotalZero(rs, CallsIn(CATTIVO));
  }

  /** The jump is found behind all rules that were there before. */
  lemma {:induction false} JumpFound(rs: Ruleset, s: Setup, k: nat)
    requires Host(rs) && k < |rs|
    ensures FirstSame(rs[k].rules + [JumpRule(s)], JumpRule(s), DELETE_MASK, 0) == Some(|rs[k].rules|)
  {
    var rules := rs[k].rules + [JumpRule(s)];
    OneMatchSize(Match("tcp", s.anyTcp));
    SameReflexive(JumpRule(s), DELETE_MASK);
    assert rules[|rs[k].rules|] == JumpRule(s);
    forall j | 0 <= j < |rs[k].rules| ensures !Same(JumpRule(s), rules[j], DELETE_MASK) {
      NobodyCalls(rs, k, j);
    }
  }

  /** The chain of its own in table `rs`, holding `rules`, without the jump. */
  function WithoutJump(rs: Ruleset, rules: seq<Rule>): Ruleset {
    InsertAt(rs, Place(rs, CATTIVO), Chain(CATTIVO, 0, RETURN, rules))
  }

  lemma {:induction false} WithoutJumpPlaces(rs: Ruleset, rules: seq<Rule>)
    requires Host(rs)
    ensures NamesDiffer(WithoutJump(rs, rules)) && ExtensionsClear(WithoutJump(rs, rules))
    ensures Lookup(WithoutJump(rs, rules), CATTIVO) == Some(Place(rs, CATTIVO))
    ensures WithoutJump(rs, rules)[Place(rs, CATTIVO)] == Chain(CATTIVO, 0, RETURN, rules)
    ensures Lookup(rs, PREROUTING).Some? && Lookup(WithoutJump(rs, rules), PREROUTING) == Lookup(rs, PREROUTING)
    ensures WithoutJump(rs, rules)[Lookup(rs, PREROUTING).value] == rs[Lookup(rs, PREROUTING).value]
  {
    HostPlaces(rs);
    hide WellFormed, ExtensionsClear;
    var c := Chain(CATTIVO, 0, RETURN, rules);
    HostNames(rs);
    forall name ensures NamesDiffer(WithoutJump(rs, rules)) && Lookup(WithoutJump(rs, rules), name) ==
      if name == CATTIVO then Some(Place(rs, CATTIVO))
      else match Lookup(rs, name)
        case None => None
        case Some(j) => Some(if j < Place(rs, CATTIVO) then j else j + 1)
    {
      LookupInserted(rs, Place(rs, CATTIVO), c, name);
    }
    ClearInserted(rs, WithoutJump(rs, rules));
  }

  lemma {:induction false} HostNames(rs: Ruleset)
    requires Host(rs)
    ensures NamesDiffer(rs) && ExtensionsClear(rs) && Lookup(rs, CATTIVO).None?
  {
  }

  lemma {:induction false} ClearInserted(rs: Ruleset, rs': Ruleset)
    requires ExtensionsClear(rs)
    requires forall name :: name != CATTIVO && Lookup(rs, name).None? ==> Lookup(rs', name).None?
    ensures ExtensionsClear(rs')
  {
  }

  /** Cleaning an installed table: the jump goes first, then the rules, and then the chain, which nothing
      calls any more, can be deleted.  What is left is the table as it was before. */
  lemma {:induction false} CleaningRestores(rs: Ruleset, s: Setup, sources: seq<Address>)
    requires Host(rs) && Lookup(rs, PREROUTING).Some?
    ensures Cleaned(Installed(rs, s, sources), s) == rs
  {
    hide *;
    DropsJump(rs, s, sources);
    EmptiesAndDeletes(rs, ChainRules(s, sources));
    CleansUp(Installed(rs, s, sources), s, WithoutJump(rs, ChainRules(s, sources)), WithoutJump(rs, []), rs);
  }

  lemma {:induction false} CleansUp(rs: Ruleset, s: Setup, rs1: Ruleset, rs2: Ruleset, rs3: Ruleset)
    requires Lookup(rs, CATTIVO).Some? && DeleteSame(rs, PREROUTING, JumpEntry(s), DELETE_MASK) == Ok(rs1)
    requires Flush(rs1, CATTIVO) == Ok(rs2) && Delete(rs2, CATTIVO) == Ok(rs3)
    ensures Cleaned(rs, s) == rs3
  {
  }

  lemma {:induction false} DropsJump(rs: Ruleset, s: Setup, sources: seq<Address>)
    requires Host(rs) && Lookup(rs, PREROUTING).Some?
    ensures Lookup(Installed(rs, s, sources), CATTIVO).Some?
    ensures DeleteSame(Installed(rs, s, sources), PREROUTING, JumpEntry(s), DELETE_MASK)
         == Ok(WithoutJump(rs, ChainRules(s, sources)))
  {
    hide RuleFor, FirstSame, NamesDiffer, WellFormed, ChainRules, ExtensionsClear;
    var k := Lookup(rs, PREROUTING).value;
    InstalledPlaces(rs, s, sources);
    HostPlaces(rs);
    JumpMeans(Installed(rs, s, sources), s, Place(rs, CATTIVO));
    JumpFound(rs, s, k);
    var rules := rs[k].rules;
    assert RemoveAt(rules + [JumpRule(s)], |rules|) == rules;
    JumpGone(rs, s, sources, k);
  }

  lemma {:induction false} JumpGone(rs: Ruleset, s: Setup, sources: seq<Address>, k: nat)
    requires Lookup(rs, PREROUTING) == Some(k) && k < Place(rs, CATTIVO)
    ensures WithRules(Installed(rs, s, sources), k, rs[k].rules) == WithoutJump(rs, ChainRules(s, sources))
  {
    hide ChainRules;
  }

  lemma {:induction false} EmptiesAndDeletes(rs: Ruleset, rules: seq<Rule>)
    requires Host(rs)
    ensures Flush(WithoutJump(rs, rules), CATTIVO) == Ok(WithoutJump(rs, []))
    ensures Delete(WithoutJump(rs, []), CATTIVO) == Ok(rs)
  {
    hide WellFormed, NamesDiffer, Calls;
    WithoutJumpPlaces(rs, rules);
    WithoutJumpPlaces(rs, []);
    var p := Place(rs, CATTIVO);
    assert WithRules(WithoutJump(rs, rules), p, []) == WithoutJump(rs, []);
    RemoveUndoesInsert(rs, p, Chain(CATTIVO, 0, RETURN, []));
    NoCalls(rs);
    OwnCallsNone(rs, p);
  }

  lemma {:induction false} OwnCallsNone(rs: Ruleset, p: nat)
    requires p <= |rs| && Calls(rs, CATTIVO) == 0
    ensures Calls(InsertAt(rs, p, Chain(CATTIVO, 0, RETURN, [])), CATTIVO) == 0
  {
    TotalInsert(rs, p, Chain(CATTIVO, 0, RETURN, []), CallsIn(CATTIVO));
  }

  /** Without the chain there is nothing to clean. */
  lemma {:induction false} NothingToClean(rs: Ruleset, s: Setup)
    requires Lookup(rs, CATTIVO).None?
    ensures Cleaned(rs, s) == rs
  {
  }

  lemma {:induction false} InsertedRules(rs: Ruleset, p: nat, c: Chain, rules: seq<Rule>)
    requires p <= |rs|
    ensures WithRules(InsertAt(rs, p, c), p, rules) == InsertAt(rs, p, c.(rules := rules))
  {
  }

  lemma {:induction false} AppendsAtEnd<T>(s: seq<T>, x: T)
    ensures InsertAt(s, |s|, x) == s + [x]
  {
  }

  /** Appending to the own chain. */
  lemma {:induction false} AppendOwn(rs: Ruleset, rules: seq<Rule>, e: Entry, r: Rule)
    requires Host(rs) && RuleFor(WithoutJump(rs, rules), e) == Ok(r)
    ensures Append(WithoutJump(rs, rules), CATTIVO, e) == Ok(WithoutJump(rs, rules + [r]))
  {
    WithoutJumpPlaces(rs, rules);
    AppendsAtEnd(rules, r);
    hide RuleFor, Lookup, NamesDiffer, ExtensionsClear, WellFormed, InsertAt, Place;
    InsertedRules(rs, Place(rs, CATTIVO), Chain(CATTIVO, 0, RETURN, rules), rules + [r]);
  }

  /** Appending one of the fixed rules. */
  lemma {:induction false} AppendFixed(rs: Ruleset, s: Setup, rules: seq<Rule>, e: Entry, r: Rule)
    requires Host(rs)
    requires (e == AuthenticatorEntry(s) && r == AuthenticatorRule(s))
             || (e == LocalTrafficEntry() && r == LocalTrafficRule())
             || (e == TproxyEntry(s) && r == TproxyRule(s))
    ensures Append(WithoutJump(rs, rules), CATTIVO, e) == Ok(WithoutJump(rs, rules + [r]))
  {
    hide *;
    WithoutJumpPlaces(rs, rules);
    EntriesMean(WithoutJump(rs, rules), s, 0);
    AppendOwn(rs, rules, e, r);
  }

  lemma {:induction false} ChainMadeFrom(rs: Ruleset, s: Setup, rs1: Ruleset, rs2: Ruleset, rs3: Ruleset, rs4: Ruleset)
    requires Create(rs, CATTIVO) == Ok(rs1) && Append(rs1, CATTIVO, AuthenticatorEntry(s)) == Ok(rs2)
    requires Append(rs2, CATTIVO, LocalTrafficEntry()) == Ok(rs3) && Append(rs3, CATTIVO, TproxyEntry(s)) == Ok(rs4)
    ensures ChainMade(rs, s) == Ok(rs4)
  {
    hide Create, Append;
  }

  lemma {:induction false} ChainIsMade(rs: Ruleset, s: Setup)
    requires Host(rs)
    ensures ChainMade(rs, s) == Ok(WithoutJump(rs, ChainRules(s, [])))
  {
    var a, l, t := AuthenticatorRule(s), LocalTrafficRule(), TproxyRule(s);
    assert Create(rs, CATTIVO) == Ok(WithoutJump(rs, []));
    assert [] + [a] == [a] && [a] + [l] == [a, l] && [a, l] + [t] == ChainRules(s, []);
    hide *;
    AppendFixed(rs, s, [], AuthenticatorEntry(s), a);
    AppendFixed(rs, s, [a], LocalTrafficEntry(), l);
    AppendFixed(rs, s, [a, l], TproxyEntry(s), t);
    ChainMadeFrom(rs, s, WithoutJump(rs, []), WithoutJump(rs, [a]), WithoutJump(rs, [a, l]),
                  WithoutJump(rs, [a, l] + [t]));
  }

  lemma {:induction false} JumpAppended(rs: Ruleset, s: Setup)
    requires Host(rs) && Lookup(rs, PREROUTING).Some?
    ensures Append(WithoutJump(rs, ChainRules(s, [])), PREROUTING, JumpEntry(s)) == Ok(Installed(rs, s, []))
  {
    var rules := ChainRules(s, []);
    var k := Lookup(rs, PREROUTING).value;
    WithoutJumpPlaces(rs, rules);
    HostPlaces(rs);
    JumpMeans(WithoutJump(rs, rules), s, Place(rs, CATTIVO));
    hide RuleFor, Lookup, NamesDiffer, ExtensionsClear, WellFormed, ChainRules;
    assert InsertAt(rs[k].rules, |rs[k].rules|, JumpRule(s)) == rs[k].rules + [JumpRule(s)];
    JumpPut(rs, s, k);
  }

  lemma {:induction false} JumpPut(rs: Ruleset, s: Setup, k: nat)
    requires Lookup(rs, PREROUTING) == Some(k) && k < Place(rs, CATTIVO)
    ensures WithRules(WithoutJump(rs, ChainRules(s, [])), k, rs[k].rules + [JumpRule(s)]) == Installed(rs, s, [])
  {
    hide ChainRules;
  }

  /** Initializing installs the firewall with no client, whether or not it was installed before. */
  lemma {:induction false} InitializingInstalls(rs: Ruleset, s: Setup, sources: seq<Address>)
    requires Host(rs) && Lookup(rs, PREROUTING).Some?
    ensures Initialized(rs, s) == Ok(Installed(rs, s, []))
    ensures Initialized(Installed(rs, s, sources), s) == Ok(Installed(rs, s, []))
  {
    HostNames(rs);
    hide *;
    NothingToClean(rs, s);
    CleaningRestores(rs, s, sources);
    ChainIsMade(rs, s);
    JumpAppended(rs, s);
    InitializedFrom(rs, s, rs);
    InitializedFrom(Installed(rs, s, sources), s, rs);
  }

  lemma {:induction false} InitializedFrom(rs: Ruleset, s: Setup, clean: Ruleset)
    requires Cleaned(rs, s) == clean && ChainMade(clean, s) == Ok(WithoutJump(clean, ChainRules(s, [])))
    requires Lookup(clean, PREROUTING).Some?
    requires Append(WithoutJump(clean, ChainRules(s, [])), PREROUTING, JumpEntry(s)) == Ok(Installed(clean, s, []))
    ensures Initialized(rs, s) == Ok(Installed(clean, s, []))
  {
    hide Cleaned, ChainMade, Append, Installed;
  }

  // ----------------------------------------------------------------------------------- runs of clients

  datatype ClientEvent = Enter(address: Address) | Leave(address: Address)

  /** The sources let through after a run; leaving when not in fails and changes nothing. */
  function SourcesAfter(evs: seq<ClientEvent>): seq<Address> {
    if evs == [] then []
    else
      var sources := SourcesAfter(evs[..|evs| - 1]);
      match evs[|evs| - 1]
      case Enter(a) => [a] + sources
      case Leave(a) =>
        match FirstRule(sources, a)
        case None => sources
        case Some(i) => RemoveAt(sources, i)
  }

  /** The table after initializing and a run of clients. */
  function TableAfter(rs: Ruleset, s: Setup, evs: seq<ClientEvent>): Ruleset {
    if evs == [] then Try(rs, Initialized(rs, s))
    else
      var before := TableAfter(rs, s, evs[..|evs| - 1]);
      match evs[|evs| - 1]
      case Enter(a) => Try(before, AddClientTo(before, s, a))
      case Leave(a) => Try(before, RemoveClientFrom(before, s, a))
  }

  lemma {:induction false} RunInstalls(rs: Ruleset, s: Setup, evs: seq<ClientEvent>)
    requires Host(rs) && SetupOk(s) && Lookup(rs, PREROUTING).Some?
    ensures TableAfter(rs, s, evs) == Installed(rs, s, SourcesAfter(evs))
  {
    hide AddClientTo, RemoveClientFrom, Initialized, Installed, Host;
    if evs == [] {
      InitializingInstalls(rs, s, []);
    } else {
      var front := evs[..|evs| - 1];
      RunInstalls(rs, s, front);
      ClientsComeAndGo(rs, s, SourcesAfter(front), evs[|evs| - 1].address);
    }
  }

  /** Whatever clients come and go after initializing, cleaning leaves every chain and every rule as it was
      before, and the firewall's own chain is gone. */
  lemma {:induction false} WholeRunRestores(rs: Ruleset, s: Setup, evs: seq<ClientEvent>)
    requires Host(rs) && SetupOk(s)
    ensures Cleaned(TableAfter(rs, s, evs), s) == rs
  {
    HostPlaces(rs);
    hide Host, Cleaned, TableAfter, Installed;
    RunInstalls(rs, s, evs);
    CleaningRestores(rs, s, SourcesAfter(evs));
  }
}
