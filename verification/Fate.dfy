/** What becomes of a packet in the firewall's chain. */
module Fate {
  import opened Names
  import opened Seqs
  import opened Rulesets
  import opened Walk
  import opened Packets
  import opened Verdicts
  import opened Mangle
  import opened Wall
  import opened Items
  import S = Schedule
  import R = ScheduleRuns
  import L = Leftovers

  predicate MatchHolds(s: Setup, m: Match, p: Packet) {
    m.name == "tcp" && (m.data == s.anyTcp || (m.data == s.tcpPort80 && p.dport == 80))
  }

  predicate Holds(s: Setup, ip: Ip, ms: seq<Match>, p: Packet) {
    HeaderMatches(ip, p) && forall i :: 0 <= i < |ms| ==> MatchHolds(s, ms[i], p)
  }

  /** Only the two tcp matches that the firewall itself uses. */
  predicate OwnMatches(s: Setup, ms: seq<Match>) {
    forall i :: 0 <= i < |ms| ==> ms[i] == Match("tcp", s.anyTcp) || ms[i] == Match("tcp", s.tcpPort80)
  }

  /** The oracle answers for packet `p` wherever none but the firewall's matches are asked, and as it likes elsewhere;
      logging lets a packet go on. */
  ghost predicate AnswersFor(o: Oracle, s: Setup, p: Packet) {
    && (forall t, ip, ms :: OwnMatches(s, ms) ==> (o.matches(t, ip, ms) <==> Holds(s, ip, ms, p)))
    && (forall t, data :: o.extension(t, "NFLOG", data) == None)
  }

  predicate FromLo(p: Packet) { p.inIface[0] == 0x6C && p.inIface[1] == 0x6F && p.inIface[2] == 0 }

  lemma {:induction false} BitFacts(x: bv8, y: bv8, a: bv32, b: bv32)
    ensures BitsAgree(x, y, 0) && (BitsAgree(x, y, 0xFF) <==> x == y)
    ensures Under(EVERY_BIT, a) == a && Under(0, a) == 0
  {
  }

  lemma {:induction false} LoMatches(p: Packet)
    ensures InterfaceMatches(LO, LO_MASK, p.inIface) <==> FromLo(p)
    ensures InterfaceMatches(NO_INTERFACE, NO_INTERFACE, p.inIface)
    ensures InterfaceMatches(NO_INTERFACE, NO_INTERFACE, p.outIface)
  {
    forall x: bv8, y: bv8 ensures BitsAgree(x, y, 0) && (BitsAgree(x, y, 0xFF) <==> x == y) {
      BitFacts(x, y, 0, 0);
    }
    assert LO_MASK[0] == 0xFF && LO_MASK[1] == 0xFF && LO_MASK[2] == 0xFF;
    if InterfaceMatches(LO, LO_MASK, p.inIface) {
      assert BitsAgree(p.inIface[0], LO[0], LO_MASK[0]) && BitsAgree(p.inIface[1], LO[1], LO_MASK[1])
          && BitsAgree(p.inIface[2], LO[2], LO_MASK[2]);
    }
  }

  lemma {:induction false} PlainHeader(src: Address, srcMask: bv32, dst: Address, dstMask: bv32, p: Packet)
    ensures HeaderMatches(Header(src, srcMask, dst, dstMask), p)
       <==> p.proto == TCP && Under(srcMask, p.src) == src && Under(dstMask, p.dst) == dst
  {
    LoMatches(p);
    PlainHeaderMatches(Header(src, srcMask, dst, dstMask), p);
    hide HeaderMatches, InterfaceMatches, FromLo, BitsAgree, Under;
  }

  lemma {:induction false} LoHeader(p: Packet)
    ensures HeaderMatches(LocalTrafficEntry().ip, p) <==> p.proto == TCP && FromLo(p)
  {
    LoMatches(p);
    PlainHeaderMatches(LocalTrafficEntry().ip, p);
    BitFacts(0, 0, p.src, 0);
    BitFacts(0, 0, p.dst, 0);
    hide HeaderMatches, InterfaceMatches, FromLo, BitsAgree, Under;
  }

  lemma {:induction false} OneMatchHolds(s: Setup, ip: Ip, m: Match, p: Packet)
    ensures Holds(s, ip, [m], p) <==> HeaderMatches(ip, p) && MatchHolds(s, m, p)
    ensures Holds(s, ip, [], p) <==> HeaderMatches(ip, p)
  {
    hide HeaderMatches;
    assert [m][0] == m;
  }

  /** When the rules of the chain match. */
  lemma {:induction false} WhenRulesMatch(s: Setup, p: Packet, a: Address)
    requires SetupOk(s)
    ensures Holds(s, AuthenticatorRule(s).ip, AuthenticatorRule(s).matches, p) <==>
      p.proto == 6 && p.dst == s.authenticator
    ensures Holds(s, LocalTrafficRule().ip, LocalTrafficRule().matches, p) <==> p.proto == 6 && FromLo(p)
    ensures Holds(s, TproxyRule(s).ip, TproxyRule(s).matches, p) <==> p.proto == 6 && p.dport == 80
    ensures Holds(s, ClientAcceptRule(s, a).ip, ClientAcceptRule(s, a).matches, p) <==> p.proto == 6 && p.src == a
    ensures Holds(s, ClientLogRule(s, a).ip, ClientLogRule(s, a).matches, p) <==>
      p.proto == 6 && p.src == a && p.dport == 80
  {
    PlainHeader(0, 0, s.authenticator, EVERY_BIT, p);
    PlainHeader(0, 0, 0, 0, p);
    PlainHeader(a, EVERY_BIT, 0, 0, p);
    LoHeader(p);
    BitFacts(0, 0, p.src, 0);
    BitFacts(0, 0, p.dst, 0);
    hide HeaderMatches, Header, FromLo, Holds, Under;
    OneMatchHolds(s, AuthenticatorRule(s).ip, Match("tcp", s.anyTcp), p);
    OneMatchHolds(s, LocalTrafficRule().ip, Match("tcp", s.anyTcp), p);
    OneMatchHolds(s, TproxyRule(s).ip, Match("tcp", s.tcpPort80), p);
    OneMatchHolds(s, ClientAcceptRule(s, a).ip, Match("tcp", s.anyTcp), p);
    OneMatchHolds(s, ClientLogRule(s, a).ip, Match("tcp", s.tcpPort80), p);
  }

  /** When the jump takes a packet into the chain: whether it does depends on its protocol and its interfaces alone. */
  lemma {:induction false} JumpMatches(s: Setup, p: Packet)
    ensures Holds(s, JumpRule(s).ip, JumpRule(s).matches, p) <==>
      && p.proto == 6
      && InterfaceMatches(s.inIface, s.inMask, p.inIface) && InterfaceMatches(s.outIface, s.outMask, p.outIface)
  {
    PlainHeaderMatches(JumpRule(s).ip, p);
    BitFacts(0, 0, p.src, 0);
    BitFacts(0, 0, p.dst, 0);
    hide HeaderMatches, InterfaceMatches, Under;
    OneMatchHolds(s, JumpRule(s).ip, Match("tcp", s.anyTcp), p);
  }

  /** What the rules of the chain do. */
  lemma {:induction false} RuleActions(s: Setup, a: Address)
    ensures AuthenticatorRule(s).action == Verdict(-2) && LocalTrafficRule().action == Verdict(-2)
    ensures ClientAcceptRule(s, a).action == Verdict(-2) && ClientLogRule(s, a).action == Extension("NFLOG", s.nflog)
    ensures TproxyRule(s).action == Extension("TPROXY", s.tproxy) && JumpRule(s).action == Call("cattivo")
  {
  }

  lemma {:induction false} OwnRules(s: Setup, a: Address)
    ensures OwnMatches(s, AuthenticatorRule(s).matches) && OwnMatches(s, LocalTrafficRule().matches)
    ensures OwnMatches(s, ClientAcceptRule(s, a).matches) && OwnMatches(s, ClientLogRule(s, a).matches)
    ensures OwnMatches(s, TproxyRule(s).matches) && OwnMatches(s, JumpRule(s).matches)
  {
  }

  // --------------------------------------------------------------------------------- passing rules by

  /** A rule with the firewall's matches that lets the packet go on to the next one. */
  predicate PassesBy(s: Setup, p: Packet, r: Rule) {
    OwnMatches(s, r.matches) && (!Holds(s, r.ip, r.matches, p) || (r.action.Extension? && r.action.name == "NFLOG"))
  }

  /** The first `n` spots of chain `k`. */
  function Spots(k: nat, n: nat): seq<Spot> { seq(n, i requires 0 <= i < n => Spot(k, i)) }

  /** A packet that has come to chain `k` after `m` steps passes its first `n` rules one by one. */
  lemma {:induction false} GoesOn(rs: Ruleset, s: Setup, k: nat, o: Oracle, p: Packet, n: nat, m: nat, s0: State<Spot>,
                                  back: seq<Spot>, trail: seq<Spot>)
    requires k < |rs| && n <= |rs[k].rules| && AnswersFor(o, s, p)
    requires Run(rs, o, m, s0) == At(Spot(k, 0), back, trail)
    requires forall i :: 0 <= i < n ==> PassesBy(s, p, rs[k].rules[i])
    ensures Run(rs, o, m + n, s0) == At(Spot(k, n), back, trail + Spots(k, n))
  {
    hide Step, AnswersFor, PassesBy;
    if n == 0 {
      assert trail + Spots(k, 0) == trail;
    } else {
      GoesOn(rs, s, k, o, p, n - 1, m, s0, back, trail);
      assert trail + Spots(k, n - 1) + [Spot(k, n - 1)] == trail + Spots(k, n);
      OneOn(rs, s, o, p, m + n - 1, Spot(k, n - 1), back, trail + Spots(k, n - 1));
    }
  }

  lemma {:induction false} OneOn(rs: Ruleset, s: Setup, o: Oracle, p: Packet, t: nat, at: Spot, back: seq<Spot>,
                                 trail: seq<Spot>)
    requires at.chain < |rs| && at.rule < |rs[at.chain].rules| && AnswersFor(o, s, p)
    requires PassesBy(s, p, rs[at.chain].rules[at.rule])
    ensures Step(rs, o, t, At(at, back, trail)) == At(Spot(at.chain, at.rule + 1), back, trail + [at])
  {
    hide Holds, OwnMatches;
  }

  // ------------------------------------------------------------------------------------ the decision

  /** A packet that the chain accepts. */
  predicate LetThrough(s: Setup, items: seq<Item>, p: Packet) {
    p.proto == 6 && (p.dst == s.authenticator || FromLo(p) || Accept(p.src) in items)
  }

  /** A packet for the bouncer. */
  predicate Bounced(s: Setup, items: seq<Item>, p: Packet) {
    !LetThrough(s, items, p) && p.proto == 6 && p.dport == 80
  }

  /** The place of the rule that decides; the chain's end if none does. */
  function Decider(s: Setup, items: seq<Item>, p: Packet): (n: nat)
    ensures n <= |items| + 3
  {
    if p.proto != 6 then |items| + 3
    else if p.dst == s.authenticator then 0
    else if FromLo(p) then 1
    else match FirstItem(items, Accept(p.src))
      case Some(i) => 2 + i
      case None => if p.dport == 80 then 2 + |items| else |items| + 3
  }

  lemma {:induction false} ItemRuleAt(s: Setup, items: seq<Item>, j: nat)
    requires j < |items| + 3
    ensures ItemRules(s, items)[j] ==
      if j == 0 then AuthenticatorRule(s)
      else if j == 1 then LocalTrafficRule()
      else if j == |items| + 2 then TproxyRule(s)
      else ItemRule(s, items[j - 2])
  {
    hide ItemRule, AuthenticatorRule, LocalTrafficRule, TproxyRule;
  }

  lemma {:induction false} AllBeforePass(s: Setup, items: seq<Item>, p: Packet, j: nat)
    requires SetupOk(s) && j < Decider(s, items, p)
    ensures PassesBy(s, p, ItemRules(s, items)[j])
  {
    ItemRuleAt(s, items, j);
    var x := if 2 <= j < |items| + 2 then items[j - 2] else Accept(0);
    WhenRulesMatch(s, p, x.address);
    RuleActions(s, x.address);
    OwnRules(s, x.address);
    hide Holds, OwnMatches, ItemRules, AuthenticatorRule, LocalTrafficRule, TproxyRule, ClientAcceptRule,
         ClientLogRule, FromLo;
  }

  lemma {:induction false} DeciderDecides(s: Setup, items: seq<Item>, p: Packet)
    requires SetupOk(s) && Decider(s, items, p) < |items| + 3
    ensures var r := ItemRules(s, items)[Decider(s, items, p)];
      && Holds(s, r.ip, r.matches, p) && OwnMatches(s, r.matches)
      && (LetThrough(s, items, p) ==> r.action == Verdict(-2))
      && (Bounced(s, items, p) ==> r == TproxyRule(s))
      && (LetThrough(s, items, p) || Bounced(s, items, p))
  {
    OwnRules(s, p.src);
    hide Holds, OwnMatches, ItemRules, FromLo, AuthenticatorRule, LocalTrafficRule, TproxyRule, ClientAcceptRule,
         ClientLogRule;
    ItemRuleAt(s, items, Decider(s, items, p));
    WhenRulesMatch(s, p, p.src);
    RuleActions(s, p.src);
  }

  /** Every packet that enters the chain is accepted by the chain, or reaches the bouncer's rule, or leaves the
      chain again, as its addresses, interface, protocol and port say; `n` is the number of rules passed. */
  lemma {:induction false} PacketFate(rs: Ruleset, s: Setup, k: nat, items: seq<Item>, o: Oracle, p: Packet,
                                      m: nat, s0: State<Spot>, back: seq<Spot>, trail: seq<Spot>) returns (n: nat)
    requires SetupOk(s) && HoldsAt(rs, s, k, items) && rs[k].policy == RETURN && AnswersFor(o, s, p)
    requires Run(rs, o, m, s0) == At(Spot(k, 0), back, trail)
    ensures n <= |rs[k].rules| && Run(rs, o, m + n, s0) == At(Spot(k, n), back, trail + Spots(k, n))
    ensures LetThrough(s, items, p) ==> Accepted(Run(rs, o, m + n + 1, s0))
    ensures Bounced(s, items, p) ==>
      n < |rs[k].rules| && rs[k].rules[n] == TproxyRule(s) && Holds(s, TproxyRule(s).ip, TproxyRule(s).matches, p)
    ensures !LetThrough(s, items, p) && !Bounced(s, items, p) ==>
      Run(rs, o, m + n + 1, s0) == Return(back, trail + Spots(k, n) + [Spot(k, n)])
  {
    n := Decider(s, items, p);
    var rules := ItemRules(s, items);
    HoldsAtPlace(rs, s, k, items);
    hide Holds, OwnMatches, HoldsAt, ItemRules, SetupOk, Decider;
    forall j | 0 <= j < n ensures PassesBy(s, p, rules[j]) {
      AllBeforePass(s, items, p, j);
    }
    GoesOn(rs, s, k, o, p, n, m, s0, back, trail);
    if n < |rules| {
      DeciderDecides(s, items, p);
    } else {
      NobodyDecides(s, items, p);
    }
  }

  lemma {:induction false} HoldsAtPlace(rs: Ruleset, s: Setup, k: nat, items: seq<Item>)
    requires HoldsAt(rs, s, k, items)
    ensures k < |rs| && rs[k].rules == ItemRules(s, items) && Lookup(rs, CATTIVO) == Some(k)
  {
    hide NamesDiffer, ExtensionsClear, Lookup, ItemRules;
  }

  lemma {:induction false} NobodyDecides(s: Setup, items: seq<Item>, p: Packet)
    requires Decider(s, items, p) == |items| + 3
    ensures !LetThrough(s, items, p) && !Bounced(s, items, p)
  {
  }

  /** A web request: TCP to port 80, not from the machine itself and not to the authenticator. */
  predicate IsWebRequest(s: Setup, p: Packet) {
    p.proto == 6 && p.dport == 80 && !FromLo(p) && p.dst != s.authenticator
  }

  /** While every client in the chain has both of its rules, a web request that is let through for its source has passed
      the log rule of that source, which matches it, just before. */
  lemma {:induction false} LoggedFirst(s: Setup, sources: seq<Address>, p: Packet)
    requires SetupOk(s) && IsWebRequest(s, p) && p.src in sources
    ensures var n, rules := Decider(s, PairItems(sources), p), ItemRules(s, PairItems(sources));
      && 2 < n < |rules| && rules[n] == ClientAcceptRule(s, p.src) && rules[n - 1] == ClientLogRule(s, p.src)
      && Holds(s, rules[n - 1].ip, rules[n - 1].matches, p)
      && rules[n - 1].action == Extension("NFLOG", s.nflog)
  {
    var items := PairItems(sources);
    PairItemsOf(sources, p.src);
    LogInFront(sources, p.src);
    WhenRulesMatch(s, p, p.src);
    RuleActions(s, p.src);
    ItemRuleAt(s, items, Decider(s, items, p));
    ItemRuleAt(s, items, Decider(s, items, p) - 1);
    hide Holds, ItemRules, FromLo, AuthenticatorRule, LocalTrafficRule, TproxyRule, ClientAcceptRule, ClientLogRule;
  }

  /** The first accept item of a pair stands behind the log item of the same address. */
  lemma {:induction false} LogInFront(sources: seq<Address>, a: Address)
    requires a in sources
    ensures var r := FirstItem(PairItems(sources), Accept(a));
      r.Some? && r.value > 0 && PairItems(sources)[r.value - 1] == Log(a)
  {
    var items := PairItems(sources);
    assert items == [Log(sources[0]), Accept(sources[0])] + PairItems(sources[1..]);
    assert items[1..][1..] == PairItems(sources[1..]);
    assert FirstItem(items, Accept(a)) == if items[1] == Accept(a) then Some(1) else
      match FirstItem(items[1..][1..], Accept(a)) case None => None case Some(i) => Some(i + 2);
    if sources[0] != a {
      LogInFront(sources[1..], a);
    }
  }

  // -------------------------------------------------------------------------------- from PREROUTING on

  /** The packet has the interfaces that are configured for the jump. */
  predicate OnInterfaces(s: Setup, p: Packet) {
    InterfaceMatches(s.inIface, s.inMask, p.inIface) && InterfaceMatches(s.outIface, s.outMask, p.outIface)
  }

  /** A packet that enters `pre` passes all of its rules but the last in `m` steps. */
  ghost predicate PassesHost(rs: Ruleset, o: Oracle, pre: nat, m: nat) {
    && pre < |rs| && rs[pre].rules != []
    && var last := |rs[pre].rules| - 1;
       var f := Run(rs, o, m, Start(rs, pre));
       f.At? && f.place == Spot(pre, last) && f.back == [Spot(pre, last + 1)]
  }

  /** After `n` steps from the start of `pre` the packet is accepted. */
  ghost predicate Granted(rs: Ruleset, o: Oracle, pre: nat, n: nat) {
    pre < |rs| && Accepted(Run(rs, o, n, Start(rs, pre)))
  }

  /** After `n` steps it stands at the bouncer's rule, in the firewall's chain. */
  ghost predicate AtBouncer(rs: Ruleset, s: Setup, o: Oracle, pre: nat, n: nat) {
    && pre < |rs| && Run(rs, o, n, Start(rs, pre)).At?
    && var at := Run(rs, o, n, Start(rs, pre)).place;
       at.chain < |rs| && at.rule < |rs[at.chain].rules| && rs[at.chain].rules[at.rule] == TproxyRule(s)
  }

  /** After `n` steps it has come to the end of `pre`, and its policy decides. */
  ghost predicate AtEnd(rs: Ruleset, o: Oracle, pre: nat, n: nat) {
    && pre < |rs| && Run(rs, o, n, Start(rs, pre)).At?
    && Run(rs, o, n, Start(rs, pre)).place == Spot(pre, |rs[pre].rules|)
  }

  /** The jump stands last in PREROUTING. */
  lemma {:induction false} JumpStands(host: Ruleset, s: Setup, items: seq<Item>)
    requires Host(host) && Lookup(host, PREROUTING).Some?
    ensures var table, pre := Holding(host, s, items), Lookup(host, PREROUTING).value;
      && pre < |table| && table[pre].rules == host[pre].rules + [JumpRule(s)] && table[pre].policy == host[pre].policy
      && table[pre].name == PREROUTING && table[pre].hook == host[pre].hook > 0
  {
    HostPlaces(host);
    hide Host, ItemRules, JumpRule, Place;
  }

  /** The jump takes a packet into the firewall's chain exactly if it is TCP and has the configured interfaces. */
  lemma {:induction false} JumpTakes(rs: Ruleset, s: Setup, k: nat, o: Oracle, p: Packet, pre: nat, m: nat)
    requires PassesHost(rs, o, pre, m) && rs[pre].rules[|rs[pre].rules| - 1] == JumpRule(s)
    requires Lookup(rs, CATTIVO) == Some(k) && AnswersFor(o, s, p)
    ensures var f, end := Run(rs, o, m + 1, Start(rs, pre)), Spot(pre, |rs[pre].rules|);
      if p.proto == 6 && OnInterfaces(s, p) then f == At(Spot(k, 0), [end, end], f.trail)
      else f == At(end, [end], f.trail)
  {
    JumpMatches(s, p);
    OwnRules(s, 0);
    RuleActions(s, 0);
    hide Holds, OwnMatches, JumpRule, InterfaceMatches, Lookup;
  }

  /** In the host's table with the firewall installed, whatever items stand in its chain: of the packets that pass the
      host's own rules in PREROUTING, those that the chain lets through are accepted, those for the bouncer reach its
      rule, and all others, among them all that do not have the configured interfaces, come to the end of PREROUTING. */
  lemma {:induction false} FateFromPrerouting(host: Ruleset, s: Setup, items: seq<Item>, o: Oracle, p: Packet, m: nat)
    returns (n: nat)
    requires Host(host) && SetupOk(s) && Lookup(host, PREROUTING).Some? && AnswersFor(o, s, p)
    requires PassesHost(Holding(host, s, items), o, Lookup(host, PREROUTING).value, m)
    ensures var table, pre := Holding(host, s, items), Lookup(host, PREROUTING).value;
      if OnInterfaces(s, p) && LetThrough(s, items, p) then Granted(table, o, pre, n)
      else if OnInterfaces(s, p) && Bounced(s, items, p) then AtBouncer(table, s, o, pre, n)
      else AtEnd(table, o, pre, n)
  {
    hide *;
    NotBoth(s, items, p);
    var table, k, pre := Holding(host, s, items), Place(host, CATTIVO), Lookup(host, PREROUTING).value;
    HoldingStands(host, s, items);
    HoldsAtPlace(table, s, k, items);
    JumpStands(host, s, items);
    JumpTakes(table, s, k, o, p, pre, m);
    var end := Spot(pre, |table[pre].rules|);
    ReturnsTo(end);
    if p.proto == 6 && OnInterfaces(s, p) {
      var i := PacketFate(table, s, k, items, o, p, m + 1, Start(table, pre), [end, end],
                          Run(table, o, m + 1, Start(table, pre)).trail);
      n := if Bounced(s, items, p) then m + 1 + i else m + 1 + i + 1;
      Arrives(table, s, items, o, p, pre, n, k, i);
    } else {
      n := m + 1;
      OthersEnd(table, s, items, o, p, pre, n);
    }
  }

  /** A packet that is let through is not bounced. */
  lemma {:induction false} NotBoth(s: Setup, items: seq<Item>, p: Packet)
    ensures !(LetThrough(s, items, p) && Bounced(s, items, p))
  {
    hide LetThrough;
  }

  lemma {:induction false} ReturnsTo(end: Spot)
    ensures forall trail: seq<Spot> :: Return([end, end], trail) == At(end, [end], trail)
  {
    assert [end, end][1..] == [end];
  }

  lemma {:induction false} OthersEnd(table: Ruleset, s: Setup, items: seq<Item>, o: Oracle, p: Packet, pre: nat, n: nat)
    requires pre < |table| && !(p.proto == 6 && OnInterfaces(s, p))
    requires Run(table, o, n, Start(table, pre)).At?
    requires Run(table, o, n, Start(table, pre)).place == Spot(pre, |table[pre].rules|)
    ensures AtEnd(table, o, pre, n)
    ensures !(OnInterfaces(s, p) && LetThrough(s, items, p)) && !(OnInterfaces(s, p) && Bounced(s, items, p))
  {
    hide Run, OnInterfaces, FromLo;
  }

  lemma {:induction false} Arrives(table: Ruleset, s: Setup, items: seq<Item>, o: Oracle, p: Packet, pre: nat, n: nat,
                                   k: nat, i: nat)
    requires pre < |table| && k < |table|
    requires LetThrough(s, items, p) ==> Accepted(Run(table, o, n, Start(table, pre)))
    requires Bounced(s, items, p) ==> i < |table[k].rules| && table[k].rules[i] == TproxyRule(s)
                                      && Run(table, o, n, Start(table, pre)).At?
                                      && Run(table, o, n, Start(table, pre)).place == Spot(k, i)
    requires !LetThrough(s, items, p) && !Bounced(s, items, p) ==>
      Run(table, o, n, Start(table, pre)).At?
      && Run(table, o, n, Start(table, pre)).place == Spot(pre, |table[pre].rules|)
    ensures if LetThrough(s, items, p) then Granted(table, o, pre, n)
            else if Bounced(s, items, p) then AtBouncer(table, s, o, pre, n)
            else AtEnd(table, o, pre, n)
  {
    hide Run, FromLo, TproxyRule;
  }

  /** What the table does with a web request: without the configured interfaces it comes to the end of PREROUTING; with
      them it is accepted if it is `open`, and else stands at the bouncer's rule. */
  ghost predicate WebFate(rs: Ruleset, s: Setup, o: Oracle, p: Packet, pre: nat, n: nat, open: bool) {
    if !OnInterfaces(s, p) then AtEnd(rs, o, pre, n)
    else if open then Granted(rs, o, pre, n)
    else AtBouncer(rs, s, o, pre, n)
  }

  /** A web request that passes the host's rules and has the configured interfaces is accepted exactly if its source has
      an accept rule, and otherwise reaches the bouncer's rule. */
  lemma {:induction false} ItemsDecide(host: Ruleset, s: Setup, items: seq<Item>, o: Oracle, p: Packet, m: nat)
    returns (n: nat)
    requires Host(host) && SetupOk(s) && Lookup(host, PREROUTING).Some? && AnswersFor(o, s, p) && IsWebRequest(s, p)
    requires PassesHost(Holding(host, s, items), o, Lookup(host, PREROUTING).value, m)
    ensures WebFate(Holding(host, s, items), s, o, p, Lookup(host, PREROUTING).value, n, Accept(p.src) in items)
  {
    hide *;
    FateIs(s, items, p);
    n := FateFromPrerouting(host, s, items, o, p, m);
    WebFateIs(Holding(host, s, items), s, o, p, Lookup(host, PREROUTING).value, n, Accept(p.src) in items);
  }

  lemma {:induction false} WebFateIs(rs: Ruleset, s: Setup, o: Oracle, p: Packet, pre: nat, n: nat, open: bool)
    ensures WebFate(rs, s, o, p, pre, n, open) <==>
      if !OnInterfaces(s, p) then AtEnd(rs, o, pre, n)
      else if open then Granted(rs, o, pre, n)
      else AtBouncer(rs, s, o, pre, n)
  {
    hide OnInterfaces, AtEnd, Granted, AtBouncer;
  }

  lemma {:induction false} FateIs(s: Setup, items: seq<Item>, p: Packet)
    requires IsWebRequest(s, p)
    ensures Accept(p.src) in items <==> LetThrough(s, items, p)
    ensures Accept(p.src) !in items <==> Bounced(s, items, p)
  {
  }

  // -------------------------------------------------------------------------------------- end to end

  /** Some open hole has the address. */
  ghost predicate HasHole(st: S.State, a: Address) {
    exists c :: c in st.entries && c.address == a
  }

  /** After any run of the scheduler in which nothing breaks, a web request that passes the host's rules in
      PREROUTING of the table in force, on the configured interfaces, is accepted if its source belongs to an
      open hole, and reaches the bouncer's rule if not; on other interfaces the firewall does not touch it. */
  lemma {:induction false} WebRequestFate(env: Env, wall: Table, evs: seq<R.Timed>, o: Oracle, p: Packet, m: nat)
    returns (n: nat)
    requires Shows(env, wall, [])
    requires R.LegalRun(env, S.Initially(wall), evs) && R.NothingBreaks(env, S.Initially(wall), evs)
    requires AnswersFor(o, env.setup, p) && IsWebRequest(env.setup, p) && Lookup(env.host, PREROUTING).Some?
    requires PassesHost(R.Run(env, S.Initially(wall), evs).wall.inForce, o, Lookup(env.host, PREROUTING).value, m)
    ensures var st := R.Run(env, S.Initially(wall), evs);
      WebFate(st.wall.inForce, env.setup, o, p, Lookup(env.host, PREROUTING).value, n, HasHole(st, p.src))
  {
    var st := R.Run(env, S.Initially(wall), evs);
    hide *;
    R.StartsValid(env, wall);
    R.RunEndsValid(env, S.Initially(wall), evs);
    R.ChainMirrorsHoles(env, st);
    HasHoleIs(st, p.src);
    ShownTable(env, wall, []);
    InstalledHolds(env.host, env.setup, st.rules);
    PairItemsOf(st.rules, p.src);
    n := ItemsDecide(env.host, env.setup, PairItems(st.rules), o, p, m);
  }

  lemma {:induction false} HasHoleIs(st: S.State, a: Address)
    ensures HasHole(st, a) <==> exists c :: c in st.entries && c.address == a
  {
  }

  /** A client has been refused because operation `k` failed.  Whatever happens then to other addresses, the web
      requests of the refused client reach the bouncer's rule until some other client's call gets through, and are
      accepted from then on if `k` was not the first operation. */
  lemma {:induction false} RefusedClientFate(env: Env, s: S.State, hole: S.Hole, now: real, k: nat, evs: seq<R.Timed>,
                                             o: Oracle, p: Packet, m: nat)
    returns (n: nat, d: Desk, calls: seq<L.Call>)
    requires S.Valid(env, s) && FailsAt(env, s.wall.ops, k)
    requires forall c :: c in s.entries ==> c.address != hole.client.address
    requires forall i :: 0 <= i < |evs| ==> L.Spares(evs[i].event, Some(hole.client.address))
    requires AnswersFor(o, env.setup, p) && IsWebRequest(env.setup, p) && p.src == hole.client.address
    requires Lookup(env.host, PREROUTING).Some?
    requires PassesHost(R.Run(env, S.Added(env, s, hole, now).0, evs).wall.inForce, o,
                        Lookup(env.host, PREROUTING).value, m)
    ensures S.Added(env, s, hole, now).1 == S.FirewallError && Stands(env, S.Added(env, s, hole, now).0.wall, d)
    ensures var s2 := R.Run(env, S.Added(env, s, hole, now).0, evs);
      && hole.client in s2.entries
      && WebFate(s2.wall.inForce, env.setup, o, p, Lookup(env.host, PREROUTING).value, n,
                 k >= 1 && L.SomeCommits(env, d, calls))
  {
    hide *;
    d, calls := L.RefusedAddStays(env, s, hole, now, k, evs);
    var d2 := L.DeskAfter(env, d, calls);
    StandingTable(env, R.Run(env, S.Added(env, s, hole, now).0, evs).wall, d2);
    n := ItemsDecide(env.host, env.setup, d2.inForce, o, p, m);
  }

  lemma {:induction false} StandingTable(env: Env, t: Table, d: Desk)
    requires Stands(env, t, d)
    ensures Host(env.host) && SetupOk(env.setup) && Lookup(env.host, PREROUTING).Some?
    ensures t.inForce == Holding(env.host, env.setup, d.inForce)
  {
    hide Host, SetupOk, Holding;
  }
}
