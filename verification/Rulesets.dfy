/** What a table means: named chains of rules, without any of the caches, counters and pointers that the
    library keeps beside them.  The editing operations of the library are specified here. */
module Rulesets {
  import opened Names
  import opened Seqs

  // --------------------------------------------------------------------------------------- entries

  // Sizes in bytes of the kernel structures on a 64-bit machine.
  const ENTRY_SIZE: nat := 112
  const HEADER_SIZE: nat := 32
  const STANDARD_SIZE: nat := 40
  const ERROR_SIZE: nat := 64

  const NUM_HOOKS: nat := 5
  const HOOK_NAMES: seq<Name> := ["PREROUTING", "INPUT", "FORWARD", "OUTPUT", "POSTROUTING"]

  const ERROR_TARGET: Name := "ERROR"
  const STANDARD_TARGET: Name := ""
  const ACCEPT := -2
  const DROP := -1
  const QUEUE := -4
  const RETURN := -5
  const MAX_NAME: nat := 31

  type Bytes = seq<bv8>

  /** An interface name padded with zeros, or the mask that goes with one. */
  type Interface = s: Bytes | |s| == 16 witness [0, 0, 0, 0, 0, 0, 0, 0, 0, 0, 0, 0, 0, 0, 0, 0]

  const NO_INTERFACE: Interface := [0, 0, 0, 0, 0, 0, 0, 0, 0, 0, 0, 0, 0, 0, 0, 0]

  function Zeros(n: nat): (z: Bytes)
    ensures |z| == n
  {
    seq(n, _ => 0)
  }

  datatype Ip = Ip(
    src: bv32, srcMask: bv32, dst: bv32, dstMask: bv32,
    inIface: Interface, inMask: Interface, outIface: Interface, outMask: Interface,
    proto: nat, flags: nat, invFlags: nat)

  datatype Match = Match(name: Name, data: Bytes)

  function MatchSize(m: Match): nat { HEADER_SIZE + |m.data| }

  function MatchesSize(ms: seq<Match>): nat { Total(ms, (m: Match) => MatchSize(m)) }

  /** A target and the three ways its data area is read: as a verdict, as a name, as bytes. */
  datatype Target = Target(name: Name, data: Bytes, verdict: int, text: Name)

  function TargetSize(t: Target): nat { HEADER_SIZE + |t.data| }

  predicate IsStandardSized(t: Target) { TargetSize(t) == STANDARD_SIZE }

  const WORD: nat := 0x1_0000_0000_0000_0000

  /** A 64-bit counter. */
  type Word = n: nat | n < WORD witness 0

  datatype Counters = Counters(packets: Word, bytes: Word)

  const ZERO_COUNTERS := Counters(0, 0)

  /** One rule as it lies in the table: header, matches, target. */
  datatype Entry = Entry(ip: Ip, matches: seq<Match>, target: Target, counters: Counters)

  function EntrySize(e: Entry): (r: nat)
    ensures r > 0
  {
    ENTRY_SIZE + MatchesSize(e.matches) + TargetSize(e.target)
  }

  // --------------------------------------------------------------------------------------- rulesets

  datatype Action =
    | Verdict(verdict: int)
    | Extension(name: Name, data: Bytes)
    | Continue
    | Call(chain: Name)

  datatype Rule = Rule(ip: Ip, matches: seq<Match>, targetSize: nat, action: Action)

  /** A chain; `hook` is the hook number plus one of a builtin chain, 0 for a user chain. */
  datatype Chain = Chain(name: Name, hook: nat, policy: int, rules: seq<Rule>)

  type Ruleset = seq<Chain>

  datatype Errno = ENOENT | E2BIG | EINVAL | EEXIST | EMLINK | ENOTEMPTY | EOUTSIDE

  datatype Result<+T> = Ok(value: T) | Err(errno: Errno)

  // ------------------------------------------------------------------------------------- well-formed

  predicate IsUser(rs: Ruleset, name: Name) {
    exists k :: 0 <= k < |rs| && rs[k].name == name && rs[k].hook == 0
  }

  ghost predicate NamesDiffer(rs: Ruleset) {
    && (forall k :: 0 <= k < |rs| ==> rs[k].name != "")
    && (forall j, k :: 0 <= j < k < |rs| ==> rs[j].name != rs[k].name)
  }

  /** Builtin chains come first; user chains follow, strictly sorted. */
  ghost predicate Ordered(rs: Ruleset) {
    && (forall j, k :: 0 <= j < k < |rs| && rs[j].hook == 0 ==> rs[k].hook == 0)
    && (forall j, k :: 0 <= j < k < |rs| && rs[j].hook == 0 ==> Less(rs[j].name, rs[k].name))
  }

  ghost predicate HooksOk(rs: Ruleset) {
    && (forall k :: 0 <= k < |rs| ==> rs[k].hook <= NUM_HOOKS)
    && (forall k :: 0 <= k < |rs| && rs[k].hook > 0 ==> rs[k].name == HOOK_NAMES[rs[k].hook - 1])
    && (forall k :: 0 <= k < |rs| && rs[k].hook == 0 ==> rs[k].policy == RETURN)
  }

  ghost predicate RuleOk(rs: Ruleset, r: Rule) {
    match r.action
    case Verdict(v) => v < 0 && r.targetSize == STANDARD_SIZE
    case Extension(name, data) => name != STANDARD_TARGET && r.targetSize == HEADER_SIZE + |data|
    case Continue => true
    case Call(chain) => IsUser(rs, chain)
  }

  ghost predicate RulesOk(rs: Ruleset) {
    forall k, i :: 0 <= k < |rs| && 0 <= i < |rs[k].rules| ==> RuleOk(rs, rs[k].rules[i])
  }

  ghost predicate WellFormed(rs: Ruleset) {
    NamesDiffer(rs) && Ordered(rs) && HooksOk(rs) && RulesOk(rs)
  }

  // --------------------------------------------------------------------------------------- looking up

  /** The place of the chain called `name`: a plain scan of the list. */
  function Lookup(rs: Ruleset, name: Name): (r: Option<nat>)
    ensures r.Some? ==> r.value < |rs| && rs[r.value].name == name
    ensures r.None? ==> forall k :: 0 <= k < |rs| ==> rs[k].name != name
  {
    if rs == [] then None
    else if rs[|rs| - 1].name == name then Some(|rs| - 1)
    else Lookup(rs[..|rs| - 1], name)
  }

  lemma {:induction false} LookupAt(rs: Ruleset, k: nat)
    requires NamesDiffer(rs) && k < |rs|
    ensures Lookup(rs, rs[k].name) == Some(k)
  {
  }

  /** Number of rules that call the chain `name`. */
  function CallsIn(name: Name): Chain -> nat {
    (c: Chain) => Total(c.rules, IsCall(name))
  }

  function IsCall(name: Name): Rule -> nat {
    (r: Rule) => if r.action == Call(name) then 1 else 0
  }

  function Calls(rs: Ruleset, name: Name): nat {
    Total(rs, CallsIn(name))
  }

  /** No call is left over when the count is zero. */
  lemma {:induction false} NoCallsMeansNone(rs: Ruleset, name: Name, k: nat, i: nat)
    requires k < |rs| && i < |rs[k].rules| && Calls(rs, name) == 0
    ensures rs[k].rules[i].action != Call(name)
  {
    TotalBounds(rs, k, k, CallsIn(name));
    TotalBounds(rs[k].rules, i, i, IsCall(name));
  }

  // ------------------------------------------------------------------------------------- operations

  function StandardAction(t: Target, verdict: int): Result<Action> {
    if IsStandardSized(t) then Ok(Verdict(verdict)) else Err(EINVAL)
  }

  /** What the target of an entry given by the user stands for in table `rs`. */
  function ActionFor(rs: Ruleset, t: Target): Result<Action> {
    if t.name == "" then Ok(Continue)
    else if t.name == "ACCEPT" then StandardAction(t, ACCEPT)
    else if t.name == "DROP" then StandardAction(t, DROP)
    else if t.name == "QUEUE" then StandardAction(t, QUEUE)
    else if t.name == "RETURN" then StandardAction(t, RETURN)
    else match Lookup(rs, t.name)
      case None => Ok(Extension(t.name, t.data))
      case Some(k) => if rs[k].hook > 0 then Err(EINVAL) else Ok(Call(t.name))
  }

  function RuleFor(rs: Ruleset, e: Entry): Result<Rule> {
    match ActionFor(rs, e.target)
    case Ok(a) => Ok(Rule(e.ip, e.matches, TargetSize(e.target), a))
    case Err(errno) => Err(errno)
  }

  function WithRules(rs: Ruleset, k: nat, rules: seq<Rule>): Ruleset
    requires k < |rs|
  {
    rs[k := rs[k].(rules := rules)]
  }

  function Insert(rs: Ruleset, chain: Name, e: Entry, n: nat): Result<Ruleset> {
    match Lookup(rs, chain)
    case None => Err(ENOENT)
    case Some(k) =>
      if n > |rs[k].rules| then Err(E2BIG)
      else match RuleFor(rs, e)
        case Err(errno) => Err(errno)
        case Ok(r) => Ok(WithRules(rs, k, InsertAt(rs[k].rules, n, r)))
  }

  function Replace(rs: Ruleset, chain: Name, e: Entry, n: nat): Result<Ruleset> {
    match Lookup(rs, chain)
    case None => Err(ENOENT)
    case Some(k) =>
      if n >= |rs[k].rules| then Err(E2BIG)
      else match RuleFor(rs, e)
        case Err(errno) => Err(errno)
        case Ok(r) => Ok(WithRules(rs, k, rs[k].rules[n := r]))
  }

  function Append(rs: Ruleset, chain: Name, e: Entry): Result<Ruleset> {
    match Lookup(rs, chain)
    case None => Err(ENOENT)
    case Some(k) => Insert(rs, chain, e, |rs[k].rules|)
  }

  function DeleteNum(rs: Ruleset, chain: Name, n: nat): Result<Ruleset> {
    match Lookup(rs, chain)
    case None => Err(ENOENT)
    case Some(k) =>
      if n >= |rs[k].rules| then Err(E2BIG)
      else Ok(WithRules(rs, k, RemoveAt(rs[k].rules, n)))
  }

  function Flush(rs: Ruleset, chain: Name): Result<Ruleset> {
    match Lookup(rs, chain)
    case None => Err(ENOENT)
    case Some(k) => Ok(WithRules(rs, k, []))
  }

  const RESERVED: seq<Name> := ["DROP", "ACCEPT", "QUEUE", "RETURN"]

  /** Where a new user chain goes: before the first user chain that is not below it. */
  function Place(rs: Ruleset, name: Name): (p: nat)
    ensures p <= |rs|
    ensures p < |rs| ==> rs[p].hook == 0 && !Less(rs[p].name, name)
    ensures forall k :: 0 <= k < p && rs[k].hook == 0 ==> Less(rs[k].name, name)
  {
    if rs == [] then 0
    else
      var p := Place(rs[..|rs| - 1], name);
      if p < |rs| - 1 then p
      else if rs[p].hook == 0 && !Less(rs[p].name, name) then p
      else p + 1
  }

  function Create(rs: Ruleset, name: Name): Result<Ruleset> {
    if Lookup(rs, name).Some? || name in RESERVED then Err(EEXIST)
    else if |name| > MAX_NAME then Err(EINVAL)
    else Ok(InsertAt(rs, Place(rs, name), Chain(name, 0, RETURN, [])))
  }

  function Delete(rs: Ruleset, name: Name): Result<Ruleset> {
    match Lookup(rs, name)
    case None => Err(ENOENT)
    case Some(k) =>
      if rs[k].hook > 0 then Err(EINVAL)
      else if Calls(rs, name) > 0 then Err(EMLINK)
      else if rs[k].rules != [] then Err(ENOTEMPTY)
      else Ok(RemoveAt(rs, k))
  }

  function SetPolicy(rs: Ruleset, chain: Name, policy: Name): Result<Ruleset> {
    match Lookup(rs, chain)
    case None => Err(ENOENT)
    case Some(k) =>
      if rs[k].hook == 0 then Err(ENOENT)
      else if policy == "ACCEPT" then Ok(rs[k := rs[k].(policy := ACCEPT)])
      else if policy == "DROP" then Ok(rs[k := rs[k].(policy := DROP)])
      else Err(EINVAL)
  }

  // --------------------------------------------------------------------------- deletion by pattern

  predicate BitsAgree(x: bv8, y: bv8, mask: bv8) { (x ^ y) & mask == 0 }

  /** `a` and `b` agree wherever `mask`, read from `off` on, has bits set. */
  predicate SameBytes(a: Bytes, b: Bytes, mask: Bytes, off: nat) {
    && |a| == |b|
    && off + |a| <= |mask|
    && forall i :: 0 <= i < |a| ==> BitsAgree(a[i], b[i], mask[off + i])
  }

  predicate MaskedSame(x: bv8, xMask: bv8, y: bv8, yMask: bv8) { xMask == yMask && x & xMask == y & yMask }

  /** Interfaces agree: the same mask, and the same name under it. */
  predicate SameInterface(a: Interface, aMask: Interface, b: Interface, bMask: Interface) {
    forall i :: 0 <= i < 16 ==> MaskedSame(a[i], aMask[i], b[i], bMask[i])
  }

  predicate SameIp(a: Ip, b: Ip) {
    && a.src == b.src && a.srcMask == b.srcMask && a.dst == b.dst && a.dstMask == b.dstMask
    && a.proto == b.proto && a.flags == b.flags && a.invFlags == b.invFlags
    && SameInterface(a.inIface, a.inMask, b.inIface, b.inMask)
    && SameInterface(a.outIface, a.outMask, b.outIface, b.outMask)
  }

  /** Matches agree pairwise; the mask lies over the entry byte for byte, so the data of match `k` meets
      the mask at the place where it lies in the entry. */
  predicate SameMatches(a: seq<Match>, b: seq<Match>, mask: Bytes) {
    && |a| == |b|
    && forall k :: 0 <= k < |a| ==>
        a[k].name == b[k].name
        && SameBytes(a[k].data, b[k].data, mask, ENTRY_SIZE + MatchesSize(a[..k]) + HEADER_SIZE)
  }

  predicate SameAction(a: Action, b: Action, mask: Bytes, off: nat) {
    match (a, b)
    case (Extension(n, d), Extension(n', d')) => n == n' && SameBytes(d, d', mask, off)
    case _ => a == b
  }

  /** The comparison made when a rule is deleted by giving an equal one. */
  predicate Same(a: Rule, b: Rule, mask: Bytes) {
    && SameIp(a.ip, b.ip)
    && SameMatches(a.matches, b.matches, mask)
    && a.targetSize == b.targetSize
    && SameAction(a.action, b.action, mask, ENTRY_SIZE + MatchesSize(a.matches) + HEADER_SIZE)
  }

  /** The first rule from `i` on that is the same as `r`. */
  function FirstSame(rules: seq<Rule>, r: Rule, mask: Bytes, i: nat): (n: Option<nat>)
    requires i <= |rules|
    ensures n.Some? ==> i <= n.value < |rules| && Same(r, rules[n.value], mask)
    ensures n.Some? ==> forall j :: i <= j < n.value ==> !Same(r, rules[j], mask)
    ensures n.None? ==> forall j :: i <= j < |rules| ==> !Same(r, rules[j], mask)
    decreases |rules| - i
  {
    if i == |rules| then None
    else if Same(r, rules[i], mask) then Some(i)
    else FirstSame(rules, r, mask, i + 1)
  }

  function DeleteSame(rs: Ruleset, chain: Name, e: Entry, mask: Bytes): Result<Ruleset> {
    match Lookup(rs, chain)
    case None => Err(ENOENT)
    case Some(k) =>
      match RuleFor(rs, e)
      case Err(errno) => Err(errno)
      case Ok(r) =>
        match FirstSame(rs[k].rules, r, mask, 0)
        case None => Err(ENOENT)
        case Some(i) => Ok(WithRules(rs, k, RemoveAt(rs[k].rules, i)))
  }

  /** The binding's comparison mask: nothing but the header and the sizes is compared. */
  const DELETE_MASK: Bytes := Zeros(1024)
}
