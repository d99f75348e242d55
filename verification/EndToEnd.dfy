/** From the scheduler down to the kernel's blob: the holes that are open, the rules of the chain, and what the
    kernel does with a packet are the same thing. */
module EndToEnd {
  import opened Names
  import opened Seqs
  import opened Rulesets
  import opened Cache
  import opened Layout
  import opened Compiler
  import opened Walk
  import opened RoundTrip
  import opened Mangle
  import opened Packets
  import opened Verdicts
  import opened Fate
  import HandleFacts
  import opened Wall
  import S = Schedule
  import R = ScheduleRuns

  /** A packet's answers do not depend on conditions that are not there. */
  lemma {:induction false} AnswersUnconditionally(o: Oracle, s: Setup, p: Packet)
    requires AnswersFor(o, s, p)
    ensures Unconditional(o)
  {
    LoMatches(p);
    BitFacts(0, 0, p.src, 0);
    BitFacts(0, 0, p.dst, 0);
    PlainHeaderMatches(BLANK_IP, p);
    hide HeaderMatches, InterfaceMatches, Under;
    assert OwnMatches(s, []) && Holds(s, BLANK_IP, [], p);
  }

  /** At `off` lies an entry that stands for rule `r`. */
  ghost predicate EntryOfRule(image: seq<ChainHead>, off: nat, r: Rule) {
    exists k, i ::
      0 <= k < |image| && 0 <= i < |image[k].rules|
      && image[k].rules[i].offset == off && AbsRule(image[k].rules[i]) == r
  }

  /** PREROUTING stands in the table in force where it stood in the host's. */
  lemma {:induction false} PreroutingStays(env: Env, wall: Table, evs: seq<R.Timed>)
    requires Shows(env, wall, []) && Lookup(env.host, PREROUTING).Some?
    requires R.LegalRun(env, S.Initially(wall), evs) && R.NothingBreaks(env, S.Initially(wall), evs)
    ensures var table, pre := R.Run(env, S.Initially(wall), evs).wall.inForce, Lookup(env.host, PREROUTING).value;
      pre < |table| && table[pre].name == PREROUTING && table[pre].hook > 0
  {
    hide *;
    var st := R.Run(env, S.Initially(wall), evs);
    R.StartsValid(env, wall);
    R.RunEndsValid(env, S.Initially(wall), evs);
    R.ChainMirrorsHoles(env, st);
    ShownTable(env, wall, []);
    InstalledPlaces(env.host, env.setup, st.rules);
    HostPlaces(env.host);
    InstalledLonger(env.host, env.setup, st.rules);
  }

  lemma {:induction false} InstalledLonger(rs: Ruleset, s: Setup, sources: seq<Address>)
    requires Lookup(rs, PREROUTING).Some?
    ensures Lookup(rs, PREROUTING).value < |rs| < |Installed(rs, s, sources)|
  {
    hide ChainRules, JumpRule;
  }

  /** The hook of PREROUTING is the first one. */
  lemma {:induction false} PreroutingHook(image: seq<ChainHead>, b: Blob, k: nat)
    requires Compiled(image, b) && k < |Abs(image)| && Abs(image)[k].name == PREROUTING && Abs(image)[k].hook > 0
    ensures k < |image| && image[k].hook == 1 && 0 in b.hooks && 0 in b.underflows
    ensures b.underflows[0] == Offset(image, Spot(k, |image[k].rules|))
  {
    HandleFacts.AbsAt(image, k);
    assert HookHeld(b, image[k]);
    assert HOOK_NAMES[Abs(image)[k].hook - 1] == PREROUTING;
  }

  /** What a walk over the chains comes to, the walk over the blob comes to. */
  lemma {:induction false} SeenInBlob(image: seq<ChainHead>, b: Blob, s: Setup, o: Oracle, p: Packet, pre: nat, n: nat,
                                      open: bool)
    requires pre < |Abs(image)| && WebFate(Abs(image), s, o, p, pre, n, open)
    requires image != [] && pre < |image| && image[pre].hook == 1 && 0 in b.hooks && 0 in b.underflows
    requires b.underflows[0] == Offset(image, Spot(pre, |image[pre].rules|))
    requires StateOk(image, Run(Abs(image), o, n, Start(Abs(image), pre)))
    requires BlobRun(b, o, n, BlobStart(b, 0)) == Image(image, Run(Abs(image), o, n, Start(Abs(image), pre)))
    ensures var fate := BlobRun(b, o, n, BlobStart(b, 0));
      if !OnInterfaces(s, p) then fate.At? && fate.place == b.underflows[0]
      else if open then Accepted(fate)
      else fate.At? && EntryOfRule(image, fate.place, TproxyRule(s))
  {
    hide OnInterfaces, Run, BlobRun, Start, BlobStart, TproxyRule, AbsRule;
    HandleFacts.AbsAt(image, pre);
    var f := Run(Abs(image), o, n, Start(Abs(image), pre));
    if OnInterfaces(s, p) && !open {
      HandleFacts.AbsAt(image, f.place.chain);
      assert Offset(image, f.place) == image[f.place.chain].rules[f.place.rule].offset;
    }
  }

  /** In the kernel's blob, too: a web request that enters it at the hook of PREROUTING and passes the host's
      rules comes to the end of that hook's chain if it does not have the configured interfaces, is accepted if
      its source has an open hole, and otherwise reaches the entry of the bouncer's rule. */
  lemma {:induction false} WebRequestInKernel(env: Env, wall: Table, evs: seq<R.Timed>, o: Oracle, p: Packet,
                                              image: seq<ChainHead>, b: Blob, m: nat) returns (n: nat)
    requires Shows(env, wall, [])
    requires R.LegalRun(env, S.Initially(wall), evs) && R.NothingBreaks(env, S.Initially(wall), evs)
    requires AnswersFor(o, env.setup, p) && IsWebRequest(env.setup, p) && Lookup(env.host, PREROUTING).Some?
    requires Compiled(image, b) && PoliciesOk(image)
    requires Abs(image) == R.Run(env, S.Initially(wall), evs).wall.inForce
    requires PassesHost(Abs(image), o, Lookup(env.host, PREROUTING).value, m)
    ensures 0 in b.hooks && 0 in b.underflows
    ensures var fate := BlobRun(b, o, n, BlobStart(b, 0));
      if !OnInterfaces(env.setup, p) then fate.At? && fate.place == b.underflows[0]
      else if HasHole(R.Run(env, S.Initially(wall), evs), p.src) then Accepted(fate)
      else fate.At? && EntryOfRule(image, fate.place, TproxyRule(env.setup))
  {
    hide *;
    var st := R.Run(env, S.Initially(wall), evs);
    n := WebRequestFate(env, wall, evs, o, p, m);
    AnswersUnconditionally(o, env.setup, p);
    var pre := Lookup(env.host, PREROUTING).value;
    PreroutingStays(env, wall, evs);
    PreroutingHook(image, b, pre);
    MeaningPreserved(image, b, o, pre, n);
    SeenInBlob(image, b, env.setup, o, p, pre, n, HasHole(st, p.src));
  }
}
