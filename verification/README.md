# A verified model of cattivo's firewall

cattivo is a captive portal. It lets clients through for a limited time by
editing the Linux packet filter. This project models the parts of it that
decide whether a packet gets through, in Dafny, and proves that they do what
they are there for. `dafny verify dfyconfig.toml` checks the whole project.

The files, from the bottom up:

- `Names`, `Seqs`: chain names under `strcmp`; edits of sequences and counting
  over them.
- `Rulesets`: what a table means, as named chains of rules, with the editing
  operations of libiptc as functions. `Editing` and `EditRuns`: what these
  operations keep, undo and leave alone, over whole runs. `Outcomes`: when they
  fail, and how. `Packets`: what a rule's header asks of a packet, and why rules
  that compare equal ask the same.
- `LinkedRules`: the circular doubly linked list under every rule edit, on the
  heap, shown to act as a sequence. `LinkedEdits`: the library's rule edits on
  it, shown to be those of `Rulesets`.
- `Cache`, `ChainIndex`, `LookupFacts`, `HandleFacts`, `Deletion`, `Handles`:
  the table handle with its caches (reference counts, rule counts, the bucketed
  chain index, counter maps) as a class. Every method is proved against its
  function in `Rulesets` and keeps all caches exact.
- `Layout`, `Compiler`, `Walk`: compiling the handle into the kernel's blob in
  two passes, and why walking the blob is walking the chains. `Verdicts`: what the
  numbers in a table mean to the kernel.
- `Parser`, `RoundTrip`, `Reread`: parsing the blob, and why that gives a
  compiled table back. `ParserOrder`, `Reading`, `ReadTables`: parsing any table
  that the kernel may hold, its user chains in any order: nothing is lost, the
  chains come out sorted, they mean what the table meant, and they make a valid
  handle. `KernelTables`: compiled tables are such tables.
- `SelfCheck`: the library's own disabled checks on a blob, and exactly when a
  compiled table passes them.
- `Snapshot`, `Commit`, `Tables`: reading and committing a table while packets
  keep arriving, and the life of the binding's table object. `Slots`, `Counting`:
  where each counter is to come from, call by call, and what it comes out as.
  `EntryLayout`: how the binding lays out one entry. `Interfaces`: how it turns
  the name of an interface into a mask.
- `Mangle`: the chain that the firewall keeps in the mangle table, and the
  operations on it.
- `Wall`: the firewall's table as its callers see it, edited and in force: two
  edits and a commit for each client, setting up and taking down, and any of these
  operations may fail. `Base`: the object that does this, shown to do it whichever
  operations fail. `Lifecycle`: what setting up and taking down leave.
- `Items`, `Leftovers`: what failing calls leave in the table, rule by rule, and
  when it comes in force. `Fate`: what becomes of a packet, from PREROUTING on.
- `Schedule`, `ScheduleRuns`, `HoleTables`: the scheduler of holes. `AnyState`:
  what its calls do in any state, consistent or not. `ChainOrder`: in which order
  the rules of the holes stand.
- `Firewalls`: questions, lookups and their interleavings. `EndToEnd`: from open
  holes to the kernel's blob.
- `Masks`, `Registry`: address masks as text and as prefix lengths; the
  registry of extensions.

The invariant of a handle (`Handles.Handle.Valid`) says: names differ, builtin
chains come first and user chains are strictly sorted; every jump leads to a
user chain; the reference count of a chain is the number of jumps to it; rule
counts are exact; the index is an ordered part of the user chains that starts
with the first, or the list head alone; and every counter taken over from the
kernel exists, is as it was read, and is taken over once.

Where the code and its comments disagree the code is followed: the result of
the first pass of the parser is not looked at, so an entry that cannot be read
ends that pass and the second pass still runs (libiptc.c:953); the binding's
delete mask is all zeros, so the data of extensions is not compared
(pyipt-table.c:232).

The invariant of the scheduler (`Schedule.Valid`) says: dictionary and list hold
the same holes; the list is sorted by deadline; a timer is armed if and only if
there is a hole, and for the earliest deadline; the table, edited and in force, is
the host's table with the firewall installed; and the addresses that the chain lets
through are those of the open holes. The clock stands still during a call: the
source reads it again for every comparison of two entries (holes.py:41-52,
146-147), and the model gives all these readings the same value. Without that,
two equal deadlines may also compare unequal. Between cleaning up and installing
there is no chain; `Firewalls.InAgreement` covers both times.

## Findings

Where the code does not do what it is meant to do, the input, the lines, and the
result that says exactly when:

- Removing a hole can take another one out of the list. Input: clients a and b are
  let in with the same deadline, a first, and then b is removed. Entries compare by
  time left (holes.py:45-52), and `list.remove` (holes.py:122) takes the first that
  compares equal. When the timer fires it meets the hole that is gone, raises, and
  is not armed again: a stays let through (`ScheduleRuns.EqualDeadlinesLeak`;
  exactly when: `Schedule.RemovingKeepsValidIff`).
- `removeAll` can leave a timer armed on an empty list. Input: the same two holes,
  and `removeAll` (holes.py:127-129); when the timer fires, holes.py:152 raises
  IndexError (`ScheduleRuns.RemoveAllLeavesTimer`; exactly when:
  `Schedule.RemovingAllEmpties` and `Schedule.RemovingAllCrosses`).
- A client that the firewall fails to let in stays in the dictionary, and may be
  let through all the same. Input: a lookup for an eligible client completes while
  the chain is missing or has fewer than two rules, as before the firewall is
  initialized, or while a table operation fails. The entry is made before the
  firewall is called (holes.py:68-75) and not taken back; the exception becomes a no
  (firewall.py:102-105), and nothing waits to close the hole. A question with the
  same pair is answered yes from then on (firewall.py:59-61); one with another
  second component, as from the bouncer, is looked up and refused. A failing commit
  keeps the snapshot with its edits (pyipt-table.c:272-276), and so does a failing
  second insertion. The next call that gets through, for whatever client, puts them
  in force: the refused client is let through, and nothing in the scheduler ends that
  (`Firewalls.RefusedRuleLeavesClient`, `Firewalls.RefusedClientLetThrough`; exactly
  when: `Wall.AddingSucceedsIff`, `Leftovers.RefusedAddComesInForce`).
- A client that the firewall fails to shut out loses its hole (holes.py:111-123),
  and its rules stay in force for the time being. With the next call that gets
  through it loses them if the commit was what failed; if one of the deletions
  failed, its accept rule stays (`Schedule.RefusedRemovalBreaks`; exactly
  when: `Leftovers.RefusedRemovalComesInForce`).
- A client that has an open hole is told no when the bouncer asks for it. Input:
  holes are kept under the address and 0 (clientlist/http/client.py:62-66), and the
  bouncer asks with the address and the source port (bouncer/http.py:46-52); the
  lookup completes, opening a second hole raises, and that becomes a no
  (`Firewalls.OtherNumberRefused`).
- The rules can stand in another order than the holes were opened. Input: holes
  opened for (1, 1), (2, 0) and (1, 2) in this order, with different deadlines, and
  (1, 1) removed: the pair that goes is the first one of address 1 (base.py:91-96),
  which belongs to the newer hole (`ChainOrder.SharedAddressOutOfOrder`; exactly
  when: `ChainOrder.RemovalKeepsOrderIff`). What is let through is the same.
- Deleting by pattern can delete another rule. Input: two rules that differ only in
  the data of an extension, the second one given. The binding compares under a mask
  of zeros (pyipt-table.c:232-246), which leaves names and sizes
  (`Editing.OtherDataDeleted`; exactly when: `Editing.ZeroMaskComparesShape`).
- The library's own check fails on tables that the library builds. Input: a chain
  whose first rule calls the chain itself (libip4tc.c:281), a chain named like the
  extension of a rule made before it, or a chain named `ERROR` (libip4tc.c:262)
  (`SelfCheck.SelfCallFails`; exactly when: `SelfCheck.CompiledPassesIff`).

## Model

| member | source | states |
|---|---|---|
| `Names.Trichotomy` | cattivo/firewall/iptables/libiptc/libiptc.c:783-792 | `strcmp` separates any two different chain names, one way only, so sorting user chains by it is well defined |
| `ChainIndex.BinarySearch` | cattivo/firewall/iptables/libiptc/libiptc.c:319-389 | on a sorted index the search with its own probing order (a jump back goes to half the position and forgets the lower bound) finds the last slot not beyond the name, or slot 0, and within (floor(log2 n) + 1)^2 probes |
| `ChainIndex.LinearSearch` | cattivo/firewall/iptables/libiptc/libiptc.c:394-420 | the straight walk finds that same slot |
| `ChainIndex.SearchesAgree` | cattivo/firewall/iptables/libiptc/libiptc.c:319-420 | the two searches return the same slot on every sorted index and every name |
| `ChainIndex.JumpBackOnBudget` | cattivo/firewall/iptables/libiptc/libiptc.c:357-367 | a jump back at least halves the distance from the end to the slot sought |
| `ChainIndex.JumpForwardOnBudget` | cattivo/firewall/iptables/libiptc/libiptc.c:368-385 | a jump forward halves the way to the end of the window |
| `LookupFacts.NothingBeforeStart` | cattivo/firewall/iptables/libiptc/libiptc.c:652-659 | no chain in front of the slot's chain can be the one sought, so starting there loses nothing |
| `LookupFacts.IndexAfterCreate` | cattivo/firewall/iptables/libiptc/libiptc.c:762-801 | moving slot 0 when the new chain is the least keeps the index an ordered part of the user chains that starts with the first |
| `LookupFacts.IndexAfterShift` | cattivo/firewall/iptables/libiptc/libiptc.c:535-570 | the deleted chain's slot may move on to the next chain when that falls into the same slot; an index of one slot may come to point at the list head |
| `LookupFacts.IndexAfterDelete` | cattivo/firewall/iptables/libiptc/libiptc.c:535-570 | deleting a chain that no slot points to leaves the index good |
| `Handles.Handle.RebuildIndex` | cattivo/firewall/iptables/libiptc/libiptc.c:471-521 | builds an index of one slot for every 40 user chains that is ordered and starts at the first |
| `Handles.Handle.ScanBuiltins` | cattivo/firewall/iptables/libiptc/libiptc.c:643-650 | the walk over the builtin chains finds a builtin chain if and only if it has the name |
| `Handles.Handle.ScanUsers` | cattivo/firewall/iptables/libiptc/libiptc.c:683-705 | the walk over the sorted user chains, with its early stop, finds just what a scan of the whole list finds |
| `Handles.Handle.FindLabel` | cattivo/firewall/iptables/libiptc/libiptc.c:632-706 | looking a name up by way of the index gives exactly what a plain scan of all chains gives, or nothing |
| `Handles.Handle.IsBuiltin` | cattivo/firewall/iptables/libiptc/libiptc.c:1571-1585 | yes if and only if there is a builtin chain of that name |
| `Handles.Handle.GetReferences` | cattivo/firewall/iptables/libiptc/libiptc.c:2231-2246 | the stored count is the number of rules, over all chains, that jump to the chain; ENOENT without the chain |
| `Handles.Handle.constructor` | cattivo/firewall/iptables/libiptc/libiptc.c:947-957 | a handle around parsed chains is valid from the start |
| `Handles.Handle.InsertChain` | cattivo/firewall/iptables/libiptc/libiptc.c:762-801 | the chain goes exactly before the first user chain that is not below it, from wherever the index makes the walk start, and the index stays good |
| `HandleFacts.WalkToPlace` | cattivo/firewall/iptables/libiptc/libiptc.c:783-800 | the walk ends at the one place that keeps the order |
| `Handles.Handle.CreateChain` | cattivo/firewall/iptables/libiptc/libiptc.c:2172-2228 | the new ruleset is the old one with an empty chain at its place; EEXIST and EINVAL change nothing; names, order, references, index and counter maps stay right |
| `Handles.Handle.UnlinkChain` | cattivo/firewall/iptables/libiptc/libiptc.c:535-570 | taking a chain out leaves a good index, shifted or rebuilt |
| `Handles.Handle.DeleteChain` | cattivo/firewall/iptables/libiptc/libiptc.c:2249-2302 | only an uncalled, empty user chain goes; each of the four errors is reported in its own case and changes nothing |
| `Handles.Handle.MapTarget` | cattivo/firewall/iptables/libiptc/libiptc.c:1636-1685 | the resolved rule stands for what the target means in this table, a jump adds one reference to the chain called, and the handle is marked as changed if and only if it was or the target is an extension |
| `Handles.Handle.InsertEntry` | cattivo/firewall/iptables/libiptc/libiptc.c:1688-1744 | the rule becomes number n of its chain with the counter of its entry, all others keep their order and their counters; reference counts, rule counts, index and counter maps stay right; an error changes nothing, and the handle is marked as changed if and only if it was or the call succeeds |
| `Handles.Handle.AppendEntry` | cattivo/firewall/iptables/libiptc/libiptc.c:1798-1834 | the rule becomes the last one of its chain, with the same invariants |
| `Handles.Handle.ReplaceEntry` | cattivo/firewall/iptables/libiptc/libiptc.c:1747-1794 | exactly rule n is exchanged, and its counter for that of the entry; linking behind the old rule before deleting it keeps the reference counts right |
| `Handles.Handle.DeleteNumEntry` | cattivo/firewall/iptables/libiptc/libiptc.c:1977-2019 | exactly rule n goes, gives up the reference it held, and takes its counter along; all other counters stay |
| `Handles.Handle.DeleteEntry` | cattivo/firewall/iptables/libiptc/libiptc.c:1905-1973 | exactly the first rule that compares equal goes, or ENOENT and the ruleset stays; the handle is marked as changed if and only if it was, or a rule goes, or the pattern stands for an extension in a chain that is there |
| `Handles.Handle.MapPattern` | cattivo/firewall/iptables/libiptc/libiptc.c:1920-1941 | resolving the pattern takes a reference and gives it back |
| `Handles.Handle.FindSame` | cattivo/firewall/iptables/libiptc/libiptc.c:1943-1968 | the walk stops at the first rule that compares equal |
| `Handles.Handle.FlushEntries` | cattivo/firewall/iptables/libiptc/libiptc.c:2034-2055 | the chain is empty, every reference held by its rules is given up, and the counters of all other rules and of all policies stay |
| `Handles.Handle.ZeroCounter` | cattivo/firewall/iptables/libiptc/libiptc.c:2107-2134 | one rule's counter is marked as zeroed, rules are numbered from 1, and the ruleset stays the same |
| `Handles.Handle.ZeroEntries` | cattivo/firewall/iptables/libiptc/libiptc.c:2058-2081 | all counters of a chain that still come from the kernel, the policy's too, are marked as zeroed, and nothing else |
| `Handles.Handle.SetCounter` | cattivo/firewall/iptables/libiptc/libiptc.c:2136-2167 | one rule's counter is set, and the ruleset stays the same |
| `Handles.Handle.SetPolicyOf` | cattivo/firewall/iptables/libiptc/libiptc.c:2342-2384 | the policy of a builtin chain becomes ACCEPT or DROP and its counter is set or dropped; else an error and no change |
| `HandleFacts.JumpHasReference` | cattivo/firewall/iptables/libiptc/libiptc.c:709-719 | a jump in the list always has a chain with a positive count to give its reference back to |
| `HandleFacts.LinkKeeps` | cattivo/firewall/iptables/libiptc/libiptc.c:1735-1743 | linking a resolved rule keeps the whole invariant |
| `HandleFacts.UnlinkKeeps` | cattivo/firewall/iptables/libiptc/libiptc.c:709-719 | unlinking a rule keeps the whole invariant |
| `HandleFacts.RecountKeeps` | cattivo/firewall/iptables/libiptc/libiptc.c:2058-2167 | changing counters and their maps keeps the whole invariant |
| `Cache.UsersAtEnd` | cattivo/firewall/iptables/libiptc/libiptc.c:811-822 | the user chains are the last ones, as many as are counted |
| `Cache.CachesAfterEdit` | cattivo/firewall/iptables/libiptc/libiptc.c:709-719 | reference counts stay exact when they move with the calls that a chain's rules gain and lose |
| `Editing.EditKeepsWellFormed` | cattivo/firewall/iptables/libiptc/libiptc.c:1688-2055 | every rule edit keeps names different, user chains sorted behind the builtin ones, and every jump at a user chain |
| `Editing.CreateKeepsWellFormed` | cattivo/firewall/iptables/libiptc/libiptc.c:2172-2228 | so does creating a chain |
| `Editing.DeleteKeepsWellFormed` | cattivo/firewall/iptables/libiptc/libiptc.c:2249-2302 | so does deleting one, because nothing calls it |
| `Editing.SetPolicyKeepsWellFormed` | cattivo/firewall/iptables/libiptc/libiptc.c:2342-2384 | so does setting a policy |
| `Editing.DeleteNumUndoesInsert` | cattivo/firewall/iptables/libiptc/libiptc.c:1688-2019 | deleting by number what was just inserted restores the whole table |
| `Editing.DeleteSameUndoesInsert` | cattivo/firewall/iptables/libiptc/libiptc.c:1688-1973 | deleting by pattern what was just inserted restores the whole table, when no equal rule stands before it |
| `Editing.SameReflexive` | cattivo/firewall/iptables/libiptc/libip4tc.c:175-214 | a rule compares equal to itself under every mask that is long enough, the all-zero one of the binding included |
| `EditRuns.RunKeepsWellFormed` | cattivo/firewall/iptables/libiptc/libiptc.c:1688-2384 | after any sequence of calls, successful or not, the ruleset is well-formed |
| `EditRuns.CallsNeverDangle` | cattivo/firewall/iptables/libiptc/libiptc.c:2274-2284 | after any sequence of calls a rule that calls a chain finds it, and deleting that chain is refused with EMLINK |
| `EditRuns.BuiltinsStay` | cattivo/firewall/iptables/libiptc/libiptc.c:2249-2302 | after any sequence of calls every builtin chain is where it was, with its name and hook |
| `Deletion.IsSame` | cattivo/firewall/iptables/libiptc/libip4tc.c:175-214 | the loops over header, interfaces and matches decide exactly whether addresses, address masks, protocol, flags, inversion flags and interface masks are equal, the interface names under them, and the matches under the mask; and leave the mask pointer at the target |
| `Deletion.MatchesCompared` | cattivo/firewall/iptables/libiptc/libiptc.c:1836-1861 | walking both match lists with the mask pointer decides whether they agree pairwise |
| `Deletion.TargetSame` | cattivo/firewall/iptables/libiptc/libiptc.c:1863-1897 | the comparison by rule type decides exactly whether the two rules do the same |
| `Deletion.RuleIsSame` | cattivo/firewall/iptables/libiptc/libiptc.c:1946-1951 | the two comparisons together decide the equality under which rules are deleted |
| `Compiler.CompileChainOffsets` | cattivo/firewall/iptables/libiptc/libiptc.c:1088-1120 | head, rules and foot of a chain lie without gap from the given offset and count on from the given number |
| `Compiler.PlaceChains` | cattivo/firewall/iptables/libiptc/libiptc.c:1123-1144 | all chains lie one after the other, and size and number of entries are those of the layout |
| `Compiler.CompileChain` | cattivo/firewall/iptables/libiptc/libiptc.c:1040-1085 | the chain's head, rules and foot lie in the blob at their places, and what was written before is still there |
| `Compiler.WriteChains` | cattivo/firewall/iptables/libiptc/libiptc.c:1146-1168 | the blob is the image of the chains: every entry, the error node at the end, the hooks, and nothing else |
| `Compiler.CompileTable` | cattivo/firewall/iptables/libiptc/libiptc.c:1146-1168 | filling in jump offsets leaves the handle valid and its meaning as it was |
| `Walk.Compile` | cattivo/firewall/iptables/libiptc/libiptc.c:1123-1168 | both passes on a valid table give its image, and the handle still stands for the same ruleset |
| `Walk.OffsetsDiffer` | cattivo/firewall/iptables/libiptc/libiptc.c:1088-1120 | no two entries share an offset, so offsets tell which rule a packet is at |
| `Walk.JumpLandsRight` | cattivo/firewall/iptables/libiptc/libiptc.c:1015-1037 | a compiled jump leads to the first entry of the chain that it names, and never looks like a fallthrough |
| `Walk.EntriesTell` | cattivo/firewall/iptables/libiptc/libiptc.c:1015-1037 | what each rule's entry tells the kernel is what the rule means |
| `Walk.StepsAgree` | cattivo/firewall/iptables/libiptc/libiptc.c:1015-1168 | one step of a packet over the chains is one step over the blob |
| `Walk.RunsAgree` | cattivo/firewall/iptables/libiptc/libiptc.c:1015-1168 | so are any number of steps from any state |
| `Walk.MeaningPreserved` | cattivo/firewall/iptables/libiptc/libiptc.c:1015-1168 | for every packet, every answer of matches and extensions (which may change from step to step) and any number of steps, walking the blob from a hook visits the same rules in the same order, with the same return addresses, and ends in the same verdict as walking the chains with calls, returns and policies |
| `Snapshot.TilesExactly` | cattivo/firewall/iptables/libiptc/libiptc.c:1088-1168 | walking the blob from entry to entry by their sizes meets each entry once, as many as were counted, and ends exactly at its end |
| `Snapshot.WalkedTo` | cattivo/firewall/iptables/libiptc/libiptc.c:1088-1120 | entries are met in the order of their numbers |
| `SelfCheck.CheckEntries` | cattivo/firewall/iptables/libiptc/libip4tc.c:240-314 | the loop over all entries with its running offset, count and return flag accepts exactly when every entry passes where it stands |
| `SelfCheck.CompiledPassesIff` | cattivo/firewall/iptables/libiptc/libip4tc.c:262-314 | a compiled table passes the library's own checks on jumps, error nodes and returns if and only if no chain is named like an error node or like the extension of a rule, and no chain begins with a call of itself |
| `SelfCheck.SelfCallFails` | cattivo/firewall/iptables/libiptc/libip4tc.c:281 | a table and its compiled blob, given entry by entry, on which the check fails |
| `Parser.ReadEntries` | cattivo/firewall/iptables/libiptc/libiptc.c:952-954 | the first pass over the blob, entry by entry, is its specification; an error in an entry ends it early |
| `Parser.ResolveJumps` | cattivo/firewall/iptables/libiptc/libiptc.c:962-978 | the second pass gives every jump the chain in whose bytes it leads and counts it there, or fails if some jump leads nowhere |
| `Parser.ParseTable` | cattivo/firewall/iptables/libiptc/libiptc.c:946-983 | both passes together are their specification, of which `ParserOrder`, `Reading` and `ReadTables` tell what it means for any table of the kernel |
| `Parser.ResolveStep` | cattivo/firewall/iptables/libiptc/libiptc.c:962-978 | resolving one jump adds exactly one reference to its chain |
| `RoundTrip.ReadAll` | cattivo/firewall/iptables/libiptc/libiptc.c:835-942 | the first pass over a compiled blob reads all chains back in order, with their rules, policies and counters, and takes no rule for a hook, an error node or another rule type |
| `RoundTrip.HookFound` | cattivo/firewall/iptables/libiptc/libiptc.c:264-274 | hooks lead to the first entries of builtin chains and nowhere else |
| `RoundTrip.EntryRead` | cattivo/firewall/iptables/libiptc/libiptc.c:892-934 | every compiled entry is read as the rule type it had |
| `Reread.JumpFindsChain` | cattivo/firewall/iptables/libiptc/libiptc.c:614-629 | a compiled jump's offset lies in the bytes of the chain it names and of no other |
| `Reread.ParseOfCompiled` | cattivo/firewall/iptables/libiptc/libiptc.c:730-983 | parsing a compiled table gives the same chains in the same order back, with the same policies and rules, every jump at its chain, and exact reference counts |
| `Reread.FinalOk` | cattivo/firewall/iptables/libiptc/libiptc.c:946-983 | what was read stands for the same ruleset and satisfies the whole invariant of the handle, and traces every counter to one place of the blob |
| `Reread.ReadTable` | cattivo/firewall/iptables/libiptc/libiptc.c:1208-1286 | a fresh handle on a compiled table stands for the ruleset that was compiled |
| `Commit.PutBack` | cattivo/firewall/iptables/libiptc/libiptc.c:2539-2597 | the counters handed to the kernel are, slot by slot, what each counter map asks for, and zero at error nodes |
| `Commit.CountersConserved` | cattivo/firewall/iptables/libiptc/libiptc.c:2392-2449 | with X read, Y counted up to the swap and Z from then on, a kept slot ends at X+Y+Z, a zeroed one at Y+Z, a set one at its value plus Z, a new one at Z, in 64-bit arithmetic |
| `Commit.CreditMakesUp` | cattivo/firewall/iptables/libiptc/libiptc.c:2392-2449 | adding the credit to what the new table has counted gives what is wanted, for each kind of counter map |
| `Commit.NoDoubleCredit` | cattivo/firewall/iptables/libiptc/libiptc.c:2539-2597 | no old counter is credited to two slots |
| `Commit.CommitTable` | cattivo/firewall/iptables/libiptc/libiptc.c:2452-2631 | an unchanged handle leaves the kernel alone, and so does a table that the kernel refuses, after which the handle is kept as it was edited; otherwise the compiled table is in force and every rule and policy has the counter it should have, whatever passes before the snapshot is committed, until the swap and after it |
| `Commit.CountersComeOut` | cattivo/firewall/iptables/libiptc/libiptc.c:2534-2613 | the same for all slots at once, and error nodes stay at zero |
| `Snapshot.CountingKeepsMeaning` | cattivo/firewall/iptables/libiptc/libiptc.c:1257-1262 | after any packets have been counted, the kernel's table is still the image of the same ruleset |
| `Snapshot.CopyCounted` | cattivo/firewall/iptables/libiptc/libiptc.c:1257-1262 | the copy read from the kernel has the counters as they stand, entry by entry |
| `Tables.Table.MaybeCreateHandle` | cattivo/firewall/iptables/pyipt/pyipt-table.c:27-39 | the snapshot taken when first needed stands for the ruleset in force, with the kernel's count of every entry kept for that entry; an existing one is kept; when it cannot be taken nothing changes |
| `Tables.Table.InsertEntry` | cattivo/firewall/iptables/pyipt/pyipt-table.c:162-191 | inserts into the snapshot, as the library does, the new rule with its entry's counter and no other counter touched, or fails from outside and changes nothing; what is in force stays |
| `Tables.Table.AppendEntry` | cattivo/firewall/iptables/pyipt/pyipt-table.c:193-221 | appends to the snapshot, or fails from outside and changes nothing; what is in force stays |
| `Tables.Table.DeleteEntry` | cattivo/firewall/iptables/pyipt/pyipt-table.c:223-255 | deletes from the snapshot under the all-zero mask, or fails from outside and changes nothing; what is in force stays |
| `Tables.Table.FlushEntries` | cattivo/firewall/iptables/pyipt/pyipt-table.c:140-160 | empties a chain of the snapshot |
| `Tables.Table.CreateChain` | cattivo/firewall/iptables/pyipt/pyipt-table.c:96-116 | creates a chain in the snapshot |
| `Tables.Table.DeleteChain` | cattivo/firewall/iptables/pyipt/pyipt-table.c:118-138 | deletes a chain of the snapshot |
| `Tables.Table.Commit` | cattivo/firewall/iptables/pyipt/pyipt-table.c:257-280 | without a snapshot an error; a table that the kernel refuses leaves the snapshot with all its edits, and what is in force stays; otherwise the ruleset in force becomes the edited one and the snapshot is given up; a counter that was kept is then the kernel's count when the commit began plus what has passed since, a zeroed one is that less what was read, a given one its value plus what has passed in the new table, a new one just that, all modulo 2^64 |
| `Tables.Table.Traffic` | cattivo/firewall/iptables/pyipt/pyipt-table.c:27-39 | packets counted at any time change no ruleset, and the snapshot stays the kernel's counters less what has passed since |
| `Tables.ReadKernel` | cattivo/firewall/iptables/libiptc/libiptc.c:1208-1286 | a snapshot taken after any traffic stands for the ruleset in force and holds the kernel's counters, each in the slot of its own entry |
| `Tables.FitsIsReady` | cattivo/firewall/iptables/libiptc/libiptc.c:1015-1037 | what the compiler needs of the rules can be told from the ruleset alone |
| `EntryLayout.Generate` | cattivo/firewall/iptables/pyipt/pyipt-entry.c:228-269 | matches and target lie one behind the other, and the header's two offsets point at the target and behind it |
| `EntryLayout.MatchesReadBack` | cattivo/firewall/iptables/pyipt/pyipt-entry.c:228-269 | stepping through the entry by match sizes meets all matches in order and ends just at the target |
| `LinkedRules.LinkBetween` | cattivo/firewall/iptables/libiptc/linux_list.h:72-80 | the new link stands between its neighbours and all other links are linked as before |
| `LinkedRules.ListAdd` | cattivo/firewall/iptables/libiptc/linux_list.h:90-93 | the new link stands behind the given one |
| `LinkedRules.ListAddTail` | cattivo/firewall/iptables/libiptc/linux_list.h:103-106 | the new link stands in front of the given one, at the end if that is the head |
| `LinkedRules.ListDel` | cattivo/firewall/iptables/libiptc/linux_list.h:174-191 | the list is linked around the removed link |
| `LinkedRules.RuleChain.GetRuleNum` | cattivo/firewall/iptables/libiptc/libiptc.c:584-596 | the walk from the front returns rule n, or null |
| `LinkedRules.RuleChain.GetRuleNumReverse` | cattivo/firewall/iptables/libiptc/libiptc.c:599-611 | the walk from the back returns rule n from the end, or null |
| `LinkedRules.RuleChain.RuleAt` | cattivo/firewall/iptables/libiptc/libiptc.c:1764-1768 | from whichever half the walk starts, it ends at rule n |
| `LinkedRules.RuleChain.Insert` | cattivo/firewall/iptables/libiptc/libiptc.c:1705-1743 | the linked list acts as insertion at place n of a sequence, and the rule count as its length |
| `LinkedRules.RuleChain.Append` | cattivo/firewall/iptables/libiptc/libiptc.c:1826-1832 | the linked list acts as appending to a sequence |
| `LinkedRules.RuleChain.Replace` | cattivo/firewall/iptables/libiptc/libiptc.c:1763-1789 | the linked list acts as exchanging element n, whichever half the walk starts from |
| `LinkedRules.RuleChain.DeleteNum` | cattivo/firewall/iptables/libiptc/libiptc.c:1992-2014 | the linked list acts as removing element n, whichever half the walk starts from |
| `LinkedRules.RuleChain.Flush` | cattivo/firewall/iptables/libiptc/libiptc.c:2046-2050 | takes every link out |
| `HoleTables.Holes.Add` | cattivo/holes.py:62-81 | a client with a hole is refused; a new one gets its entry, its rule, its place by deadline, and the timer is set anew if and only if it is now the earliest; when the firewall fails it is left in the dictionary and not in the list |
| `HoleTables.Holes.RescheduleNextExpiration` | cattivo/holes.py:83-98 | the loop closes holes from the front while they are due and arms the timer for the first that is not; an exception in it leaves no timer |
| `HoleTables.Holes.RemoveEntry` | cattivo/holes.py:109-125 | takes the client out of the dictionary before anything else, the first entry of equal deadline out of the list, and the first rule for the address out of the firewall; each exception leaves what had been done before it (in any state: `AnyState.TakingOutEnds`); tells whether the client's entry was the head |
| `HoleTables.Holes.Remove` | cattivo/holes.py:104-107 | removes the client and sets the timer anew if and only if its entry was the head of the list |
| `HoleTables.Holes.RemoveAll` | cattivo/holes.py:127-129 | removes the clients of a snapshot of the list one by one, latest deadline first, up to the first exception |
| `HoleTables.Holes.HoleExpired` | cattivo/holes.py:149-154 | forgets the timer and removes the client at the head, or raises IndexError on an empty list |
| `HoleTables.Holes.GetNextExpiration` | cattivo/holes.py:140-144 | the least time left of all holes, or none |
| `HoleTables.BisectRight` | cattivo/holes.py:77 | the place behind all holes due no later |
| `ScheduleRuns.WhoStaysOpen` | cattivo/holes.py:62-129 | a step leaves open exactly what it was asked to, less the overdue holes if it sets the timer anew |
| `ScheduleRuns.NeverEarly` | cattivo/holes.py:83-98 | over any run no hole is closed before its deadline unless somebody asks for it |
| `ScheduleRuns.NeverLate` | cattivo/holes.py:83-98 | some open hole is overdue if and only if the timer is |
| `Mangle.AddingClient` | cattivo/firewall/iptables/base.py:84-89 | the client's log and accept rules stand in front of all others but the two fixed ones |
| `Mangle.RemovingClient` | cattivo/firewall/iptables/base.py:91-96 | exactly the first pair of rules for the address goes, or an error and no change, although the delete mask compares no extension data |
| `Mangle.ClientsComeAndGo` | cattivo/firewall/iptables/base.py:84-96 | adding and removing clients changes nothing else in the table |
| `Mangle.CleaningRestores` | cattivo/firewall/iptables/base.py:64-82 | cleaning an installed table gives back the table as it was before: the jump goes, then the rules, and then the chain can be deleted |
| `Mangle.InitializingInstalls` | cattivo/firewall/iptables/base.py:36-62 | initializing installs the chain and the jump with no client, whether or not the firewall was installed already |
| `Mangle.RunInstalls` | cattivo/firewall/iptables/base.py:36-96 | after any run of clients the chain is authenticator, local, one log and accept pair for each source let through, newest first, and tproxy |
| `Mangle.WholeRunRestores` | cattivo/firewall/iptables/base.py:36-96 | after initializing and any run of clients, cleaning leaves every other chain and rule as it was, and the chain is gone |
| `Base.IPTablesFirewall.AddClient` | cattivo/firewall/iptables/base.py:84-89 | whichever of the two edits and the commit fail, the table edited and the table in force become what `Wall.ClientAdded` says, and the call raises just when that fails |
| `Base.IPTablesFirewall.RemoveClient` | cattivo/firewall/iptables/base.py:91-96 | likewise what `Wall.ClientRemoved` says |
| `Base.IPTablesFirewall.DropJump` | cattivo/firewall/iptables/base.py:65-69 | the jump goes if it is there and nothing fails; without the chain nothing is tried |
| `Base.IPTablesFirewall.Clean` | cattivo/firewall/iptables/base.py:64-82 | whichever operations fail, table edited and table in force become what `Wall.TakenDown` says; without failures it does not raise |
| `Base.IPTablesFirewall.Install` | cattivo/firewall/iptables/base.py:39-54 | the chain is committed before the jump into it, which asks for the configured interfaces (`Fate.JumpMatches`); whichever operations fail, the tables become what `Wall.SetUp` says, and the call raises just when that fails |
| `Base.IPTablesFirewall.Initialize` | cattivo/firewall/iptables/base.py:36-62 | cleans up, and then installs unless cleaning up has raised |
| `Fate.WhenRulesMatch` | cattivo/firewall/iptables/base.py:99-153 | which packets each rule of the chain, the log rule too, matches, bit by bit of addresses and interface names |
| `Fate.PacketFate` | cattivo/firewall/iptables/base.py:39-54 | whatever log and accept rules stand in the chain, every packet that enters it is accepted, which is the kernel's verdict 1, reaches the bouncer's rule, or leaves the chain again, exactly as protocol, port, addresses and interface say |
| `Firewalls.SecondLookupRefused` | cattivo/firewall/firewall.py:97-105 | after a lookup that answered yes, any later one that completes for the client answers no and changes nothing, whatever happens in between, as long as nothing breaks, nobody removes the client or cleans up, and its hole is not due |
| `Firewalls.InterleavingsStayValid` | cattivo/firewall/firewall.py:31-105 | over any interleaving of questions, completions, failures, removals, expiries, cleaning and installing: dictionary, list, table and timer agree after every step if and only if no step was a breaking one; among these is letting a client in while the chain is not there, and a failure half-way through taking down or setting up |
| `Firewalls.Firewall.ClientAllowed` | cattivo/firewall/firewall.py:56-74 | yes at once if and only if the client has a hole; else a lookup |
| `Firewalls.Firewall.GetClientCb` | cattivo/firewall/firewall.py:97-105 | yes if and only if the hole was opened without an exception; any exception turns into a no and leaves its half-way state |
| `Firewalls.Firewall.AddClientHole` | cattivo/firewall/firewall.py:84-95 | no, without a change, for a client whose time is up; otherwise the outcome of opening a hole for the time that is left |
| `Firewalls.Firewall.RemoveClient` | cattivo/firewall/firewall.py:76-82 | removes the client's hole; not removed is answered on a HoleError, which can be that of another client in catching up; any other exception is passed on |
| `Firewalls.RemovalTellsTruth` | cattivo/firewall/firewall.py:76-82 | in a valid state a removal answers no if and only if the client has no hole, and nothing changes then; unless it breaks something it answers yes otherwise, and the hole is gone |
| `HandleFacts.MappedIsRight` | cattivo/firewall/iptables/libiptc/libiptc.c:1613-1685 | reserved names stand for their verdicts if the target is standard-sized, the empty name for falling through, a user chain for a jump, a builtin chain for an error, any other name for an extension; sizes and counters are kept |
| `Handles.Handle.MapNamed` | cattivo/firewall/iptables/libiptc/libiptc.c:1657-1684 | a name that is not reserved is looked up, and a jump adds one reference to the chain called |
| `Handles.Handle.ReplaceRule` | cattivo/firewall/iptables/libiptc/libiptc.c:1770-1791 | linking behind the old rule and then deleting that one exchanges exactly rule n |
| `Handles.Handle.EmptyChain` | cattivo/firewall/iptables/libiptc/libiptc.c:2046-2050 | deleting rule by rule empties the chain and gives up every reference |
| `Editing.ZeroMaskComparesShape` | cattivo/firewall/iptables/pyipt/pyipt-table.c:232-246 | under a mask of zeros two rules compare equal if and only if they have the same header, the same match and extension names with data of the same sizes, and do the same |
| `Editing.ShapeDeleted` | cattivo/firewall/iptables/pyipt/pyipt-table.c:232-246 | the binding's mask is such a mask, and a rule of the same shape that stands in front is deleted in place of the one given |
| `Editing.OtherDataDeleted` | cattivo/firewall/iptables/pyipt/pyipt-table.c:232-246 | two rules that differ in the data of an extension: the second one is given, and the first one is deleted |
| `LinkedEdits.InsertLinked` | cattivo/firewall/iptables/libiptc/libiptc.c:1705-1743 | inserting at place n on a linked chain is the operation specified for rulesets |
| `LinkedEdits.ReplaceLinked` | cattivo/firewall/iptables/libiptc/libiptc.c:1763-1791 | exchanging rule n on a linked chain is the operation specified for rulesets |
| `LinkedEdits.DeleteNumLinked` | cattivo/firewall/iptables/libiptc/libiptc.c:1992-2016 | deleting rule n on a linked chain is the operation specified for rulesets |
| `LinkedEdits.FindSameLinked` | cattivo/firewall/iptables/libiptc/libiptc.c:1943-1951 | the walk along the links with the mask running along every rule finds the first rule that compares equal, or none |
| `LinkedEdits.DeleteSameLinked` | cattivo/firewall/iptables/libiptc/libiptc.c:1943-1972 | deleting by pattern on a linked chain is the operation specified for rulesets, or ENOENT and no change |
| `LinkedRules.RuleChain.LinkIn` | cattivo/firewall/iptables/libiptc/libiptc.c:1737-1738 | linking in before a rule, or before the head, makes the new rule rule n |
| `LinkedRules.RuleChain.DeleteRule` | cattivo/firewall/iptables/libiptc/libiptc.c:709-719 | taking a link out removes exactly that element |
| `Wall.AddingShows` | cattivo/firewall/iptables/base.py:84-89 | in an installed table letting a client in fails if and only if a table operation fails from outside, and otherwise its pair is in force in front of the others |
| `Wall.RemovingShows` | cattivo/firewall/iptables/base.py:91-96 | shutting a client out fails if and only if it has no rule or a table operation fails from outside; its first pair is then in force no more |
| `Wall.AddingSucceedsIff` | cattivo/firewall/iptables/base.py:84-89 | in any table a client is let in if and only if the chain exists with at least two rules and none of the three table operations fails from outside |
| `Wall.WithoutFaults` | cattivo/firewall/iptables/base.py:84-96 | without outside failures what is in force afterwards is what the two edits make of the table |
| `Schedule.CatchingUp` | cattivo/holes.py:88-98 | catching up closes exactly the holes that are due and arms the timer for the earliest of the others, if and only if no table operation needed for these holes fails; else it raises and the state is broken |
| `Schedule.RemovingKeepsValidIff` | cattivo/holes.py:109-125 | removing a client keeps dictionary, list, table and timer in agreement if and only if no hole with the same deadline stands before its own in the list and no table operation needed fails |
| `Schedule.AddingKeepsValidIff` | cattivo/holes.py:62-81 | opening a hole for a new client keeps everything in agreement, and closes at most holes that are due, if and only if no table operation needed fails |
| `Schedule.RefusedAddBreaks` | cattivo/holes.py:66-75 | when the firewall fails to let the client in, whatever its table, the client is left in the dictionary and not in the list; the table in force stays, and the edited one is what the failing call has made of it |
| `Schedule.RefusedRemovalBreaks` | cattivo/holes.py:109-125 | when the firewall fails to shut the client out, it is gone from the dictionary, an entry from the list, the table in force stays, and the edited one is what the failing call has made of it |
| `Schedule.FiringClosesOverdue` | cattivo/holes.py:149-154 | when the timer fires, exactly the holes with a deadline not after now are closed, ties included, if and only if no table operation needed fails |
| `Schedule.RemovingAllEmpties` | cattivo/holes.py:127-129 | with one hole due first, removing all removes each hole once, overdue ones too, never raises, and leaves nothing and no timer, if and only if no table operation needed fails |
| `Schedule.RemovingAllCrosses` | cattivo/holes.py:127-129 | with two holes due first at the same time removing all always leaves something in disagreement |
| `ScheduleRuns.StepKeepsValidIff` | cattivo/holes.py:62-129 | for every call and every valid state: the invariant is kept if and only if no equal deadlines are met in the wrong order and none of the table operations that the call makes, of which the number is given, fails from outside |
| `ScheduleRuns.RunStaysValidIff` | cattivo/holes.py:62-154 | over any run the invariant holds after every step if and only if no step was a breaking one |
| `ScheduleRuns.ChainMirrorsHoles` | cattivo/firewall/iptables/base.py:39-54 | in every valid state the table in force is the host's with one jump and one chain more, which is authenticator, local, a log and accept pair for each hole's address, and tproxy; an address has a pair if and only if it has an open hole |
| `ChainOrder.PairsStandNewestFirst` | cattivo/firewall/iptables/base.py:84-89 | over any run in which nothing breaks and no hole is opened for an address that has one, the pairs stand in the order in which their holes were opened, newest first |
| `ChainOrder.RemovalKeepsOrderIff` | cattivo/firewall/iptables/base.py:91-96 | taking a hole out of the list and the first pair of its address out of the chain keeps that order if and only if, from the newest hole of the address to the hole itself, only holes of that address were opened |
| `ChainOrder.SharedAddressOutOfOrder` | cattivo/firewall/iptables/base.py:91-96 | a run with three deadlines, all different, two of them for one address, after which the pairs of the two holes left stand in the wrong order |
| `ScheduleRuns.EqualDeadlinesLeak` | cattivo/holes.py:122 | a run with two equal deadlines after which a hole stays open and let through for ever, with no timer armed |
| `ScheduleRuns.RemoveAllLeavesTimer` | cattivo/holes.py:127-129 | a run with two equal deadlines after which removing all leaves the timer armed, and its firing raises IndexError |
| `Fate.WebRequestFate` | cattivo/firewall/iptables/base.py:84-96 | after any run of the scheduler in which nothing breaks: a TCP packet to port 80, not from lo and not to the authenticator, that passes the host's rules in PREROUTING of the table in force, on the configured interfaces, gets the kernel's verdict 1 if its source belongs to an open hole, and otherwise reaches TPROXY; on other interfaces it comes to the end of PREROUTING |
| `EndToEnd.WebRequestInKernel` | cattivo/firewall/iptables/base.py:84-96 | the same fate in the blob compiled from that table, as the kernel walks it from hook 0 |
| `Firewalls.AnswerTellsTruth` | cattivo/firewall/firewall.py:84-105 | a completed lookup answers yes if and only if the client had no hole, its time is not up and no table operation fails; then its hole is open and due exactly at login plus expiration, however late the lookup completed; for a client that is not to be let in nothing changes |
| `Firewalls.RefusedRuleLeavesClient` | cattivo/firewall/firewall.py:84-105 | when the table has no place for the client's rules, or a table operation fails, the answer is no, but the client stays in the dictionary, not in the list, and the table in force stays; without a place nothing is edited, and otherwise the edits made before the failing operation stay in the snapshot; this holds of any table, as before initialization |
| `Firewalls.RefusedClientLetThrough` | cattivo/firewall/iptables/pyipt/pyipt-table.c:272-276 | a run of two lookups: the first client is refused because the commit fails, the second is let in, and the table then in force lets both through; no list holds the first one |
| `Firewalls.OtherNumberRefused` | cattivo/bouncer/http.py:46-52 | a client in the dictionary that asks with another second component, as the bouncer does with the source port, is looked up again and told no |
| `Firewalls.StepAgreesIff` | cattivo/firewall/firewall.py:31-105 | one step of such an interleaving, while the firewall is installed or while it is not, keeps dictionary, list, table and timer in agreement if and only if it is not a breaking one |
| `Wall.RefusedLeaves` | cattivo/firewall/iptables/base.py:84-89 | in any table with room, a call that fails at operation k leaves the first k edits in the edited table and the table in force as it was; without room nothing is edited |
| `Wall.RefusedKeepsInForce` | cattivo/firewall/iptables/base.py:84-96 | a call that fails leaves the table in force as it was |
| `Items.ItemsComeAndGo` | cattivo/firewall/iptables/base.py:84-96 | one insertion puts one rule in front, one deletion under the zero mask takes the first such rule out, or fails if there is none, in whatever order and number log and accept rules stand in the chain |
| `Items.CallsActOnItems` | cattivo/firewall/iptables/base.py:84-96 | whichever operations fail, a call does to the tables, edited and in force, what it does to two sequences of single log and accept rules |
| `Leftovers.AddingLeaves` | cattivo/firewall/iptables/base.py:84-89 | which rules are left in the edited table when letting a client in fails at operation k |
| `Leftovers.RemovingLeaves` | cattivo/firewall/iptables/base.py:91-96 | which rules are left in the edited table when shutting a client out fails at operation k |
| `Leftovers.OthersPublish` | cattivo/firewall/iptables/pyipt/pyipt-table.c:272-276 | over any sequence of calls for other addresses, whatever fails: the rules of an address stay as edited, and come in force if and only if one of the calls gets through |
| `Leftovers.RefusedAddComesInForce` | cattivo/firewall/iptables/pyipt/pyipt-table.c:272-276 | a refused client's accept rule comes in force with the next call for another address that gets through if and only if the first operation was not the one that failed; its log rule if and only if the commit was |
| `Leftovers.RefusedRemovalComesInForce` | cattivo/firewall/iptables/pyipt/pyipt-table.c:272-276 | a client whose removal failed goes on being let through until a call for another address gets through, and from then on if and only if the commit was not the one that failed |
| `Leftovers.AlwaysInstalled` | cattivo/holes.py:62-154 | from a valid state on, whatever is called and whatever fails, the table, edited and in force, is the host's with the firewall installed around some log and accept rules |
| `Leftovers.RefusedAddStays` | cattivo/holes.py:66-75 | a refused client stays in the dictionary and in no list over any run that is not about its address, whatever fails, and its accept rule is in force if and only if some call has got through and the first operation was not the one that failed |
| `Leftovers.RefusedRemovalStays` | cattivo/holes.py:109-125 | the same for a client whose removal failed: its hole is gone, and its accept rule is in force if and only if no call has got through or the commit was not the one that failed |
| `Fate.ItemsDecide` | cattivo/firewall/iptables/base.py:84-96 | whatever log and accept rules stand in the chain, a web request that passes the host's rules in PREROUTING comes to the end of PREROUTING if it does not have the configured interfaces, and else is accepted if and only if its source has an accept rule, and otherwise reaches TPROXY |
| `Fate.RefusedClientFate` | cattivo/firewall/iptables/base.py:84-96 | the web requests of a refused client reach TPROXY until another call gets through, and are accepted from then on unless the first operation was the one that failed |
| `Lifecycle.TakingDownIff` | cattivo/firewall/iptables/base.py:64-82 | an installation without clients is taken down if and only if no operation fails, stays as it is if and only if neither jump nor rules can be taken out, and is left half otherwise |
| `Lifecycle.TakingDownGives` | cattivo/firewall/iptables/base.py:64-82 | the table edited and the table in force for every combination of failing operations |
| `Lifecycle.SettingUpIff` | cattivo/firewall/iptables/base.py:39-54 | the firewall is set up if and only if no operation fails, nothing changes if and only if the first one fails, and half of it is left otherwise |
| `Lifecycle.SettingUpGives` | cattivo/firewall/iptables/base.py:39-54 | the table edited and the table in force when operation k is the first to fail |
| `Lifecycle.NothingToTakeDown` | cattivo/firewall/iptables/base.py:64-82 | where nothing is installed cleaning changes nothing, whatever fails |
| `Lifecycle.AlreadySetUp` | cattivo/firewall/iptables/base.py:39-54 | where the firewall is installed setting it up once more fails and changes nothing |
| `Firewalls.OneHoleEach` | cattivo/firewall/firewall.py:56-105 | in any such run there is at most one hole for a client, and for every address as many rule pairs as holes |
| `Names.OrderRuns` | cattivo/firewall/iptables/libiptc/libiptc.c:783-792 | which way the order runs: after a common beginning the smaller character comes first, and a longer name behind the one it begins with |
| `Verdicts.NamedVerdicts` | cattivo/firewall/iptables/libiptc/libiptc.c:1648-1656 | a rule made from ACCEPT, DROP or QUEUE ends a packet that matches it in the kernel's verdict 1, 0 or 3 (a number v stands for -v - 1); RETURN is -5 and sends the packet back |
| `Verdicts.InsertedDecides` | cattivo/firewall/iptables/libiptc/libiptc.c:1688-1744 | the same of a rule once it has been inserted, at its place in its chain |
| `Verdicts.PolicyDecides` | cattivo/firewall/iptables/libiptc/libiptc.c:2342-2384 | a packet that comes to the end of a builtin chain whose policy has been set is accepted or dropped, verdict 1 or 0, as the policy says; when the policy cannot be set, which one of three reasons it is |
| `Outcomes.PuttingFails` | cattivo/firewall/iptables/libiptc/libiptc.c:1688-1834 | exactly when inserting, replacing and appending fail, and with which error: no such chain, no such place, a refused target, in this order |
| `Outcomes.TakingFails` | cattivo/firewall/iptables/libiptc/libiptc.c:1905-2055 | exactly when deleting by number, by pattern and flushing fail, and with which error |
| `Outcomes.ChainCallsFail` | cattivo/firewall/iptables/libiptc/libiptc.c:2172-2384 | exactly when a chain cannot be created (it exists, its name is reserved, or has more than 31 characters) or deleted (missing, builtin, jumped to, not empty), and when a policy cannot be set, with the errors |
| `Packets.SameFields` | cattivo/firewall/iptables/libiptc/libip4tc.c:175-214 | rules that compare equal, under whatever mask, agree in every field of the header, but for interface bytes that no interface mask asks for, and in names and sizes of matches |
| `Packets.SameAskSame` | cattivo/firewall/iptables/libiptc/libip4tc.c:175-214 | rules that compare equal, under whatever mask, ask the same of the header of every packet, with inverted conditions and fragments |
| `Packets.FullMaskComparesAll` | cattivo/firewall/iptables/libiptc/libip4tc.c:175-214 | under a mask of ones, rules that compare equal have the same matches, match the same packets and do the same with them |
| `Packets.MaskLiesOver` | cattivo/firewall/iptables/libiptc/libiptc.c:1836-1897 | which byte of the mask each byte of a match and of the target is compared under |
| `Layout.TableInBytes` | cattivo/firewall/iptables/libiptc/libiptc.c:1088-1144 | the bytes of a table: 152 for each chain's policy, 176 for each error node and for the end, and the rules |
| `SelfCheck.PassesMeans` | cattivo/firewall/iptables/libiptc/libip4tc.c:240-314 | exactly what the library asks of each entry: nothing is named like a chain, a verdict has its size and lies within the table, a jump leads to the next entry or behind an error node and not to one, an error node behind the first user chain follows an unconditional return, and the user chains begin with one |
| `Walk.HookByName` | cattivo/firewall/iptables/libiptc/libiptc.c:57-63 | the packets of hook 0 to 4 enter PREROUTING, INPUT, FORWARD, OUTPUT and POSTROUTING |
| `ParserOrder.AddingKeepsOrder` | cattivo/firewall/iptables/libiptc/libiptc.c:803-831 | if the chains read so far are in order they are in order with one more, whatever its name; a builtin chain goes to the end as long as no user chain has been read |
| `ParserOrder.ReadInOrder` | cattivo/firewall/iptables/libiptc/libiptc.c:816-828 | every table whose chains have different names, builtin chains first and user chains in any order, is read into builtin chains as they come and user chains sorted |
| `ParserOrder.ParsedInOrder` | cattivo/firewall/iptables/libiptc/libiptc.c:946-983 | and is in order after the second pass |
| `ParserOrder.NothingIsLost` | cattivo/firewall/iptables/libiptc/libiptc.c:730-942 | the chains read are the chains of the table as a multiset, each with its own rules, policy, counters, numbers and offsets, found by counting entries between chain beginnings |
| `ParserOrder.JumpsFollow` | cattivo/firewall/iptables/libiptc/libiptc.c:962-978 | wherever the chains have been put, a jump is resolved to the chain in whose bytes it leads |
| `ParserOrder.KindTells` | cattivo/firewall/iptables/libiptc/libiptc.c:892-934 | the rule type that an entry is given is what the kernel does with a packet that matches it: end, return, go on, jump, or ask the extension |
| `ParserOrder.CountsInOrder` | cattivo/firewall/iptables/libiptc/libiptc.c:939-942 | the counters are those of all entries in their order |
| `Reading.ReadTells` | cattivo/firewall/iptables/libiptc/libiptc.c:835-983 | wherever a packet can be in a table of the kernel, user chains in any order, the chains read say what the table tells the kernel |
| `Reading.ReadingPreservesMeaning` | cattivo/firewall/iptables/libiptc/libiptc.c:816-983 | reading preserves meaning: for every packet, every answer of matches and extensions and any number of steps, walking such a table from a hook visits the same rules, with the same return addresses, and ends in the same verdict as walking the chains that were read and sorted |
| `ReadTables.ReadChainsOk` | cattivo/firewall/iptables/libiptc/libiptc.c:946-983 | the chains read from such a table satisfy the whole invariant of the handle: names, order, jumps, exact reference and rule counts, and each counter traced to its one entry |
| `ReadTables.ReadKernelTable` | cattivo/firewall/iptables/libiptc/libiptc.c:946-983 | a handle on any such table is valid, unchanged, ready to be compiled, tells the kernel's table and holds the counters of its entries |
| `ReadTables.RebuiltMeansTheSame` | cattivo/firewall/iptables/libiptc/libiptc.c:816-1168 | what is compiled from the rules read, with the user chains sorted, means what the kernel's table meant: the two walks are always at the same place, and end in the same verdict |
| `KernelTables.CompiledIsKernelTable` | cattivo/firewall/iptables/libiptc/libiptc.c:1040-1168 | every table that the library compiles is such a table |
| `Counting.WantedComesOut` | cattivo/firewall/iptables/libiptc/libiptc.c:2392-2449 | what a counter has to be, in numbers modulo 2^64: the kernel's count when the commit begins and what passes from then on; less what was read, if zeroed; the value given and what passes in the new table; or just that |
| `Counting.CountersFollow` | cattivo/firewall/iptables/libiptc/libiptc.c:2534-2613 | after a commit every rule and every policy has that counter |
| `Counting.ReadKeeps` | cattivo/firewall/iptables/libiptc/libiptc.c:939-942 | in a table that has just been read the counter of each rule and policy is to go on from its own entry's |
| `Counting.ZeroedSlot` | cattivo/firewall/iptables/libiptc/libiptc.c:2107-2134 | zeroing a rule's counter: one that was to go on is to show only what has passed since it was read; one that was given, or that is new, stays as it is; all others stay |
| `Counting.ZeroedSlots` | cattivo/firewall/iptables/libiptc/libiptc.c:2058-2081 | the same for a chain with its policy |
| `Counting.GivenSlot` | cattivo/firewall/iptables/libiptc/libiptc.c:2136-2167 | a counter that is set is to start from the value given, and all others stay |
| `Counting.PolicySlot` | cattivo/firewall/iptables/libiptc/libiptc.c:2342-2384 | a policy that is set is to count from the value given with it, or anew |
| `Interfaces.ParseInterface` | cattivo/firewall/iptables/xtables/xtables.c:439-476 | the name is copied behind zeros, and the mask has ones over nothing, over what stands before a plus sign, or over the name with its terminator; a name of more than 15 characters is refused |
| `Interfaces.ParsedMatches` | cattivo/firewall/iptables/xtables/xtables.c:454-463 | the mask compares so that the empty name and a plus sign stand for every interface, a name ending in a plus sign for those that begin like it, and any other for itself alone |
| `Interfaces.ConfiguredJump` | cattivo/firewall/iptables/base.py:108-116 | with these names configured the jump takes a packet if and only if it is TCP and its input and output interface are ones that the names stand for |
| `Fate.JumpMatches` | cattivo/firewall/iptables/base.py:108-116 | for every packet the jump matches if and only if the packet is TCP and agrees with the configured input and output interface under their masks |
| `Fate.JumpTakes` | cattivo/firewall/iptables/base.py:39-54 | a packet that comes to the jump enters the firewall's chain exactly then, to return behind the jump, and else goes on behind it |
| `Fate.FateFromPrerouting` | cattivo/firewall/iptables/base.py:39-54 | of the packets that pass the host's own rules in PREROUTING, those that have the configured interfaces and that the chain lets through get the kernel's verdict 1, those for the bouncer reach TPROXY, and all others come to the end of PREROUTING, where its policy decides |
| `Fate.LoggedFirst` | cattivo/firewall/iptables/base.py:142-153 | a web request that is let through for its source has passed, just before, the log rule of that source, which matches it and hands it to NFLOG |
| `AnyState.TakingOutEnds` | cattivo/holes.py:109-125 | in any state, valid or not: HoleError if and only if the client is not in the dictionary; IndexError if and only if it is and the list is empty; ValueError if and only if no listed hole has its deadline; however it ends, the client is not in the dictionary afterwards and nobody else has left it |
| `AnyState.TakingOutLeaves` | cattivo/holes.py:109-125 | the first listed hole of the same deadline goes, and the firewall is called, exactly when there is one; the timer stays |
| `AnyState.CatchingUpTakes` | cattivo/holes.py:83-98 | in any state catching up takes nobody out of the dictionary whose hole is not listed as due |
| `AnyState.CatchingUpArms` | cattivo/holes.py:88-98 | in any state, when catching up ends well, the first hole left is not due and the timer is armed for just its deadline; else the timer stays as it was |
| `AnyState.RemovalTakesOut` | cattivo/holes.py:104-125 | in any state, however a removal ends, the client is not in the dictionary afterwards, and nobody else leaves it but for holes listed as due when the client's was the first |
| `AnyState.RemovalAnswers` | cattivo/firewall/firewall.py:76-82 | in any state the caller is told no of a client that is not in the dictionary, yes only when all went well, and gets the exception when the client's hole is in no list or the firewall fails |
| `AnyState.EveryoneIsAnswered` | cattivo/firewall/firewall.py:56-105 | over any step, in any state, nobody is forgotten and nobody answered twice: whoever asks is answered or waits, and whoever waits is answered when the lookup completes or fails |
| `AnyState.WhatIsAnswered` | cattivo/firewall/firewall.py:56-105 | a client that asks is told yes at once if and only if it is in the dictionary; a lookup that fails tells no; one that completes tells yes only of a client that was not in the dictionary and whose time is not up |
| `AnyState.CleaningStops` | cattivo/firewall/firewall.py:39-43 | when closing the holes fails the firewall is not taken down |
| `AnyState.FiringTakesOut` | cattivo/holes.py:149-154 | in any state, when the timer fires the first listed client is not in the dictionary afterwards; without one the call ends in IndexError and only the timer is given up |
| `AnyState.AddingPutsIn` | cattivo/holes.py:62-81 | in any state: a client that is in the dictionary is refused and nothing changes; a new one is in it afterwards also when the firewall fails, and then neither list nor timer has changed |
| `AnyState.RemovedIsLookedUp` | cattivo/firewall/firewall.py:56-82 | in any state, a refused client's included, a client that is removed is looked up when it asks again |
| `Masks.NumbersAsInC` | cattivo/firewall/iptables/xtables/xtables.c:380-417 | numbers are read by place value in base 16 behind 0x, in base 8 behind 0, else in base 10, up to the bound |
| `Masks.PrefixLengthByBits` | cattivo/firewall/iptables/libiptc/libip6tc.c:118-131 | the length of the prefix, or -1 if and only if the ones are not contiguous (section 2.3 of RFC 4291) |
| `Masks.PrefixLengthByShifts` | cattivo/firewall/iptables/xtables/xtables.c:1221-1243 | the same, found by shifting four words as one |
| `Masks.PrefixLengthsAgree` | cattivo/firewall/iptables/libiptc/libip6tc.c:118-131 | the two algorithms agree on every 128-bit address |
| `Masks.IpmaskToNumeric` | cattivo/firewall/iptables/xtables/xtables.c:973-996 | the loop over shifted masks prints nothing, the prefix length or all four bytes, as the mask asks |
| `Masks.NumericToIpmask` | cattivo/firewall/iptables/xtables/xtables.c:998-1042 | the loop reads four bytes up to 255 with dots in between |
| `Masks.ParseIpmask` | cattivo/firewall/iptables/xtables/xtables.c:1111-1135 | no text, dotted bytes or a length up to 32, or an error |
| `Masks.MaskRoundTrip` | cattivo/firewall/iptables/xtables/xtables.c:973-1135 | reading the text of any 32-bit mask gives the mask back |
| `Masks.PrefixNotation` | cattivo/firewall/iptables/xtables/xtables.c:973-996 | the text is a prefix length if and only if the ones are contiguous (section 3.1 of RFC 4632) |
| `Masks.DottedInOrder` | cattivo/firewall/iptables/xtables/xtables.c:973-996 | the bytes of a mask are written with the most significant one first |
| `Registry.WhenRefused` | cattivo/firewall/iptables/xtables/xtables.c:786-858 | a registration is refused exactly if the same revision for the same family is there, or the extension would get into the list and its size is no multiple of 8 |
| `Registry.TargetList.FindTarget` | cattivo/firewall/iptables/xtables/xtables.c:607-656 | the first extension of the name; the empty name, ACCEPT, DROP, QUEUE and RETURN are looked up as the standard target, and all others as themselves |
| `Registry.TargetList.RegisterTarget` | cattivo/firewall/iptables/xtables/xtables.c:786-858 | refused if the same revision for the same family is there or the size is not aligned; else the new one replaces the old one exactly if the old one gives way |
| `Registry.BestIsKept` | cattivo/firewall/iptables/xtables/xtables.c:786-858 | after any accepted registrations each name occurs at most once, with the best usable extension registered under it: highest revision, made for the family before made for any; the first one if none is usable |
| `Registry.OrderDoesNotMatter` | cattivo/firewall/iptables/xtables/xtables.c:786-858 | two orders of the same registrations leave equally good survivors |

## Left out

- Pointers to chains are modelled by the chains' names, and the list head that the index may come to point at by the empty name. Aliasing between the handle's lists is therefore not captured; the linked list of one chain's rules is treated on the heap in `LinkedRules`, and the handle keeps its rules in a sequence.
- Concrete sizes of the kernel structures are those of a 64-bit machine (`Rulesets.ENTRY_SIZE` and its neighbours). Alignment of match and target sizes is not modelled.
- The data area of a target is read in three ways, as bytes, as a verdict and as an error name. The three are separate fields and not tied to each other byte for byte.
- Matches and extension targets are answers of an oracle. A target called `ERROR` in the middle of a walk, the kernel's refusal of loops, and the GOTO flag are not modelled.
- SelfCheck.CheckEntries: the assertions on alignment, on offsets and on the sizes of matches are left out.
- Walk.Compile: needs jumps and fallthroughs to have standard-sized targets and no extension called ERROR, because the library writes the verdict without looking; `Tables.FitsIsReady` states this for rulesets.
- Commit.CommitTable: that the kernel takes the new table and then fails to add the counters (libiptc.c:2610-2613) is not modelled; a commit succeeds as a whole or is refused as a whole. Packets arrive before the swap and after it in any number, but the swap itself, and adding the counters, are single steps, as the kernel makes them.
- Tables.Table.Commit: likewise.
- Tables.Table.InsertEntry: needs an entry that the compiler can lay out once it is in the table, as `Walk.Compile` does.
- Tables.Table.AppendEntry: likewise.
- Tables.Table.CreateChain: needs a non-empty name, as `Handles.Handle.CreateChain` does.
- Handles.Handle.FindLabel: needs a non-empty name. The index may come to point at the list head, which the library then reads as a chain head; what it finds there for a name is taken to be the empty name.
- Handles.Handle.CreateChain: needs a non-empty name, for the same reason. No caller in the repository gives an empty one.
- Base.IPTablesFirewall.AddClient: needs a table without chains called TPROXY or NFLOG, which the library would call instead of the extensions, writing the verdict into a target of another size.
- Base.IPTablesFirewall.Install: likewise.
- Snapshot.CopyCounted: the counters lie beside the kernel's blob in the model, and are written into the copy that is read.
- `TC_RENAME_CHAIN` overwrites a name without sorting and keeps none of the invariants. The iterators and `TC_READ_COUNTER` only read.
- Allocation within one operation of the library always succeeds; an operation of the binding may fail as a whole, before it has changed anything. Sockets, loading of extensions, module loading and the probing of revisions are calls into code that is not part of this model; the revision probe is a parameter of `Registry`.
- Registration of matches: the list of matches differs in that new ones go to the end, and a match in use is copied; only targets are modelled.
- HoleTables.Holes: time is a real number, and is read once in a call. Which table operations fail from outside is given for each operation by its number (`Wall.Env`).
- Mangle.WholeRunRestores: needs a table without a chain called cattivo, and without chains called TPROXY or NFLOG, which the library would call instead of the extensions.
- Base.IPTablesFirewall.Initialize: needs the same of the table once it has been cleaned. The lookup of the authenticator's address is not part of this model; in `Firewalls` anything may happen between cleaning and installing.
- Fate.FateFromPrerouting: which packets pass the host's own rules in PREROUTING, and what matches of other extensions answer, is up to the oracle.
- Packets.SameAskSame: how a header is compared with a packet, with its inversion flags, is the kernel's code, which is not part of the repository.
- Interfaces.ParseInterface: a name that is too long is refused; the warning about odd characters is not modelled.
- Reading.ReadingPreservesMeaning: a table in which a jump leads into the middle of a chain is read as if it led to the chain's beginning; such tables are not considered.
- Tables.ReadKernel: starts from a table that was compiled; `ReadTables.ReadKernelTable` reads any other.
- Firewalls: loading all clients at the start adds them one by one and is not modelled as a whole.
- Registry.TargetList.FindTarget: loading of extensions and the flag that marks an extension as used are not modelled.
- Registry.TargetList.RegisterTarget: the checks on the version, on the length of the name and on the family are not modelled.
- Masks.ParseIpmask: reads numbers as `Masks.NumericToIpmask` does.
- Masks.NumericToIpmask: leading blanks and signs, which `strtoul` allows in a number, are read as errors. Bytes are taken in the order of the network.
- `parse_ip6mask`, host lookups, printing of rules, option parsers, the HTTP services, the logger and the launcher.
