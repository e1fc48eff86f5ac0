# Verified models of the Black Tek server

This project models the parts of the Black Tek game server (C++) whose correctness rests on an argument that
no single function shows, and proves that argument. `dafny verify dfyconfig.toml` checks everything.

- **Logging** (`Console.dfy`, `RingBuffer.dfy`): the bounded queue with many producers and one consumer, its
  sleep and wake-up counter, and the draining shutdown. Every load, compare-exchange and store on an atomic is
  one step, for any number of producers; one inductive invariant over all interleavings carries order,
  exactly-once handling, exclusive access to slots and the absence of lost wake-ups. The ring buffer is
  there a second time as a class with arrays, for one thread.
- **The OTB tree format** (`Otb.dfy`, `OtbLoader.dfy`, `OtbPython.dfy`): the stack parser with its escape byte as
  a function of the file, the grammar of the files it accepts, and the equivalence of the two; the same
  parser over a memory of growing child vectors, in which the parse stack holds addresses; and the
  independent reader written in Python.
- **Strikes** (`CombatPlans.dfy`, `CombatTables.dfy`, `CombatTrails.dfy`, `Combat.dfy`): the mutually recursive strike pipeline, which spawns combats that
  strike in turn. What a strike asks of the world around it (which modifiers apply, what `block` says, who stands
  in an area, what scripts veto) is a plan handed to it. From the plan follow all the combats it spawns, with
  amount, caster and target, the damage that is applied, and a bill; the pipeline on creatures is proved to do
  exactly that, at every depth of the tree of strikes and from each world to the next, to end, and to conserve damage
  exactly when conversion and reform do. The plan of a strike is checked against a second reckoning from tables.
- **Blocking** (`Block.dfy`): the scalar `block` and the batch form that works on arrays of targets.
- **Handles** (`Handles.dfy`): counted handles on the combats of a registry.
- **Containers** (`Containers.dfy`, `ContainerWalks.dfy`): items in containers in containers, the cached weights, the
  breadth-first iterator, the walks upwards, the questions asked before something is added, and the
  item limit of depots over whole runs.
- **Conditions** (`Ledger.dfy`, `DamageList.dfy`, `ConditionCodec.dfy`, `ConditionStreams.dfy`): the offsets of a
  creature as a ledger of its active conditions, the splitting of damage over time, and conditions saved
  as tagged values and loaded again.
- **Augments** (`Augment.dfy`): the vector of modifiers with attack before defense, its cached counters and trigger
  mask, and its byte form.
- **Connections** (`Connection.dfy`): the write queue of a connection and its graceful close.
- `Bytes.dfy` and `PropStreams.dfy` hold the property streams that conditions and augments share; `Words.dfy`,
  `Lists.dfy` and `Options.dfy` what everything shares.

Code that changes things step by step is modelled by classes and methods with loops. Each of them is proved
against a function or a predicate on values, and the results below are lemmas about those. Places in a
list are sequences; fixed buffers are arrays. Random draws, the answers of scripts, the
outcome of target validation and which modifiers apply are arbitrary values, so a result holds for all
of them.

## Where the code does less than one would expect

Each of these is proved, with the condition under which the expectation does hold.

- *A message whose push has returned can be lost at shutdown.* The last drain stops in front of a ticket that another
  producer has claimed and not yet published. A message is sure to be handled exactly when all tickets up to its own
  were published at the moment `Shutdown` was called (`Console.HandledBeforeJoinIff`, `Console.ReturnedMessageCanBeLost`).
- *A push never comes back from a full buffer once the worker has ended*; as long as it has not, or there is room, it can
  (`Console.PushCanComeBackIff`).
- *A tree that is only a bare root cannot be loaded again*, because files of seven bytes are turned away. It is the
  only tree that cannot (`Otb.RoundTrip`).
- *The two OTB readers can disagree*: the Python reader does not know escape bytes behind a first child. On an accepted
  file they agree exactly if no such byte is an escaped start byte and no node begins after one that is an escaped end
  byte (`OtbPython.ReadersAgree`, `OtbPython.ReadersCanDiffer`).
- *Conversion and reform can create or destroy damage.* A strike conserves damage exactly when the two stages hand out
  as much as they take (`CombatPlans.ConservedIff`), which is a question about the sums the modifiers ask for
  (`CombatPlans.ConservedByModifiers`). A flat conversion of 20 makes 20 out of 10, and one into no valid type loses 5
  (`Combat.StrikeTwentyOutOfTen`, `CombatPlans.FiveIntoNothing`).
- *A batch does not look at charges when it computes, and layered mitigation is not neutral without defense*
  (`Block.BatchIgnoresCharges`, `Block.LayeredIsNotNeutral`). With subtraction the batch is right exactly if an unpaid
  defense would not stop the hit and what unpaid stages would take is nothing, or falls below the floor anyway
  (`Block.SubtractiveIff`, `Block.UnpaidStagesIff`).
- *A negative result of a stage is a full block in the batch and a huge hit on its own* (`Block.BelowZeroIsHuge`); a floor of at least zero, which
  all presets have, rules it out (`Block.LaneEqualsScalar` is exact). Which formulas are neutral, `Block.NeutralIff` says.
- *A depot chest that lies nowhere is not asked about what goes into a container inside it*, because that container is then
  its own top parent (`ContainerWalks.UnplacedChestIsNotAsked`). On a tile it always is (`ContainerWalks.AdmittedStaysWithin`).
- *A write that fails after a graceful close leaves the socket open*: the close on an error does nothing on a connection
  that is closed already (`Connections.FailedWriteEnds`).
- *A stronger drunkenness refreshes the time of a drunk condition and the creature, but not the strength the condition
  remembers* (`Ledger.Creature.Refresh`), so a weaker one than the last can be accepted after it.
- *Haste and paralysis can run side by side*, although adding one drives out the other: a haste that has run out but
  not been removed yet is passed over by a paralysis, and refreshed by the next haste (`Ledger.StaleHasteReturns`). What is
  left beside a new one, `Ledger.Creature.BesideIff` says.
- *A damage list comes to more than the amount* exactly when the amount is smaller than 1 + 2 + ... + start
  (`DamageList.GenerateDamageList`); the square of start is not the boundary.
- *A modifier of a third stance is counted by an augment and then dropped* (`Augments.StrayIsHarmless` says when that does
  no harm), and *a target name comes back only if it fits its buffer* (`Augments.TargetNameSurvives`).
- The comment beside the stance field of a damage modifier (`src/damagemodifier.h:276`) gives other numbers than the
  enumeration the code uses; the model follows the code, where 0 is attack and 1 is defense.

## Model

| member | source | states |
|---|---|---|
| Console.StepInv | src/console.h:220-274 | every step of every thread keeps the invariant: what each slot's sequence number means inside the window of tickets, what each producer and the worker hold, when the worker may sleep, and how far shutdown has come |
| Console.ReachableInv | src/console.h:205-274 | the invariant holds in every state that any number of producers, the worker and `Shutdown` can reach, in any interleaving |
| Console.ProcessedInTicketOrder | src/console.h:253-274 | the messages handled are exactly those of the first tickets, in ticket order, each once |
| Console.EachCallWinsOneTicket | src/console.h:413-420 | over any run, the tickets a producer has won carry exactly the messages it pushed, each once and in its own order |
| Console.PushComesBack | src/console.h:413-420 | with room in the buffer a producer that has not won its ticket yet, wherever it stands (yielding, holding a stale head, or anywhere else in the loop), returns after at most eight steps of its own; it has then won the next ticket for its message, written and published it, and announced it |
| Console.FrontIsHandled | src/console.h:618-638 | as long as the worker has not ended, the message at the front of the queue is handled by at most four steps of the producer that holds its ticket, none if it is published already, and then at most nine of the worker |
| Console.PushComesBackLater | src/console.h:413-420 | so a push in front of a full buffer can come back as well: at most 21 steps handle the front and end the call, with the next ticket won for its message |
| Console.PushCanComeBackIff | src/console.h:413-420 | a push that has not won its ticket can come back, on some schedule, if and only if there is room or the worker has not ended |
| Console.AllCanBeHandled | src/console.h:618-638 | as long as the worker has not ended, some schedule handles everything that is claimed, in ticket order |
| Console.WriterIsAlone | src/console.h:231-241 | while a producer writes a slot the slot is free for its ticket, the worker is not at it, and no other producer is writing it |
| Console.ReaderSeesItsTicket | src/console.h:253-274 | when the worker reads a slot it holds the published message of exactly the ticket the worker is at |
| Console.PushFailsOnlyWhenFull | src/console.h:220-251 | `Push` gives up if and only if it looked at the current head while as many tickets as there are slots were not yet released; it then still holds its message and has changed nothing |
| Console.NoLostWakeUp | src/console.h:626-635 | if the worker sleeps and no producer is inside `PushAndNotify`, every message ever claimed has been handled |
| Console.ShutdownIsNotStuck | src/console.h:665-674 | while `Shutdown` waits in its join, the worker has ended or can move |
| Console.ExecPublished | src/console.h:637-638 | from a state where all tickets up to one are published, the worker never ends before it has passed that ticket, on any schedule |
| Console.StalledTicketStopsDrain | src/console.h:637-638 | if a ticket is unpublished when `Shutdown` is called, some schedule closes the log without handling it or any later one |
| Console.HandledBeforeJoinIff | src/console.h:665-677 | a claimed message is handled before the join returns on every schedule if and only if all tickets up to its own were published when `Shutdown` was called |
| Console.ReturnedMessageCanBeLost | src/console.h:220-251 | a reachable run in which a push has returned before `Shutdown` is called and its message is never handled |
| RingBuffers.RingBuffer.constructor | src/console.h:214-218 | a new buffer is empty and every slot is free for its ticket |
| RingBuffers.RingBuffer.Verdict | src/console.h:226-249 | the sequence number under the head tells exactly whether there is room |
| RingBuffers.RingBuffer.Push | src/console.h:220-251 | by one thread: appends the message if and only if fewer than all slots are taken, and changes nothing otherwise |
| RingBuffers.RingBuffer.Pop | src/console.h:253-274 | by one thread: takes out the oldest message, if there is one |
| Otb.PrintedIsAccepted | src/fileloader.cpp:13-88 | every file of the grammar is parsed to the layout of its tree, except the one of seven bytes |
| Otb.ScanIsPrinted | src/fileloader.cpp:47-86 | whatever the parser accepts from the middle of a file on is the rest of one printed tree followed by bytes that belong to nothing |
| Otb.AcceptedIff | src/fileloader.cpp:13-88 | the loader accepts a file if and only if it is longer than seven bytes and of the grammar, and then builds the layout of the one printed tree |
| Otb.UnescapeBytes | src/fileloader.cpp:90-128 | unescaping the written form of a property string gives the string |
| Otb.AcceptedDecodes | src/fileloader.cpp:47-128 | for every accepted file each property range is well ordered, never ends inside an escape pair, lies before the nodes inside it, and decodes to what was written |
| Otb.RoundTrip | src/fileloader.cpp:13-128 | printing any tree and loading the file gives the tree back, except for a root without properties and children, which is rejected |
| OtbLoader.EmplacedArenaOk | src/fileloader.cpp:54-55 | growing a child vector, in place or in a new buffer, keeps all nodes reachable at consistent addresses in buffers of their own |
| OtbLoader.StackSurvives | src/fileloader.cpp:47-82 | every pointer on the parse stack still refers to its node after the vector of the top node has grown |
| OtbLoader.StackGrows | src/fileloader.cpp:54-61 | pushing the address of a new last child keeps the stack a chain of live nodes |
| OtbLoader.PushChild | src/fileloader.cpp:49-63 | a start byte: the new child is blank, gets its type and range, and its address joins the stack, whatever moves in memory |
| OtbLoader.PopChild | src/fileloader.cpp:64-71 | an end byte: the current node becomes a finished child of the node below it, or the finished root |
| OtbLoader.MarkTop | src/fileloader.cpp:51-53 | the end of the properties is set where there is no child yet, and nothing else changes |
| OtbLoader.Loader.MarkCurrent | src/fileloader.cpp:65-68 | the code of the mark does this to the memory |
| OtbLoader.Loader.AppendChild | src/fileloader.cpp:54-61 | the code that appends a child returns the address that belongs on the stack |
| OtbLoader.Loader.ParseTree | src/fileloader.cpp:36-88 | with pointers and moving vectors the parser accepts exactly what the parser on values accepts, and the memory then holds exactly that tree |
| OtbLoader.UnescapeStep | src/fileloader.cpp:109-124 | one round of the unescaping loop keeps "what is done, then what is still to be unescaped, is the whole" |
| OtbLoader.Loader.GetProps | src/fileloader.cpp:90-128 | the shared buffer holds the unescaped properties; false exactly for an empty range |
| OtbPython.ReadProps | _parse_otbm.py:30-37 | the loop over a property run gives the bytes and the stop of its recursive meaning, or the index error |
| OtbPython.ReadNodes | _parse_otbm.py:71-125 | the node loop lists type, depth and properties of every node it meets, in order; nothing for a file of fewer than four bytes |
| OtbPython.PropsOfItems | _parse_otbm.py:30-37 | the second reader unescapes any written property run as the format says |
| OtbPython.TokensPrint | _parse_otbm.py:71-125 | a tree of the grammar written out is its nodes' beginnings and ends, and the bytes between nodes, in the order in which a reader meets them |
| OtbPython.InStep | _parse_otbm.py:71-125 | without an escaped start byte outside properties the second reader lists exactly the nodes there are, going one level down at each end byte, escaped or not |
| OtbPython.DepthsAgreeIff | _parse_otbm.py:119-125 | the depths it then gives are right if and only if no node begins after an escaped end byte outside properties |
| OtbPython.NeverInStep | _parse_otbm.py:71-125 | once it takes for a node what begins before the next one does, what it lists never comes out right again, whatever the bytes are |
| OtbPython.StrayShows | _parse_otbm.py:71-125 | so a file with an escaped start byte outside properties always sets the readers apart |
| OtbPython.ReadersAgree | _parse_otbm.py:71-125 | on an accepted file both readers see the same nodes, depths and properties in the same order if and only if no escaped start byte stands outside properties and no node begins after an escaped end byte that does |
| OtbPython.ExtraNode | _parse_otbm.py:71-125 | what the second reader makes of one file with such a byte |
| OtbPython.ReadersCanDiffer | _parse_otbm.py:71-125 | on that file the loader has two nodes and the second reader three |
| CombatTrails.NoDeeperThanRank | src/combat.cpp:855-906 | no way down the tree of combats below a strike is longer than the number of modification flags the strike has unset, a strike with the attack unmodified counting as two |
| CombatTrails.GenerationsBelow | src/combat.cpp:855-906 | so there are at most two generations below a strike, one if its attack is modified already, and none if both sides are |
| CombatTrails.ToldAtAnyDepth | src/combat.cpp:2196-2310 | at any depth of the tree: a heal has healed its target and spawned nothing, a strike at a creature has spawned exactly what its own plan calls for, and one into an area nothing |
| CombatTrails.PlainStrikes | src/combat.cpp:2196-2310 | where neither side has modifiers that apply, a strike spawns nothing and hits the victim for all that came in |
| Combat.Battle.StrikeTarget | src/combat.cpp:2196-2310 | every strike ends; the combats it spawns, with their amounts, casters, targets and order, are exactly those its plan calls for; each of them starts in the world the one before it left, and each side pays before its stage; the victim takes exactly the damage that the stages leave, and the caster is healed by exactly the leech entries; all of this holds of every spawned strike in turn, with the charges its own two sides had and the world it left, all the way down; true damage with both flags hits the victim for exactly its damage and changes nobody else |
| Combat.Battle.DealDamage | src/combat.cpp:2248-2283 | the same for damage that came through `block`: what is spawned, what is applied to the victim, who is healed, and where a player's strike stops because nothing is left |
| CombatTables.StrikeByTables | src/combat.cpp:2248-2283 | for every plan: what a strike applies to the victim and all it spawns, in order, is what a second, independent reckoning from tables in plain arithmetic gives |
| CombatTables.ToldByTables | src/combat.cpp:2196-2310 | so a strike that comes to dealing damage has spawned what the tables give, and hits the victim for what they leave, unless a player's strike ran out of damage before |
| CombatTables.AttackInOrder | src/combat.cpp:2082-2191 | the attack: conversion first, piercing of what that leaves unless it is true damage, and a critical hit of what remains; none of the last two after a conversion of everything, for mana drain, or without other modifiers |
| CombatTables.DefenseInOrder | src/combat.cpp:1910-2080 | weakened and resisted damage heals health, mana, stamina and soul of the victim, in this order, and then goes back to the attacker and into areas, each entry taking its share of what the one before it left |
| CombatTables.StealsInOrder | src/combat.cpp:1589-1698 | the steals of health, mana, stamina and soul, in this order, each of its share of the same total while there is damage left |
| CombatTables.LeechesInOrder | src/combat.cpp:1700-1806 | the leech heals of the caster in the same order, each of its share of the damage applied |
| CombatTables.KindsInOrder | src/combat.cpp:1833-1841 | conversion and reform spawn one combat for each type asked for, from the lowest up, with the amount asked for and the flags of its stage |
| CombatPlans.BillIsHandedOut | src/combat.cpp:2248-2283 | the combats a strike spawns carry together exactly what its stages hand on |
| CombatTrails.LeafStrikes | src/combat.cpp:2196-2310 | true damage with both flags spawns nothing and hits the victim for exactly its damage |
| CombatTrails.ToldRoots | src/combat.cpp:2248-2283 | a strike that went stage by stage as told has spawned exactly what its plan calls for, stage by stage |
| CombatTrails.Join | src/combat.cpp:2248-2283 | two trails of spawned combats, the second starting in the world the first one left, are one |
| CombatPlans.ConservedIff | src/combat.cpp:1816-1898 | for every plan: what the spawned combats were handed, what was resisted and what was applied is what came in with what criticals, weakness and leech added, if and only if conversion and reform hand on as much as they take |
| CombatPlans.ConservedByModifiers | src/combat.cpp:1816-1898 | short of an overflow of what they ask for: if and only if what conversions of a valid type and reforms ask for is what all conversions and all reforms ask for, each capped at the damage before it |
| CombatPlans.ConservedWithinBounds | src/combat.cpp:1816-1898 | and so whenever neither asks for more than there is, and no conversion for an invalid type |
| CombatPlans.TwentyOutOfTen | src/combat.cpp:1816-1844 | a flat conversion of 20 on a hit of 10 spawns one combat of 20 at the victim, applies nothing, and does not conserve damage |
| CombatPlans.FiveIntoNothing | src/combat.cpp:1816-1844 | a flat conversion of 5 into no valid type spawns nothing, and 5 of 10 are applied |
| Combat.StrikeTwentyOutOfTen | src/combat.cpp:2248-2283 | the strike itself, on any victim: one combat of 20 comes out of a hit of 10, and nothing is dealt |
| CombatPlans.BucketsHoldValid | src/combat.cpp:1820-1831 | the twelve buckets together hold what the modifiers with a valid type ask for |
| CombatPlans.SumsOrdered | src/combat.cpp:1820-1831 | no bucket exceeds the valid sum, and the valid sum is the whole sum exactly if every modifier of an invalid type asks for nothing |
| CombatPlans.BucketsSum | src/combat.cpp:1861-1883 | short of a 32-bit overflow the wrapped buckets add up to the valid sum |
| CombatPlans.FillBuckets | src/combat.cpp:1820-1831 | the first loop of conversion and reform leaves in each bucket what its modifiers ask for, and the total with or without invalid types |
| Combat.Battle.SpawnBuckets | src/combat.cpp:1833-1841 | one combat per non-empty bucket, in order, of the type and with the amount of the bucket |
| CombatPlans.BucketsHandOn | src/combat.cpp:1833-1841 | the combats of the buckets carry together what the buckets hold |
| Combat.Battle.SpawnBucket | src/combat.cpp:1833-1841 | one of these: a heal or a strike at the victim, by its type |
| CombatPlans.BucketType | src/combat.cpp:1833-1841 | the type a bucket goes out under has exactly the bit of that bucket set, and no other type has just this bit as its lowest and is a single one |
| CombatPlans.TypeBits | src/combat.cpp:1833-1841 | the types of the twelve buckets are the powers of two from 1 to 2048 |
| CombatPlans.SpawnedType | src/combat.cpp:1816-1841 | so a combat that leaves a bucket carries the target type of a modifier that fed the bucket with something |
| Combat.Battle.Send | src/combat.cpp:2196-2310 | a spawned strike of smaller rank did to the world, and spawned in turn, exactly what its own plan says |
| Combat.Battle.HandleConversion | src/combat.cpp:1816-1844 | the total returned is what all modifiers ask for, the combats spawned carry what those with a valid type ask for, each under its type |
| Combat.Battle.ReformAugment | src/combat.cpp:1846-1898 | takes off the valid sum, at most everything, and spawns combats with both flags for the unscaled buckets |
| CombatPlans.PenetrateDamage | src/combat.cpp:1561-1579 | the piercing combat and what remains are together the damage |
| CombatPlans.CrittedIs | src/combat.cpp:1547-1559 | short of an overflow a critical hit is the damage, its percentage in whole numbers and the flat part |
| CombatPlans.ApplyCrit | src/combat.cpp:1547-1559 | adds the percentage and the flat part, short of an overflow exactly |
| Combat.Battle.PierceAndCrit | src/combat.cpp:2182-2190 | piercing first, unless the damage is true damage already; the critical hit is reckoned on what remains |
| Combat.Battle.AccumulateAttackMods | src/combat.cpp:2082-2191 | what conversion, piercing and critical leave of the damage and what they spawn, each on what the one before it left; where the caster has no modifiers, cannot pay, or the attack is modified already, the damage passes unchanged |
| CombatPlans.Weaken | src/combat.cpp:1979-1986 | weakness adds its percentage and its flat part: the value always, and short of an overflow the exact sum |
| CombatPlans.WeakenedIs | src/combat.cpp:1979-1986 | short of an overflow the damage, its percentage and the flat part; beyond, the percentage stops at 2^32 - 1 and the flat part wraps around |
| CombatPlans.Resist | src/combat.cpp:1988-1995 | resistance takes its percentage, at most everything, and then its flat part of what is left |
| CombatPlans.ResistedIs | src/combat.cpp:1988-1995 | what percentage and flat part leave of the damage, in whole numbers, and nothing where they come to as much |
| CombatPlans.ShareIs | src/combat.cpp:1997-2077 | every share of the damage is the percentage, rounded down, and the flat part, at most all of it, and the rest is kept |
| CombatPlans.DefenseEntryIs | src/combat.cpp:1997-2077 | a defense entry with nothing in it hands out nothing, every other exactly one combat: its amount, type, flags, caster and target |
| Combat.Battle.DivertToHeal | src/combat.cpp:1997-2047 | one healing entry: the victim, and nobody else, is healed in the entry's own stat by exactly what the damage loses |
| Combat.Battle.DivertAll | src/combat.cpp:1997-2047 | absorb, restore, replenish and revive, in this order, each on what the one before it left; the victim gets all of it and nobody else changes |
| Combat.Battle.ReflectPart | src/combat.cpp:2051-2064 | reflect hits the attacker, and nobody else, for exactly what the damage loses, as true damage that nothing modifies |
| Combat.Battle.DeflectPart | src/combat.cpp:2066-2071 | deflect hands exactly what the damage loses to an area combat, which hits those in the area one after the other |
| Combat.Battle.DeflectDamage | src/combat.cpp:855-877 | the area combat carries the amount divided by the expected number of targets, at most six; it hits those in the area for that, and spawns no strike |
| CombatPlans.TargetsAre | src/combat.cpp:857-859 | a deflected amount is meant for one creature below 25, for two below 75, and so on up to six from 225 on |
| CombatPlans.EqualParts | src/combat.cpp:864-864 | and each of them gets an equal part, to the nearest whole number |
| Combat.Battle.RicochetDamage | src/combat.cpp:879-906 | all of the amount goes on and hits those in the area, or none where no position is open |
| Combat.Battle.Bounce | src/combat.cpp:2049-2077 | reflect, deflect and ricochet in this order, each on what the one before it left |
| Combat.Battle.DefenseAugment | src/combat.cpp:1910-2080 | what is left after weakness, resistance, heals and bounces, and who is handed how much, in which order; the victim is healed before anything bounces, and a bounced combat does not bounce again |
| Combat.Battle.Defend | src/combat.cpp:2255-2273 | what reform and the defense entries leave and what they spawn; where the victim has no modifiers, cannot pay, or the defense is modified already, the damage passes unchanged |
| Combat.Battle.StealOne | src/combat.cpp:1593-1617 | one steal entry: a leech combat of its own kind gets exactly what the damage loses |
| Combat.Battle.ProcessSteal | src/combat.cpp:1589-1698 | the four entries all ask for a share of the same total, in order, while damage lasts |
| CombatPlans.LeechEntryIs | src/combat.cpp:1589-1806 | a steal or leech entry asks for a share of the whole hit; a steal takes it off the damage while there is some, as damage of its own kind that does not leech, and a leech heals the caster on top |
| Combat.Battle.PostDamage | src/combat.cpp:1700-1806 | the caster, and nobody else, is healed by each leech entry, in order, unless the combat is a leech itself, comes from a condition, or the hit is of exactly 128 |
| Combat.Battle.LeechOne | src/combat.cpp:1700-1806 | one of the entries: a heal of its own stat by its share of the damage, none where that is zero |
| Combat.Battle.FinishStrike | src/combat.cpp:2275-2283 | the victim takes what is not stolen, whether or not something is stolen; the leech heals follow where damage was dealt |
| Combat.Battle.ApplyToPlayer | src/combat.cpp:4162-4214 | mana is drained first where it counts, then health; a vetoed lethal hit leaves the health and reports nothing |
| Combat.Battle.ApplyToMonster | src/combat.cpp:4216-4246 | health only, no mana drain, and nothing where the hit is lethal and vetoed |
| Combat.Battle.ApplyDamage | src/combat.cpp:4162-4246 | what a hit that is no mana drain takes from a monster, or from a player without mana shield: the smaller of the damage and the health, from the health alone, nothing where it would kill and is vetoed; a mana drain takes mana from players only |
| CombatPlans.DamageTaken | src/combat.cpp:4162-4246 | all cases of that, with the mana shield, in health and mana before and after and the damage reported |
| CombatPlans.ShieldTakesManaFirst | src/combat.cpp:4162-4214 | under a mana shield exactly the smaller of the damage and mana plus health is gone, and health is touched only when the mana is |
| Combat.Battle.HealTarget | src/combat.cpp:2626-2720 | only the target changes, by the amount up to its maximum of health, mana, stamina or soul, not at all where it is at or above it, and no combat is spawned |
| CombatPlans.HealingIsBounded | src/combat.cpp:2626-2720 | a heal raises its own stat by exactly the amount, as far as the maximum, and changes nothing else; what is at or above its maximum stays, and only players have mana, stamina and soul to heal |
| Combat.Battle.ExecuteOnArea | src/combat.cpp:2994-2997 | true damage that nothing modifies hits those in the area who exist, one after the other, each for exactly its damage, and nobody else |
| CombatTrails.AreaHitsOnce | src/combat.cpp:2994-2997 | whoever stands once in an area takes the damage of the combat exactly once, whoever else is hit |
| Block.ResolutionAtLeastFloor | src/combat.h:604-631 | a resolved hit is never below the truncated floor, whatever its sign, where ratio mitigation does not divide by zero |
| Block.ResistanceIs | src/combat.h:568-602 | no stat, no resistance; otherwise the stat itself, the draw, or by the threshold the draw or the flat amount |
| Block.PercentReaches | src/combat.h:596-597 | a percent resistance reaches a percentage if and only if a hundred times the stat is that many times the stat and the constant together; so it is 50 where the stat is the constant, never above 100, and below 100 with any constant |
| Block.PercentGrows | src/combat.h:596-597 | and it never falls as the stat grows |
| Block.PercentBelowZero | src/combat.h:596-597 | where a negative constant outweighs the stat: a negative percentage, cut towards zero |
| Block.RatioIs | src/combat.h:611-615 | ratio mitigation lets through the whole part of the share that the constant has in constant and resistance together |
| Block.DivisionIs | src/combat.h:617-620 | scaled division: the whole part of the scaled damage over the resistance, and the addend |
| Block.UndividedIs | src/combat.h:617-619 | undivided where there is no resistance |
| Block.LayersAre | src/combat.h:622-626 | layered mitigation: the whole part of what the percentage leaves less the flat reduction |
| Block.SubtractiveIs | src/combat.h:608-609 | subtraction in whole numbers: the difference, but not below the truncated floor |
| Block.ChargesPaid | src/combat.cpp:3147-3347 | on its own and from the batch, who can pay pays exactly the cost of each stage that applies; the armor is not paid for where the defense has stopped the hit |
| Block.SubtractiveAlone | src/combat.cpp:3147-3347 | subtraction without a floor, on its own: defense and then armor are taken off by who can pay for them, and what brings the damage to nothing has blocked it |
| Block.NeutralIff | src/combat.h:604-631 | for each formula, when exactly meeting no resistance changes nothing: for subtraction and ratio mitigation if and only if the floor does not lift the damage, for layered mitigation only without a flat reduction that the floor does not make up for |
| Block.LaneEqualsScalar | src/combat.cpp:3147-3347 | with enough charges and a neutral formula, for every resistance formula, every floor and every draw: a hit applied from the batch has the same outcome and leaves the same charges as a hit on its own if and only if no stage takes the damage below zero |
| Block.SubtractiveIff | src/combat.cpp:3147-3347 | for subtraction, whoever can pay and whatever the signs: a hit applied from the batch is the hit on its own if and only if an unpaid defense is not counted as a full block, a paid one does not fall below zero, and what gets through is the same in both ways |
| Block.UnpaidStagesIff | src/combat.cpp:3147-3347 | where resistances are not negative: if and only if an unpaid defense would not stop the hit, and what unpaid stages would take is nothing, or the damage is at the floor without them |
| Block.BatchRefinesScalar | src/combat.cpp:3509-3688 | the same for subtraction and ratio mitigation whenever the floor is at most the base damage |
| Block.BatchIgnoresCharges | src/combat.cpp:3582-3606 | a target that cannot pay for its defense is hit less by the batch than on its own |
| Block.LayeredIsNotNeutral | src/combat.h:620-631 | a target without any stage loses the flat reduction in the batch and not on its own |
| Block.BelowZeroIsHuge | src/combat.cpp:3147-3347 | with a floor of -5 a hit of 10 on a defense of 12 is one of 4294967294 on its own, and blocked in the batch |
| Block.Combat.Block | src/combat.cpp:3147-3347 | outcome and charges: inside a batch those of the lane at the index, which moves on, and the scalar ones otherwise |
| Block.Combat.GatherDefense | src/combat.cpp:3582-3606 | the array holds the defense of those who can use it and zero for the others |
| Block.Combat.DefensePass | src/combat.cpp:3608-3630 | every lane holds the base damage resolved against its own defense |
| Block.Combat.GatherArmor | src/combat.cpp:3632-3658 | lanes already stopped are marked and get no armor |
| Block.Combat.ArmorPass | src/combat.cpp:3660-3679 | every lane is resolved against its own armor |
| Block.FinishLanes | src/combat.cpp:3681-3687 | negative damage becomes zero, and a lane that armor stopped is marked so |
| Block.BatchResistance | src/combat.h:568-602 | lane by lane the scalar resistance |
| Block.BatchResolve | src/combat.h:604-631 | in place, lane by lane the scalar resolution |
| Block.Combat.BlockBatch | src/combat.cpp:3509-3688 | the array passes leave in every lane what the lane's own computation gives |
| Block.Combat.StrikeAll | src/combat.cpp:2980-2998 | an area attack in batch form gives every target the outcome and the charges of a strike on its own |
| Handles.Redirect | src/intrusive.h:39-59 | redirecting a handle takes one from the count of its old combat and adds one to the new |
| Handles.Forget | src/intrusive.h:37-37 | a handle that goes away takes one from the count |
| Handles.Registry.Add | src/intrusive.h:11-11 | after the addition every count is again the number of handles |
| Handles.Registry.Drop | src/combat.cpp:45-51 | the combat leaves the table if and only if that was its last handle, and no other does |
| Handles.Registry.Create | src/combat.cpp:53-59 | a combat under an id never given out before, with exactly one handle |
| Handles.Registry.Allot | src/combat.cpp:53-58 | a new combat under a fresh id, to which nothing points yet |
| Handles.Registry.FirstHandle | src/intrusive.h:19-23 | its first handle makes the count one |
| Handles.Registry.Empty | src/intrusive.h:17-17 | a null handle counts for nothing |
| Handles.Registry.Copy | src/intrusive.h:25-29 | the copy points where the original does |
| Handles.Registry.Move | src/intrusive.h:31-35 | the handle moves and the original is null; no count changes |
| Handles.Registry.Release | src/intrusive.h:12-12 | a handle lets go of its combat, which goes away with its last handle |
| Handles.Registry.Attach | src/intrusive.h:39-48 | a null handle is pointed at a combat, which gains one |
| Handles.Registry.TakeOver | src/intrusive.h:50-59 | a null handle takes over what another points to, and no count changes |
| Handles.Registry.CopyAssign | src/intrusive.h:39-48 | afterwards both point to the same combat; the old one is gone if this was its last handle |
| Handles.Registry.MoveAssign | src/intrusive.h:50-59 | the handle moves, except where both point to the same combat, when nothing changes |
| Handles.Registry.Reset | src/intrusive.h:70-70 | the handle is null |
| Handles.Registry.Destroy | src/intrusive.h:37-37 | the handle is gone |
| Handles.Registry.LivesWhilePointedTo | src/combat.h:757-795 | after any run of these, a combat is in the registry exactly while a handle points to it, its count is the number of those handles, and none dangles |
| Containers.PlacedLinked | src/container.cpp:539-559 | adding an item that lies nowhere keeps lists and parents in agreement |
| Containers.PlacedRanked | src/container.cpp:539-559 | adding what is not above the container leaves a forest |
| Containers.TakenLinked | src/container.cpp:625-659 | taking an item out keeps lists and parents in agreement |
| Containers.TakenUp | src/container.cpp:625-659 | and changes nothing above the container |
| Containers.WeightChanged | src/container.cpp:139-146 | an item that becomes heavier leaves exactly the total of its container short by the difference |
| Containers.LagMoves | src/container.cpp:139-146 | adding the difference to that total leaves exactly the next container up short by it |
| Containers.PlacedLags | src/container.cpp:539-559 | after an insertion exactly the container's total is short, by the weight of the item |
| Containers.TakenLags | src/container.cpp:625-659 | after a removal exactly the container's total is too high, by the weight of the item |
| Containers.WeightIsDeep | src/container.cpp:139-151 | if the caches agree level by level, `getWeight` is what the item and everything in it weigh at any depth, modulo 2^32 |
| Containers.Forest.CachesAreDeep | src/container.cpp:148-151 | so it is in every reachable state |
| Containers.Forest.UpdateItemWeight | src/container.cpp:139-146 | the walk over the ancestors ends and repairs every total |
| Containers.Forest.Bump | src/container.cpp:139-146 | one step of that walk |
| Containers.Forest.Insert | src/container.cpp:539-559 | list and parent after an insertion, at any position |
| Containers.Forest.Link | src/container.cpp:539-559 | the two assignments of an insertion put the item into the list and the container into its parent |
| Containers.Inserted | src/container.cpp:539-559 | together: agreement, forest, and exactly the container's total short by the weight of the item |
| Containers.Forest.Remove | src/container.cpp:625-659 | list and parent after a removal |
| Containers.Forest.GetThingIndex | src/container.cpp:661-671 | the first position of the item, or -1 exactly if it is not there |
| Containers.Forest.AddThing | src/container.cpp:539-559 | to the front unless the index is past the capacity; all totals stay right |
| Containers.Forest.InternalAddThing | src/container.cpp:742-752 | to the front whatever the capacity; all totals stay right |
| Containers.Forest.AddItemBack | src/container.cpp:561-571 | to the back, as when loading; all totals stay right |
| Containers.Forest.UpdateThing | src/container.cpp:573-597 | an item of the list weighs differently, and all totals follow |
| Containers.Forest.Reweigh | src/container.cpp:573-597 | the same, once its position is known |
| Containers.Forest.ReplaceThing | src/container.cpp:599-623 | the new item stands where the old one stood, which lies nowhere now; all totals stay right |
| Containers.Forest.RemoveThing | src/container.cpp:625-659 | part of a stack is lighter, or the whole item is taken out; all totals stay right |
| Containers.Forest.constructor | src/container.cpp:139-151 | items and empty containers that lie nowhere are a forest with right totals |
| ContainerWalks.BelowOnce | src/container.cpp:763-796 | everything that lies in a container at any depth is there exactly once, and that is exactly what has the container above it |
| ContainerWalks.AheadStep | src/container.cpp:778-796 | one advance takes exactly the current item out of what is still ahead, and the queue keeps non-empty containers only |
| ContainerWalks.ContainerIterator.constructor | src/container.cpp:763-771 | at the start all of the contents, at any depth, is ahead |
| ContainerWalks.ContainerIterator.Current | src/container.cpp:773-776 | while there is a next item it can be read |
| ContainerWalks.ContainerIterator.Advance | src/container.cpp:778-796 | from what was ahead exactly one item is now behind |
| ContainerWalks.GetItemHoldingCount | src/container.cpp:193-200 | the iteration ends, and its count is the number of items at any depth |
| ContainerWalks.AbovePlaced | src/container.cpp:539-559 | what lies above anything after an addition |
| ContainerWalks.BelowPlaced | src/container.cpp:539-559 | an addition adds the item and all in it to exactly the contents of the containers it now lies in |
| ContainerWalks.BelowTaken | src/container.cpp:625-659 | a removal takes the item and all in it from exactly the contents of the containers it lay in |
| ContainerWalks.LadderIsAbove | src/item.cpp:331-345 | the chain of parents meets every item above, and no other |
| ContainerWalks.TopIsAbove | src/item.cpp:331-345 | a top parent that is an item lies above, and a container always has one |
| ContainerWalks.TopByPlace | src/item.cpp:331-345 | who the top parent is, by where the outermost thing lies: what stands on a tile, the player who carries it, and where it lies nowhere the outermost but one |
| ContainerWalks.ParentOf | src/item.h:1191-1197 | the parent is the next rung of the chain |
| ContainerWalks.GetTopParent | src/item.cpp:331-345 | the walk ends, at the last rung but one: whatever stands on a tile is the top parent of all it holds, and a player of all that is carried |
| ContainerWalks.ClearMeans | src/container.cpp:330-355 | asking every rung of the chain is asking everything above |
| ContainerWalks.WalkUp | src/container.cpp:330-355 | the walk refuses if and only if the thing is above the container, or limits count and an inbox is |
| ContainerWalks.QueryHere | src/container.cpp:282-355 | the first half of the question is answered with no error exactly under the stated conditions, the thing not being the container or above it among them; each refusal is named, in the order of the checks, with what it means |
| ContainerWalks.QueryAdd | src/container.cpp:282-372 | the whole question, with what the top parent has to say |
| ContainerWalks.DepotIsOverfull | src/depotchest.cpp:18-44 | the depot compares everything it holds at any depth, and what is to be added, with its limit: a thing that is not in the chest counts with all it holds, and of what is in a chest on a tile part of a stack counts as one and the rest not at all |
| ContainerWalks.DepotQueryAdd | src/depotchest.cpp:18-47 | the depot admits exactly what it has room for and a container would admit, and says so where it is full |
| ContainerWalks.Ask | src/depotchest.cpp:18-47 | the question by the class of the container: a yes within limits means that every depot chest on a tile above the container stays within its limit with the thing and all in it, unless it holds the thing already |
| ContainerWalks.AdmittedStaysWithin | src/container.cpp:366-371 | the same of the answer itself, and room for one more where part of a stack is to be split off |
| ContainerWalks.UnplacedChestIsNotAsked | src/item.cpp:331-345 | a container directly inside a chest that lies nowhere admits all that fits it, whatever the chest holds |
| ContainerWalks.AddCountCovers | src/depotchest.cpp:27-43 | what the depot reckons with covers a moved item and all in it, unless these are in the depot already |
| ContainerWalks.StepKeepsLimit | src/depotchest.cpp:18-47 | an add, a move or a split to which the query said yes, or a removal, leaves a depot on a tile within its limit |
| ContainerWalks.DepotNeverOverfull | src/depotchest.cpp:18-47 | over any run in which adds to the depot, or to anything in it, were asked for while it stood on a tile and got a yes, the depot never holds more than its limit |
| ContainerWalks.TakenLeavesAbove | src/game.cpp:1242-1358 | taking out something that is not above a container changes nothing above it |
| ContainerWalks.MoveItem | src/game.cpp:1242-1358 | an admitted item is taken out and put in front, unless the index is past the capacity; it is never put into itself or into what it holds, no other list changes, and a refused one stays; the forest and all totals stay right |
| Ledger.Condition.StartTimer | src/condition.cpp:320-326 | the end time of a condition with ticks left |
| Ledger.KindsOfTypes | src/condition.cpp:200-258 | which types of conditions are of which kind, by their numbers |
| Ledger.Creature.constructor | src/creature.cpp:1053-1087 | a creature without conditions, of any kind, with any equipment and with or without a mount, has a balanced ledger |
| Ledger.Creature.AddEach | src/condition.cpp:537-558 | one loop over the slots adds or takes back every value |
| Ledger.Creature.UpdateSkills | src/condition.cpp:537-558 | skills and special skills |
| Ledger.Creature.UpdateStats | src/condition.cpp:509-523 | stats |
| Ledger.Creature.ApplyAttributes | src/condition.cpp:468-484 | the offsets change by exactly what the condition then says it has added |
| Ledger.Creature.StartCondition | src/condition.cpp:1554-1567 | starting adds exactly the condition's row, or nothing where it refuses |
| Ledger.Creature.EndCondition | src/condition.cpp:565-605 | ending takes exactly that row back |
| Ledger.Creature.Refresh | src/condition.cpp:346-429 | a refresh replaces the old row by the new one exactly where the new condition is accepted, which each kind decides by its own rule; of two limited ones the later end is kept, except for speed, damage and drunkenness, and an unlimited one never becomes limited; nothing changes otherwise |
| Ledger.Creature.RefreshAttributes | src/condition.cpp:346-429 | attributes: the later end is kept, an unlimited one stays; where the new one is accepted the old row is taken back and the new one added |
| Ledger.Creature.RefreshSpeed | src/condition.cpp:1579-1608 | speed: accepted unless an unlimited one would become limited; the speed changes by the difference |
| Ledger.Creature.RefreshDamage | src/condition.cpp:1355-1399 | damage: accepted by force or by a larger total, and never by its end time; ticks, bounds and portions are taken over, less the portion dealt at once |
| Ledger.TotalDamageIs | src/condition.cpp:1401-1413 | the total that decides is the size of the sum of the portions, or without portions the middle of the bounds, half left out towards zero |
| Ledger.PortionsAdd | src/condition.cpp:1401-1413 | the sum of the portions is their sum, however they are listed |
| Ledger.Creature.RefreshAt | src/creature.cpp:1072-1076 | the same for a condition of the list; every offset stays the sum over the active conditions |
| Ledger.Creature.GetCondition | src/creature.cpp:1195-1202 | the place of the condition of the same type, id and sub-id, or -1 exactly if there is none |
| Ledger.Creature.StartAndPush | src/creature.cpp:1078-1086 | a condition joins the list if and only if it starts; a new haste then drives out every paralysis, and a new paralysis every haste, if the creature is no monster and has a running one of sub-id zero that is not suppressed, unless a paralysis has to wait; the offsets stay the sum over what is left |
| Ledger.Creature.Push | src/creature.cpp:1078-1081 | the part before the hook: the condition is last in the list, with its row in the ledger and its end time set |
| Ledger.Creature.HasCondition | src/creature.cpp:1230-1243 | true exactly if the type is not suppressed and a condition of it with sub-id zero is running |
| Ledger.Creature.HasMeans | src/creature.cpp:1230-1243 | the same, as a question about the list |
| Ledger.Creature.OnAddCondition | src/creature.cpp:922-929 | haste and paralysis drive each other out, on monsters never; the ledger is kept |
| Ledger.Creature.Dismount | src/player.cpp:5647-5655 | an outfit takes the rider off the mount, and the speed of the mount with it |
| Ledger.Creature.BesideIff | src/creature.cpp:922-929 | beside a haste or a paralysis that was added one of the other type is left if and only if there was one and it was not driven out; the new one always stays |
| Ledger.StaleHasteStays | src/creature.cpp:922-929 | a haste that has run out and still waits for its round is not driven out by a paralysis |
| Ledger.StaleHasteReturns | src/creature.cpp:1072-1076 | a new haste of the same key then refreshes it, without the hook, and both run |
| Ledger.Creature.AddCondition | src/creature.cpp:1053-1087 | refreshes the one with the same key, or starts a new one, which drives out its opposite, or waits; what a refresh leaves is stated in ticks, end times, totals and strengths for each kind; there is never a second of the same key, every other condition that stays is untouched, and every offset is the sum over the active conditions |
| Ledger.Creature.EndAt | src/creature.cpp:1118-1121 | a condition leaves the list and the ledger together |
| Ledger.Creature.RemoveCondition | src/creature.cpp:1100-1148 | all conditions of the type (and id) are gone, the others stay in order, unless a paralysis has to wait |
| Ledger.Creature.WithoutSplit | src/creature.cpp:1100-1148 | what the loop has kept and what is still to be filtered make up the filtered list at every place |
| Ledger.Creature.RemoveThis | src/creature.cpp:1164-1184 | exactly this one is gone |
| Ledger.Creature.Execute | src/condition.cpp:189-198 | one that only lets time pass goes on exactly while it lasts, and changes nothing |
| Ledger.Creature.ExecuteOne | src/creature.cpp:1212-1227 | one round: executed if it is still there, ended if it is over |
| Ledger.Creature.Round | src/creature.cpp:1204-1228 | what one round does to the list, for a condition in any place |
| Ledger.Creature.ExecuteRound | src/creature.cpp:1204-1228 | each round brings the list one step further |
| Ledger.Creature.ExecuteConditions | src/creature.cpp:1204-1228 | the ledger is kept whatever conditions add and remove meanwhile; where all only let time pass, exactly those that last remain, in order |
| Ledger.Creature.NothingLeft | src/condition.cpp:565-605 | when no condition is left, skills, special skills, stats and speed are what equipment and mount give |
| Ledger.Creature.WithoutIsIn | src/creature.cpp:1100-1148 | a removal by type takes exactly the matching conditions |
| Ledger.Creature.WithoutHas | src/creature.cpp:1100-1148 | what is left is exactly what does not match |
| DamageList.StillFits | src/condition.cpp:1457-1475 | another portion is only called for while the portions below it still fit the goal |
| DamageList.NearerIs | src/condition.cpp:1471-1473 | the test in whole numbers is the comparison of the two relative distances |
| DamageList.GenerateDamageList | src/condition.cpp:1457-1475 | the portions fall from start to 1 with each value present, one is repeated exactly while that takes the sum nearer to the share of portions that large, and together they come to exactly the amount if that is at least 1 + ... + start, and to exactly 1 + ... + start otherwise |
| Bytes.StringRoundTrip | src/fileloader.h:80-155 | a string comes back and nothing after it is consumed; one that is too long comes back empty |
| PropStreams.PropStream.Read | src/fileloader.h:70-78 | all of the bytes asked for, or none and no movement |
| PropStreams.PropStream.ReadString | src/fileloader.h:80-92 | the string and the rest, or failure |
| PropStreams.PropWriteStream.WriteString | src/fileloader.h:144-155 | length and bytes at the end, or a zero length for a string that is too long |
| ConditionCodec.ReadsProps | src/condition.cpp:92-101 | reading the written properties up to the end tag absorbs each of them and leaves exactly what follows |
| ConditionCodec.ReadsHeader | src/condition.cpp:260-318 | the header makes a condition of the right class with the six fields |
| ConditionCodec.ClassesOfTypes | src/condition.cpp:200-258 | which types make which class, by their numbers; no other type makes a condition |
| ConditionCodec.HeaderStored | src/condition.cpp:162-181 | the header byte by byte: six tags in this order, numbers lowest byte first and negative ones counted from the top, flags as 0 or 1 |
| ConditionCodec.TagsStored | src/condition.cpp:445-1830 | the tags that each class stores behind the header, in order |
| ConditionCodec.AbsorbsIntervals | src/condition.cpp:1164-1174 | the intervals come back in order, and the ticks become their sum |
| ConditionCodec.AbsorbsDamage | src/condition.cpp:1150-1193 | damage: flags, period damage and the remaining intervals |
| ConditionCodec.AbsorbsAttributes | src/condition.cpp:431-466 | attributes: all skills, stats and special skills in their places |
| ConditionCodec.AbsorbsSpeed | src/condition.cpp:1513-1547 | speed: the delta and the four formula values |
| ConditionCodec.AbsorbsRegeneration | src/condition.cpp:875-904 | regeneration: ticks and gains |
| ConditionCodec.AbsorbsSoul | src/condition.cpp:999-1018 | soul: gain and ticks |
| ConditionCodec.AbsorbsLight | src/condition.cpp:1786-1830 | light: color, level, ticks and interval |
| ConditionCodec.AbsorbsAll | src/condition.cpp:103-181 | every property any class writes is accepted again and sets what it was written from |
| ConditionCodec.RoundTrip | src/condition.cpp:92-181 | for every condition of every saved class: all its fields come back and exactly its bytes are consumed |
| ConditionCodec.LoadsWhatWasSaved | src/iologindata.cpp:580-595 | a player gets back the persistent conditions, in order, each as it was, and nothing else |
| ConditionCodec.ComesBackExactly | src/iologindata.cpp:1321-1328 | what a player gets back is, in order, each condition that runs out and has the default or the combat id, or is muted; all of them and no other |
| ConditionCodec.RestoredKeeps | src/condition.cpp:92-181 | and it comes back with every saved field as it was; a damage list starts at the portions that were still to come |
| ConditionCodec.TicksAreTheSum | src/condition.cpp:1164-1174 | short of an overflow the ticks of a loaded damage condition are the sum of its intervals |
| ConditionStreams.Condition.BaseProp | src/condition.cpp:103-160 | the base tags: accepted and set, or refused with nothing changed |
| ConditionStreams.Condition.DamageProp | src/condition.cpp:1150-1177 | the tags of damage |
| ConditionStreams.Condition.SpeedProp | src/condition.cpp:1513-1527 | the tags of speed |
| ConditionStreams.Condition.RegenerationProp | src/condition.cpp:875-887 | the tags of regeneration |
| ConditionStreams.Condition.SoulProp | src/condition.cpp:999-1007 | the tags of soul |
| ConditionStreams.Condition.LightProp | src/condition.cpp:1786-1810 | the tags of light, whose color and level keep their lowest byte |
| ConditionStreams.Condition.OutfitProp | src/condition.cpp:1652-1658 | the tag of outfit |
| ConditionStreams.Condition.AttributesProp | src/condition.cpp:431-443 | the tags of attributes, each value going to the next place of its array |
| ConditionStreams.Condition.UnserializeProp | src/condition.cpp:103-160 | whatever the class, the tag does what the codec says |
| ConditionStreams.Condition.Unserialize | src/condition.cpp:92-101 | the loop ends in exactly the outcome of the codec |
| ConditionStreams.Condition.WriteHeader | src/condition.cpp:162-181 | the header at the end of the stream |
| ConditionStreams.Condition.WriteDamage | src/condition.cpp:1179-1193 | the properties of damage, with the intervals from the front on |
| ConditionStreams.Condition.WriteAttributes | src/condition.cpp:445-466 | the properties of attributes |
| ConditionStreams.Condition.Serialize | src/condition.cpp:162-181 | the stream grows by exactly the encoding of the condition |
| ConditionStreams.ReadField | src/condition.cpp:260-318 | one tagged field of the header, or failure |
| ConditionStreams.CreateCondition | src/condition.cpp:260-318 | null exactly where the codec makes nothing, and its condition otherwise |
| ConditionStreams.Save | src/iologindata.cpp:1321-1328 | the stream holds the encoding of the persistent conditions |
| ConditionStreams.Load | src/iologindata.cpp:580-595 | the conditions are what the codec loads |
| ConditionStreams.Relog | src/iologindata.cpp:580-595 | a load after a save gives exactly those conditions back, in order, in terms of ticks, id and type |
| Augments.FlagsMean | src/damagemodifier.h:120-178 | each flag of the mask that the constructor works out says one thing about the modifier, and no other bit is set |
| Augments.TallyMeans | src/augment.cpp:299-325 | each counter is the number of modifiers with its flag modulo 256, and a bit of the trigger mask is set exactly if some modifier has it |
| Augments.Augment.CountersMean | src/augment.cpp:299-325 | by field: each counter is the number of modifiers with its bit modulo 256, a bit of the trigger mask is set exactly if some modifier has it, and the attack modifiers stand before the defense modifiers |
| Augments.TallyInsert | src/augment.cpp:84-147 | where in the vector a modifier is put makes no difference to counters and mask |
| Augments.StrayIsHarmless | src/augment.cpp:84-136 | a modifier counted but not stored leaves the counters right if and only if it has none of the counted flags and no new bit |
| Augments.Augment.constructor | src/augment.cpp:23-27 | a new augment is empty, with counters to match |
| Augments.Augment.Bump | src/augment.cpp:86-122 | counters and mask with one more modifier |
| Augments.Augment.AddAttackModifier | src/augment.cpp:138-142 | last of the attack modifiers; the defense modifiers stay |
| Augments.Augment.AddDefenseModifier | src/augment.cpp:144-147 | last of the defense modifiers; the attack modifiers stay |
| Augments.Augment.AddModifier | src/augment.cpp:84-136 | goes to the end of its part in insertion order, and the incremental counters stay what a rebuild would give, for the two stances; for a third exactly when it is harmless |
| Augments.Augment.RebuildTriggers | src/augment.cpp:299-325 | counters and mask of the vector, from nothing |
| Augments.Augment.FindGuid | src/augment.cpp:149-170 | the first place with the guid |
| Augments.Augment.Erase | src/augment.cpp:149-170 | one modifier is gone from its part, and the partition moves with it |
| Augments.Augment.RemoveModifier | src/augment.cpp:149-170 | the first attack modifier with the guid, or else the first defense modifier with it, is gone; order, partition and counters are kept |
| Augments.ModifierRoundTrip | src/damagemodifier.h:180-226 | a modifier comes back from its bytes, under a new guid and with the name its buffer holds |
| Augments.TargetNameSurvives | src/damagemodifier.cpp:186-192 | a given name comes back if and only if it is not empty, has no zero in it and is at most 31 bytes long |
| Augments.AugmentRoundTrip | src/augment.cpp:222-272 | name, description and all modifiers in their order come back, and nothing after them is consumed |
| Augments.RebornKeeps | src/augment.cpp:236-272 | with them come back counters and mask |
| Augments.StanceSplit | src/augment.cpp:236-272 | and the partition |
| Augments.Augment.Serialize | src/augment.cpp:222-234 | the stream grows by exactly the byte form |
| Augments.Augment.ReadModifiers | src/augment.cpp:256-269 | the loop sorts and counts each modifier read, or gives up where one is missing |
| Augments.Augment.Deserialize | src/augment.cpp:236-272 | null exactly where the bytes do not parse; otherwise the parts, in order, with counters to match |
| Connections.StepKeepsInv | src/connection.cpp:286-375 | at every step at most one write is outstanding, it carries the front of the queue, and a completion never pops an empty queue |
| Connections.AcceptedIsSent | src/connection.cpp:286-302 | what the queue has taken is what was sent before the close |
| Connections.WritesInSendOrder | src/connection.cpp:352-375 | in every reachable state what is written is the first messages sent, in order, and an outstanding write carries the next |
| Connections.Drains | src/connection.cpp:352-375 | after a graceful close each completion writes one message more |
| Connections.OpenWhileDraining | src/connection.cpp:50-75 | the socket is open exactly as long as something is queued |
| Connections.NeverStuck | src/connection.cpp:352-375 | a completion can come as long as something is queued |
| Connections.GracefulCloseDrains | src/connection.cpp:50-75 | when no write fails, everything sent before a graceful close is written, and the socket is closed then and not before |
| Connections.FailedWriteEnds | src/connection.cpp:361-366 | a run that has had a failed write ends with a closed connection that has nothing queued and no write outstanding, and its socket is closed if and only if the connection had not been closed before |
| Connections.Connection.Close | src/connection.cpp:50-75 | the state after a close, forced or not |
| Connections.Connection.InternalSend | src/connection.cpp:304-330 | a write is started for the front of the queue, or the connection is closed where that throws |
| Connections.Connection.Send | src/connection.cpp:286-302 | queued, and started if the queue was empty; nothing on a closed connection |
| Connections.Connection.OnWriteOperation | src/connection.cpp:352-375 | the front of the queue is popped, which is there; the next write, the close after the last one, or the close on an error |

## Left out

- Sockets, timers, the database, the network protocol, scripts, chat, houses and all notifications of clients.
- Memory orderings: atomics are sequentially consistent; tickets, sequence numbers, counters and ids are unbounded.
- Texts, styles, channels and files of the log: handling a message is one step.
- Floating-point formulas are over the reals, with truncation where the code casts to an integer.
- The SIMD kernels for resistance and resolution are taken lane by lane, as the comments at `src/combat.cpp:3582`, `src/combat.cpp:3625` and `src/combat.cpp:3677` describe them; their own code is not part of this model.
- `block_batch` for monsters, for attackers that are not players, with compiled formulas, and with further blocked combats spawned while the batch is active.
- Block.LaneEqualsScalar: for formulas that are neutral and targets that can pay; one that is not neutral can still give the same result by chance where two truncations meet. For subtraction Block.SubtractiveIff is exact in all cases.
- Blocking: the damage that enters is below 2^31, as the cast to a signed number needs; where percent resistance or ratio mitigation would divide by zero, the code has no defined answer and the model gives 0.
- Block.Combat.StrikeAll: the block step of each strike only; what a strike then does with the damage is stated by Combat.Battle.StrikeTarget.
- Area matrices, target validation and the choice of creatures in an area: any list of creatures may be hit.
- Which modifiers of an augment apply to a strike, and how they are summed up: any lists and sums, given as the plan of the strike. A spawned strike has a plan of its own, which may be any.
- Combat.Battle.HealTarget: without the boosts of healing modifiers, which the code applies after it has read the amount; what is missing to a maximum fits a signed 32-bit number.
- Combat.Battle.StrikeTarget: without weapon charges, conditions attached to a combat, and scripts called on damage; a prepare-death script is a veto.
- Handles: `release()`, the ids of Lua formulas, and more than one registry.
- Containers: the kind and the capacity of an item are fixed (a change of type changes its weight only); the ammunition count of quivers; the ancestors of a depot chest or inbox, whose `getParent` skips a level (the holder in the model is what `getParent` answers).
- ContainerWalks.QueryAdd: the answer of a top parent that is an inbox, a locker, a player or a tile is arbitrary, and so is that of the house rule.
- ContainerWalks.MoveItem: the containers' part of moving a whole item between two containers; merging of stacks, swapping, trade and scripts are not part of this model.
- Containers.Forest.RemoveThing: the item is taken out before the weights are updated, not after; the result is the same.
- Ledger: what equipment adds and suppresses does not change while conditions come and go; one removal reads the walk delay once; what clients are shown of a light or an outfit is left out.
- Ledger: offsets are unbounded integers; the use of defense that attributes can switch off is not part of it.
- Ledger.Creature.ApplyAttributes: what slots given in per cent come to depends on the player and is arbitrary here; the offsets change by whatever it is.
- Ledger.Creature.RefreshDamage: the damage dealt at once is not taken off the creature here, and where portions are drawn at random they are any.
- Ledger.Creature.Execute: what conditions of other kinds do is any number of additions and removals of conditions.
- Condition objects are told apart by identity; the reuse of an address is not modelled.
- DamageList.GenerateDamageList: the product of a portion's index and the amount does not wrap around, and the distance test is exact.
- Condition fields that are not saved: end times, percent arrays, minimum and maximum damage, drunkenness, and the running counters of regeneration, soul and light.
- ConditionStreams.Condition.AttributesProp: more values than an array has places are refused; the code does not look.
- Connections: what happens to writes already started when a closed connection breaks is left to the destructor.
