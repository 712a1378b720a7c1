# A verified model of the game server's stateful core

This project models, in Dafny, the parts of the server that keep state and change it step by step, and proves what
they promise. Five parts are modelled, each as a specification by functions over values, laws proved about that
specification, and classes whose methods change their fields in place and are proved against it.

**The node-stream file.** `Bytes`, `NodeFormat`, `NodeNet`, `FileLoader`, `ReadBack`. Trees of typed nodes are printed
with START, END and ESCAPE bytes and parsed back by a reader that works through a cache of three blocks. The grammar
is a function on byte strings; the reader, its loops, its step back at each level and its cache are the class
`Loader`. Modelling choices: `unsigned long` has 32 bits, so that the index -1 of a failed load is the mark for "no
valid block"; the file is a byte sequence, and reading it does not fail; a version read from a file of fewer than four
bytes is an arbitrary number.

**Rows.** `ItemRecord`, `ItemRows`, `PlayerRows`, `PlayerStore`, `TileRows`. Inventories and depots are flattened
breadth first into numbered rows and rebuilt by walking the numbers down. Map tiles are rebuilt by a like walk, but
rows whose item is no longer on the tile are skipped there, and the walk starts at the number of rows that are left.

**Items in containers.** `Sums`, `ItemForest`, `ItemMove`, `MoveLaws`, `DepotLaw`, `MoveWhere`, `ItemOps`, `ItemRuns`,
`ItemSearch`, `ItemWitness`, `GameWorld`, `Coins`, `Money`, `Change`, `Payment`, `Purses`. A world of things with
parent pointers, item lists and counts; `State` is its value, and the class `Game` its objects; the methods of
containers, depots and things are methods of `Game` with the container as an argument, since `Game` keeps the ghost
record of what is above each thing. A `Tile` is a cylinder without limits at the end of a chain of parents, whose
first item is the one that a dropped stack may join. A depot cannot be moved; it stands on a tile, or nowhere until it
is opened (`source/actions.cpp`, line 385). Capacities have 16 bits, as in the item table, and counts 8; counts over
100 make the unsigned difference to 100 wrap, and what does not fit 8 bits is lost, as there. A stackable type has no
charges and is no fluid. Containers under no tile come to these operations in three ways. The rent of a house is paid
from a depot that has just been loaded (`source/house.cpp`, line 838). A creature that has been taken off the map is
"removed" by a flag of its own (`source/creature.h`, line 116); `moveItem` asks for it (`source/game.cpp`, line 920),
but ammunition that is thrown and kept is moved one piece at a time out of wherever it is without asking
(`source/weapons.cpp`, line 419), and ammunition that is used up is removed one piece at a time in the same way (lines
404 to 409, by `source/game.cpp`, line 1590). `FreeThing` collects the things to be released. `removeMoney` sums in
signed 32-bit arithmetic, `getMoney` in unsigned.

**Two protocols.** `Scheduler` and `EventThread`: the event queue, the map of events not cancelled, and a worker that
waits with the lock released; each section under the lock is one step. `TradeProtocol` and `TradeTable`: the trade
handshake between any number of players.

**Damage and attributes.** `DamageList`, `DamageCondition`, `AttributeList`, `PropStreams`, `ItemStream`,
`StreamedItem`, `ConditionStream`. Damage lists use exact arithmetic: real numbers for the comparison of relative
errors, unbounded integers for the products.

Where a promise does not hold of the code as it stands, the exact condition under which it does is proved:
`RoundTripIffReadable`, `WriteAndRead`, `MoveConservesIff`, `AddWealthIff`, `NothingLostIff`, `RemovedNothingLostIff`,
`LeftBehindIff`, `EnoughIff`, `ExactIff`, `LinkedIff`, `AddSafeIff`, `StepKeepsIff` of items and of the trade,
`TotalExactIff`, `ExpiresDoneIff`, and the two lemmas named `RestoredIffStorable`. `ReservedTypeLost`, `StackSpills`,
`PieceFreesStack`, `RemovalFreesStack`, `GoldLeftBehind`, `ChangeIsLost`, `TooRichToPay`, `GapLosesItem`,
`ZeroChargesLost`, `ReusedIdRunsStopped`, `AskedAcceptsCrashes`, `TooMuch`, `OddIntervalLeavesRounds` and
`KeptRoundLeft` are inputs on which a promise fails. The signal that `addEvent` sends to the worker compares the wrong
way round: an event that becomes the first of a queue that was not empty sends none (`EventScheduler.AddEvent`). That
makes events late, never early.

Verify everything with `dafny verify dfyconfig.toml`.

## Model

| member | source | states |
|---|---|---|
| `NodeFormat.UnescapeEscape` | source/fileloader.h:135-154 | dropping the escape bytes gives back every byte string that the writer escaped, reserved bytes included |
| `NodeFormat.FileBytes` | source/fileloader.h:135-154 | the bytes of a file with two siblings, a child and reserved bytes among the properties |
| `NodeFormat.ParseInversion` | source/fileloader.cpp:115-202 | how an accepted node came about: one properties region, at most one first child, and its END byte |
| `NodeFormat.ParsePrinted` | source/fileloader.cpp:115-202 | a printed forest of readable nodes is parsed into the net of the same shape, and the reader stops exactly at the parent's END byte |
| `NodeFormat.PrintedMatches` | source/fileloader.cpp:204-244 | every node of that net has the type that was written, and its region unescapes to the properties that were written |
| `NodeFormat.FileRoundTrip` | source/fileloader.cpp:55-113 | a whole file is read back to its last byte with the same shape, sibling order, types and properties |
| `NodeFormat.RoundTripIffReadable` | source/fileloader.cpp:115-202 | the round trip holds if and only if every node's type is below ESCAPE, or is ESCAPE with properties that absorb the extra byte: the writer escapes the type, the parser reads it raw |
| `NodeFormat.ReservedTypeLost` | source/fileloader.cpp:269-274 | a lone node of type END is not read back |
| `NodeFormat.AcceptedRegions` | source/fileloader.cpp:115-202 | on any byte string the parser accepts, the properties regions lie in the file, end at the first unescaped START or END, and are disjoint and in order |
| `NodeFormat.AcceptedRegionsClean` | source/fileloader.cpp:204-244 | so no region holds an unescaped START or END or a dangling ESCAPE, and unescaping it in place is safe |
| `Bytes.AndNotWithin` | source/fileloader.cpp:475-492 | the base of a block is never above the position nor a whole block below it, whatever the block size |
| `FileLoader.FaithfulByte` | source/fileloader.cpp:494-539 | a loaded block answers for each of its bytes as the file does, and says where the file ends |
| `FileLoader.FaithfulSlice` | source/fileloader.cpp:494-539 | a piece of a loaded block is that piece of the file |
| `FileLoader.Loader.LoadCacheBlock` | source/fileloader.cpp:494-539 | loading and evicting keep every loaded block equal to its window of the file, for block sizes that are no power of two as well |
| `FileLoader.Loader.GetCacheBlock` | source/fileloader.cpp:475-492 | the block found or loaded covers the position |
| `FileLoader.Loader.ReadByte` | source/fileloader.cpp:312-344 | with or without the cache, the next byte of the file or its end, and the position after it |
| `FileLoader.Loader.SafeSeek` | source/fileloader.cpp:430-449 | the position asked for, which always succeeds within the file |
| `FileLoader.Loader.SafeTell` | source/fileloader.cpp:451-473 | the position of the byte just read, one less than the next |
| `FileLoader.Loader.ReadBytes` | source/fileloader.cpp:346-390 | exactly the bytes of the file, put together from as many blocks as it takes; nothing beyond them is written |
| `FileLoader.Loader.UnescapeBuffer` | source/fileloader.cpp:215-235 | the loop that rewrites the buffer in place computes the functional unescape |
| `FileLoader.Loader.GetProps` | source/fileloader.cpp:204-244 | the unescaped properties of a node; for each node the buffer grows by one step of 1024 bytes at most, and a node larger than that overruns it |
| `FileLoader.Loader.ParseNode` | source/fileloader.cpp:115-202 | terminates, accepts exactly what the grammar accepts, links nodes that spell the parsed net, and leaves the reader where the grammar says |
| `FileLoader.Loader.ParseBody` | source/fileloader.cpp:124-194 | the inner loop: the properties end at the first unescaped START or END, and behind it come the child if there is one and the END byte |
| `FileLoader.Loader.ParseChild` | source/fileloader.cpp:128-144 | entered only while `child` is not set, so it is set at most once: a child is parsed from its START byte, and the reader ends up at its parent's END byte |
| `FileLoader.Loader.ParseSibling` | source/fileloader.cpp:145-188 | the byte behind END: a sibling, the end of the siblings with one step back, or a format error |
| `FileLoader.Loader.OpenForReading` | source/fileloader.cpp:55-113 | opening succeeds if and only if the version is zero and the rest is accepted, with the cache on or off |
| `FileLoader.Loader.OpenForWriting` | source/fileloader.cpp:55-71 | a new file holds the four version bytes |
| `FileLoader.Loader.WriteData` | source/fileloader.h:135-154 | the bytes appended to the file are the escaped ones, or the plain ones |
| `FileLoader.WriteForest` | source/fileloader.cpp:260-280 | nodes written by start, properties in pieces, children and end append the printed forest |
| `ReadBack.ReadForest` | source/fileloader.cpp:282-309 | the walk over children and siblings, with the properties of each node, gives the forest that the nodes hold, or stops where the buffer is overrun |
| `ReadBack.WriteAndRead` | source/fileloader.cpp:55-309 | a file that is written, opened and read node by node gives back the forest if and only if every node is readable and none is beyond what the buffer has grown to |
| `ReadBack.SmallFits` | source/fileloader.cpp:210-214 | properties of up to 2048 bytes, escapes included, always fit |
| `ReadBack.MatchesIffForestOf` | source/fileloader.cpp:204-244 | a net stands for one forest only |
| `FileLoader.Serve` | source/fileloader.cpp:312-473 | over any run of seeks, byte reads, block reads and tells, the cached reader gives the answers of the plain file |
| `ItemRecord.RestoredIffStorable` | source/ioplayersql.cpp:181-195 | one save and load gives an item back, any decay as pending, if and only if the columns have room for it: no unique id, no owner, and so on; count, fluid and charges have 8 bits |
| `ItemRecord.ZeroChargesLost` | source/item.cpp:121-140 | an item worn out to no charges is given charges again |
| `ItemRecord.ColumnsAre` | source/ioplayersql.cpp:425-426 | each column of a saved row holds what it is named for; the number is the fluid, the charges if there are any, or the count |
| `ItemRecord.LoadedColumns` | source/ioplayersql.cpp:181-195 | what a loaded item has of each column: type and texts as they are, action ids from 100, durations and charges above 0, any decay as pending |
| `ItemRows.BfsRebuilds` | source/ioplayersql.cpp:225-235 | the walk down the numbers, pushing to the front, gives every queued container its items back in order, at any depth |
| `ItemRows.BfsRows` | source/ioplayersql.cpp:439-462 | each row written has the next number, no slot, and the number of a container written before it |
| `ItemRows.BfsCounts` | source/ioplayersql.cpp:485-508 | working off the queue writes one row for each item inside it |
| `PlayerRows.SavedNumbered` | source/ioplayersql.cpp:407-508 | the numbers are exactly 1 to N, and a contained item comes after its container |
| `PlayerRows.SavedCount` | source/ioplayersql.cpp:407-508 | there are as many rows as the player has items |
| `PlayerRows.SlotSaved` | source/ioplayersql.cpp:418-508 | the first row with an inventory slot, and the rows below it, have the columns of the item there and of all that is inside it, in order |
| `PlayerRows.DepotSaved` | source/ioplayersql.cpp:464-508 | and so has the first row with a depot's slot |
| `PlayerRows.SlotReloaded` | source/ioplayersql.cpp:198-201 | an inventory slot is loaded with the tree that was saved from it |
| `PlayerRows.DepotReloaded` | source/ioplayersql.cpp:202-206 | a depot is loaded with the tree that was saved from it |
| `PlayerRows.SaveLoadRestores` | source/ioplayersql.cpp:177-235 | saving a player and loading the rows restores every inventory slot and depot: the same nesting, the same order, and no others |
| `PlayerStore.WorkOff` | source/ioplayersql.cpp:439-462 | the loop with the queue and the running number writes the breadth-first rows |
| `PlayerStore.SavePlayer` | source/ioplayersql.cpp:407-508 | the save loops write the rows of the inventory, then of the depots from the highest id down, and the rows of each slot and depot hold the columns of its items |
| `PlayerStore.CreateItems` | source/ioplayersql.cpp:181-221 | one new object for each row, found by its number, with what the columns of the row say, and slots and depots filled by their first row; it gives up if and only if a row names a depot's slot and is no locker, or a slot from 11 to 99 |
| `PlayerStore.LinkItems` | source/ioplayersql.cpp:223-235 | the loop down the numbers leaves each container with its items in their saved order |
| `TileRows.LinkTile` | source/iomapserializesql.cpp:297-313 | for the rows of a tile, of which some may be missing: each container gets the items of the rows up to the number of rows that are there, in order and in front of what it held |
| `TileRows.LinkedIff` | source/iomapserializesql.cpp:297-313 | so a row that belongs into a container is linked if and only if its number is at most that |
| `TileRows.KidsLast` | source/iomapserializesql.cpp:297-313 | the items of a container stand in the order of their rows |
| `TileRows.NoGapIff` | source/iomapserializesql.cpp:285-298 | all numbers are at most that if and only if no number below the highest is missing |
| `TileRows.GapLosesItem` | source/iomapserializesql.cpp:255-298 | with row 1 skipped, row 2 a container and row 3 inside it, row 3 is not linked |
| `PlayerStore.LoadPlayer` | source/ioplayersql.cpp:177-235 | unless it gives up, the objects reachable from each slot and depot form the tree that the rows describe |
| `PlayerStore.SavedLoadable` | source/ioplayersql.cpp:407-508 | what a save writes is fit to be loaded |
| `ItemForest.LinkForest` | source/container.cpp:500-518 | putting a detached thing into a container it does not hold keeps the forest: in a list exactly once iff the container is the parent, and nothing inside itself |
| `ItemForest.UnlinkForest` | source/container.cpp:597-606 | taking a thing out keeps the forest |
| `ItemForest.AboveLinear` | source/container.cpp:352-358 | of two containers above one thing, one is above the other |
| `MoveLaws.PlanSound` | source/game.cpp:964-1042 | what the queries let through: the item is in its source, the destination is not inside it, there is something to move, and no more than the stack has |
| `MoveLaws.MovedForest` | source/game.cpp:1044-1073 | a move keeps the forest a forest |
| `MoveLaws.MoveLedger` | source/game.cpp:1050-1067 | whatever a move does, full, split or merged, on a tile or not, the number of items of every type stays the same, but for 256 if a count does not fit its 8 bits, and for the rest of a stack that is handed over although a piece of it was taken only |
| `MoveLaws.MoveConservesIff` | source/game.cpp:1050-1067 | so the numbers stay the same if and only if the count at the destination and what is added to it make no more than 255, and no piece of a stack is taken from a container under no tile; only a stack of over 100 can go beyond 255 |
| `MoveLaws.MoveConserves` | source/game.cpp:1044-1073 | while stacks hold 100 at most, the number of items of every type stays the same, unless a piece is taken under no tile |
| `MoveLaws.MoveStacks` | source/game.cpp:1050-1063 | a move leaves every stack between 1 and 100 |
| `MoveLaws.NothingLostIff` | source/game.cpp:1065-1067 | a move hands an item that is still in a container over for deletion if and only if a piece was taken from a container under no tile |
| `ItemWitness.PieceFreesStack` | source/game.cpp:1065-1067 | 3 of 10 are taken from a container that is nowhere; the stack is handed over while the container lists it, and 7 are lost |
| `ItemWitness.StackSpills` | source/game.cpp:1050-1063 | 100 are moved onto 200 on a tile, and 256 are lost |
| `MoveLaws.PlanHasRoom` | source/container.cpp:375-420 | without the flag that lifts limits, something new goes only where a slot is free |
| `MoveLaws.MoveRoom` | source/game.cpp:1044-1073 | then no container comes to hold more than its capacity |
| `MoveWhere.TargetIs` | source/container.cpp:446-493 | where an item dropped on an index goes: up into the container around for 254, into the container itself for 255, into a container that lies at the index, or onto the item there |
| `MoveWhere.WholeGoes` | source/game.cpp:1044-1073 | an item that does not stack and is moved goes to the front of its target, and nothing else moves |
| `MoveWhere.StackGoes` | source/game.cpp:1016-1073 | of a stack goes what is asked for and fits; the item at the target takes what it is short of 100, the rest becomes a new stack at the front of the target, and the answer says whether all has gone |
| `MoveWhere.MovedIff` | source/game.cpp:964-1042 | an item is moved if and only if it may enter, every depot around the target takes it, there is room, it is in its source in that quantity, and it can be moved |
| `MoveWhere.RefusedBecause` | source/game.cpp:964-1042 | each error has its own reason |
| `MoveWhere.DepotQueryIs` | source/depot.cpp:94-126 | a depot says yes if and only if what it holds and what would come from outside are within its limit |
| `MoveWhere.MaxIs` | source/container.cpp:375-420 | the quantity that fits: 100 for every free slot, and what the item at the index is short of 100 |
| `DepotLaw.TopIsDepot` | source/thing.cpp:75-94 | the top container of a thing is the depot if and only if the thing is the depot or inside it; if the depot stands nowhere, only for itself and simple items in its list |
| `DepotLaw.DepotIsAsked` | source/container.cpp:367-372 | whatever is added inside a depot on a tile, at any depth, the depot is asked; a depot that stands nowhere is asked for what is added to itself |
| `DepotLaw.NestedNotAsked` | source/container.cpp:364-373 | whether a container in such a depot takes an item has nothing to do with the depot's limit |
| `DepotLaw.SplitIsAsked` | source/depot.cpp:107-109 | a stack split inside the depot is asked about as one more item, unless it is taken whole |
| `DepotLaw.MoveDepots` | source/depot.cpp:94-126 | a move without the flag that lifts limits leaves no depot with more things, at any depth, than its limit |
| `ItemOps.AddPlanSound` | source/game.cpp:1100-1129 | what the queries let through when an item is added |
| `ItemOps.AddedForest` | source/game.cpp:1131-1168 | adding keeps the forest a forest |
| `ItemOps.AddDepots` | source/game.cpp:1100-1172 | adding without the flag that lifts limits leaves no depot over its limit |
| `MoveWhere.AddedIff` | source/game.cpp:1100-1129 | an item is added if and only if it may enter and there is room for all of it |
| `MoveWhere.AddGoes` | source/game.cpp:1131-1168 | where it goes, and how much of it joins the item there |
| `ItemOps.LeftBehindIff` | source/game.cpp:1136-1152 | an added item ends up in a container or is handed over for deletion, except if and only if it is split between the item at the destination and a new stack: then it is left behind |
| `ItemWitness.GoldLeftBehind` | source/game.cpp:1136-1152 | 99 gold are added on a tile where 60 lie, and the added item is left behind |
| `ItemOps.RemovedNothingLostIff` | source/game.cpp:1203-1206 | a removal hands an item that is still in its container over for deletion if and only if a piece of it was removed under no tile |
| `ItemWitness.RemovalFreesStack` | source/game.cpp:1203-1206 | 1 of 10 is removed from a container that is nowhere, and the stack of 9 is handed over while the container lists it |
| `ItemOps.RemovedStacks` | source/game.cpp:1194-1208 | removing keeps stacks between 1 and 100 |
| `ItemOps.RemovedLimits` | source/game.cpp:1194-1208 | removing leaves no container and no depot fuller, on a tile or not |
| `MoveWhere.RemoveGoes` | source/game.cpp:1174-1208 | an item is removed if and only if it is in a container, is no depot and has so many; a piece leaves the rest where it is |
| `ItemOps.ReplacedForest` | source/container.cpp:540-570 | replacing keeps the forest a forest |
| `GameWorld.ReplaceIs` | source/container.cpp:540-570 | the new item stands at the index of the old one, which is nowhere then; an index beyond the list changes nothing |
| `ItemOps.ReplacedLimits` | source/container.cpp:540-570 | replacing by an empty item leaves every container and depot within its limit |
| `ItemRuns.StepKeepsIff` | source/game.cpp:964-1211 | an operation keeps the forest, the stacks and what is handed over for deletion in order if and only if it takes no piece of a stack under no tile; and it keeps the limits unless it lifts them |
| `ItemRuns.RunKeeps` | source/game.cpp:964-1211 | so over any run of such moves, additions, removals and replacements |
| `ItemRuns.RunConserves` | source/game.cpp:964-1098 | over any run of such moves, the number of items of every type stays the same |
| `ItemSearch.VisitAll` | source/container.cpp:203-226 | the walk with a queue comes to all that is inside, and to nothing else |
| `ItemSearch.VisitOnce` | source/container.cpp:203-226 | and to each thing once |
| `ItemSearch.VisitWeight` | source/container.cpp:164-188 | adding weights along the walk gives the recursive weight of the tree |
| `ItemSearch.SplitWeight` | source/item.cpp:640-646 | splitting a stack changes no weight |
| `GameWorld.Game.GetTopParent` | source/thing.cpp:75-94 | the loop up the parents finds the outermost container below the root |
| `GameWorld.Game.IsAbove` | source/container.cpp:352-358 | the loop up the parents finds a thing exactly if it is above the container |
| `GameWorld.Game.IsGone` | source/thing.cpp:129-139 | a thing is removed exactly if its chain of parents does not end in a tile |
| `GameWorld.Game.GetItemHoldingCount` | source/container.cpp:203-226 | the number of things inside, at any depth |
| `GameWorld.Game.IsHoldingItem` | source/container.cpp:228-252 | true if and only if the item is inside, at any depth |
| `GameWorld.Game.GetWeight` | source/container.cpp:164-188 | the recursive weight of the tree |
| `GameWorld.Game.DepotQueryAdd` | source/depot.cpp:94-126 | the depot's answer, by counting what it holds and what would come |
| `GameWorld.Game.ContainerQueryAdd` | source/container.cpp:329-373 | the container's answer, in the order of its checks |
| `GameWorld.Game.CylinderMaxCount` | source/container.cpp:375-420 | how much fits, in unsigned arithmetic |
| `GameWorld.Game.CylinderQueryRemove` | source/container.cpp:422-444 | whether an item may be taken out |
| `GameWorld.Game.CylinderDestination` | source/container.cpp:446-493 | where an item dropped on an index really goes |
| `GameWorld.Game.CylinderAdd` | source/container.cpp:500-518 | the world after the change of list and parent is the linked world |
| `GameWorld.Game.CylinderUpdate` | source/item.cpp:222-235 | only the count of the item changes, and keeps 8 bits of the number |
| `GameWorld.Game.CylinderReplace` | source/container.cpp:540-570 | one item takes the place of another in the list, which is detached |
| `GameWorld.Game.CylinderRemove` | source/container.cpp:572-608 | part of a stack goes, or the item leaves list and parent |
| `GameWorld.Game.InternalMoveItem` | source/game.cpp:964-1098 | the answer and the whole new world of a move, for every outcome |
| `GameWorld.Game.InternalAddItem` | source/game.cpp:1100-1172 | the answer and the whole new world of an addition; with the test flag the answer only |
| `GameWorld.Game.InternalRemoveItem` | source/game.cpp:1174-1211 | the answer and the whole new world of a removal; with the test flag the answer only |
| `Coins.Denominations` | source/item.cpp:805-818 | gold coins are worth 1, platinum coins 100 and crystal coins 10000, by their ids, and nothing else is worth anything |
| `Coins.VisitWealth` | source/game.cpp:1363-1412 | the walk through a container meets all its wealth |
| `Coins.CoinsInSum` | source/game.cpp:1434-1467 | the coins collected are worth as much as all that was looked at, and stand in ascending order of worth |
| `Coins.CoinsInAre` | source/game.cpp:1434-1467 | they are exactly the things that are worth something, each once |
| `Coins.RemoveWealth` | source/game.cpp:1174-1211 | removing a coin lowers the wealth around it by its worth and touches nothing else, on a tile or not |
| `Coins.AddWealth` | source/game.cpp:1100-1172 | adding a coin raises the wealth by its worth, merged or not, but for what spills |
| `Coins.AddWealthIff` | source/game.cpp:1136-1152 | by exactly its worth if and only if nothing spills, and nothing does unless the stack it joins holds over 100 |
| `Money.GetMoney` | source/game.cpp:1363-1412 | the wealth inside the cylinder, modulo two to the 32nd |
| `Money.CollectCoins` | source/game.cpp:1426-1467 | the coins in ascending order of worth, and their worth in signed 32-bit arithmetic |
| `Change.GetTile` | source/thing.cpp:96-105 | the tile that the cylinder stands on, or none |
| `Change.AcceptsIff` | source/container.cpp:329-420 | a container takes a stack of coins if and only if coins of the type may be picked up, and limits are lifted or it and the depot around it have room |
| `Change.FreeAdded` | source/game.cpp:1100-1168 | and has then room for one less |
| `Change.GiveChange` | source/game.cpp:1491-1498 | a stack of change goes into the cylinder if it takes it, else onto the tile if there is one, else it is lost; the wealth around the cylinder rises by what comes in, and nothing else moves |
| `Change.GiveAllChange` | source/game.cpp:1483-1516 | change of exactly the excess on a tile, and of the stacks the cylinder has room for under no tile, in at most one stack of each coin, of 1 to 99 coins |
| `Change.AllKeptIff` | source/game.cpp:1487-1516 | all stacks are kept if and only if all may be picked up, and limits are lifted or there is room for all |
| `Change.ChangeParts` | source/game.cpp:1484-1489 | the three parts of the change are below 100 each and add up |
| `Payment.RemoveMoney` | source/game.cpp:1414-1527 | for any cylinder, with limits or without: true if and only if enough is found; otherwise nothing changes; the wealth around the cylinder falls by the price and the change that is lost, paid from the fewest of the least coins, and all other things stay where they are |
| `Payment.FreeTaken` | source/game.cpp:1474-1477 | the room there is for change is the room before and the places of the coins taken |
| `Payment.ExactIff` | source/house.cpp:835-838 | the payment is exact if and only if the cylinder stands on a tile, or takes all the change: each coin may be picked up, and limits are lifted, as for the rent, or there is room for every stack |
| `Purses.ChangeIsLost` | source/game.cpp:1491-1498 | a bag of one slot with one crystal coin, under no tile, pays 1 and loses 99 |
| `Payment.EnoughIff` | source/game.cpp:1469-1472 | enough is found if and only if the price is at most what `getMoney` shows and that fits a signed number |
| `Purses.TooRichToPay` | source/game.cpp:1363-1472 | a purse is filled with 2147483648; `getMoney` shows it all, and `removeMoney` refuses a price of 1 |
| `Scheduler.StepKeeps` | source/game.cpp:225-368 | every step keeps queue, map and history in order and does to the set of live events what it should: adding adds one, stopping removes the one with the id and says whether there was one, a time-out takes one out and runs it if and only if it is live |
| `Scheduler.TimeoutPossible` | source/game.cpp:254-257 | on a time-out the queue is not empty |
| `Scheduler.RunKeeps` | source/game.cpp:225-368 | so over every interleaving of additions, stops and worker steps |
| `Scheduler.StoppedNeverRuns` | source/game.cpp:350-368 | a task whose stop said yes never runs, at any point of the run |
| `Scheduler.StoppedIff` | source/game.cpp:350-368 | the stopped tasks are exactly those of which a call to stop answered yes |
| `Scheduler.RunsOnceAndInTime` | source/game.cpp:239-274 | a task that is done with has run exactly once, unless it was stopped, and not before it was due; every task is deleted at most once, and none is lost |
| `Scheduler.NextPossible` | source/game.cpp:239-274 | nothing keeps an idle worker from dealing with the first event once it is due |
| `Scheduler.NextDone` | source/game.cpp:239-274 | and then it runs that event exactly if it is not stopped, and deletes it; the others stay queued |
| `Scheduler.AddSafeIff` | source/game.cpp:328-334 | an event is added and every continuation does to the live events what it should, if and only if its id is not 0, no live event has it, and every stopped event still queued that has it is due later |
| `Scheduler.ReusedIdRunsStopped` | source/game.cpp:260-266 | if a stopped event's id is given to another while it is queued, the stopped event runs |
| `Scheduler.CounterIsFair` | source/game.cpp:328-331 | ids from the counter never clash until the counter comes round |
| `EventThread.EventScheduler.AddEvent` | source/game.cpp:323-348 | one step of the scheduler for any id, which keeps its order if the id may be used; the event keeps an id it has, or gets the next number; the worker is signalled if the queue was empty or another event is due earlier, so not for an event that is due first |
| `EventThread.EventScheduler.StopEvent` | source/game.cpp:350-368 | one step of the scheduler |
| `EventThread.EventScheduler.BeginWait` | source/game.cpp:245-252 | the worker begins to wait until the earliest due time of all events, or for a signal if there are none |
| `EventThread.EventScheduler.EndWait` | source/game.cpp:253-268 | the wait ends by a signal, or by taking out an event that is due |
| `EventThread.EventScheduler.RunTask` | source/game.cpp:269-274 | what was taken out runs exactly if it was not cancelled by then, and is deleted |
| `TradeProtocol.StartKeeps` | source/game.cpp:2069-2103 | an offer keeps the table in order |
| `TradeProtocol.CloseClears` | source/game.cpp:2274-2327 | closing takes both partners out with all they offered, gives back one reference for each item, and changes nothing else |
| `TradeProtocol.AcceptMeans` | source/game.cpp:2105-2204 | what accepting does in each case; it keeps the table in order if and only if the player has an item on offer |
| `TradeProtocol.AskedAcceptsCrashes` | source/game.cpp:2162-2188 | if a player without an item accepts, the trade ends in a null pointer |
| `TradeProtocol.StepKeepsIff` | source/game.cpp:2069-2327 | a step keeps the table in order if and only if nobody accepts without an item: only traders have partners, partners are mutual, the table holds exactly the offered items with one reference each, and no transfer is visible |
| `TradeProtocol.RunKeeps` | source/game.cpp:2069-2327 | so over any run, by any number of players |
| `TradeProtocol.RunNeverCrashes` | source/game.cpp:2105-2204 | and such a run never comes to a null pointer |
| `TradeTable.Trades.BeingTraded` | source/game.cpp:2048-2058 | finds out whether an item is, holds or lies in something on the table |
| `TradeTable.Trades.RequestTrade` | source/game.cpp:2010-2067 | an offer goes on the table if and only if the players differ and are in reach, the item may be picked up, has nothing to do with what is there and is no container of 100 things or more, and neither trades with somebody else |
| `TradeTable.Trades.StartTrade` | source/game.cpp:2069-2103 | an offer is taken if and only if neither trades with somebody else; the fields and the table after it |
| `TradeTable.Trades.AcceptTrade` | source/game.cpp:2105-2204 | the answer, the fields and the table after an acceptance; the table stays in order if and only if the player was not merely asked |
| `TradeTable.Trades.CloseTrade` | source/game.cpp:2274-2327 | the fields and the table after a trade is closed |
| `DamageList.NearerIff` | source/condition.cpp:1087-1090 | the comparison of relative errors is the integer comparison 2 sum + i < 2 mark |
| `DamageList.GenerateDamageList` | source/condition.cpp:1072-1092 | the nested loops terminate and build the list |
| `DamageList.DamagesFall` | source/condition.cpp:1079-1086 | the list never rises, and holds every value from the start value to 1 and no other |
| `DamageList.DamagesFollow` | source/condition.cpp:1077-1091 | once all values of at least `i` have been dealt, the damage is as near to the mark as copies of `i` can bring it |
| `DamageList.MarkIs` | source/condition.cpp:1080-1081 | the mark is the part (start + 1 - i) / start of the amount, without its fraction |
| `DamageList.TotalIs` | source/condition.cpp:1072-1092 | its sum is the amount, or 1 + ... + start if that is more |
| `DamageList.TotalExactIff` | source/condition.cpp:1072-1092 | so it is exactly the amount if and only if start (start + 1) is at most twice the amount |
| `DamageList.TooMuch` | source/condition.cpp:1072-1092 | with a larger start value it may be too much |
| `DamageCondition.ConditionDamage.AddDamage` | source/condition.cpp:854-866 | that many equal rounds, and their time |
| `DamageCondition.ConditionDamage.Init` | source/condition.cpp:868-892 | the rounds of the generated list, two seconds each, from the start value: the one given, at most the greatest damage, or else the least that is not below a twentieth of the amount |
| `DamageCondition.ConditionDamage.StartCondition` | source/condition.cpp:893-903 | the list is made unless there is one, beginning with the start value; unless it is delayed, the first round is dealt at once, and the answer is whether that succeeded |
| `DamageCondition.ConditionDamage.ExecuteCondition` | source/condition.cpp:922-951 | one tick of the first round and of the time left |
| `DamageCondition.TickedAt` | source/condition.cpp:922-951 | a closed form for the condition after any sequence of ticks, whether the creature keeps a round or lets it go |
| `DamageCondition.ExpiresDoneIff` | source/creature.cpp:762-774 | when the condition expires, no round is left if and only if the creature has let go of as many as there were; what was dealt is known in any case |
| `DamageCondition.RemovedIs` | source/condition.cpp:934-947 | these are the ticks at the end of a round on which the creature did not keep it |
| `DamageCondition.AllGoDoneIff` | source/condition.cpp:163-171 | a creature that keeps none has been dealt all if and only if the condition has lasted as many ticks as the rounds take |
| `DamageCondition.WholeCourse` | source/condition.cpp:893-951 | start and ticks together, for every interval and creature: when all has been dealt and let go; and always if the interval divides a round and no round is kept |
| `DamageCondition.CourseDealsTotal` | source/condition.cpp:868-951 | then the damage dealt is the total of the list, and the amount if and only if start (start + 1) is at most twice that; with no start value given, if and only if the amount is at most 760, or is 780 |
| `DamageCondition.OddIntervalLeavesRounds` | source/condition.cpp:922-951 | an interval that does not divide a round may leave rounds undealt |
| `DamageCondition.KeptRoundLeft` | source/condition.cpp:934-947 | so may a creature that keeps a round |
| `AttributeList.OneMoreBit` | source/item.h:130-139 | setting the bit of one attribute sets that bit and no other |
| `AttributeList.ItemAttributes.AddAttr` | source/item.cpp:956-969 | one more node at the end of the list, with its bit |
| `AttributeList.ItemAttributes.FindAttr` | source/item.cpp:971-989 | the node of an attribute if it is set; that there is a bit but no node never happens |
| `AttributeList.ItemAttributes.GetAttr` | source/item.cpp:991-1013 | the node of an attribute, added if there was none |
| `AttributeList.ItemAttributes.GetIntAttr` | source/item.cpp:886-898 | the number last set, or 0 |
| `AttributeList.ItemAttributes.SetIntAttr` | source/item.cpp:900-909 | the map with this number set |
| `AttributeList.ItemAttributes.IncreaseIntAttr` | source/item.cpp:911-920 | the map with the number increased in machine words |
| `AttributeList.ItemAttributes.GetStrAttr` | source/item.cpp:842-854 | the string last set, or the empty one |
| `AttributeList.ItemAttributes.SetStrAttr` | source/item.cpp:856-871 | the map with this string set, unless it is empty |
| `AttributeList.SetDuration` | source/item.h:121 | a duration is kept as an unsigned number |
| `AttributeList.DecreaseDuration` | source/item.h:122-124 | durations count down modulo two to the 32nd |
| `PropStreams.StringBack` | source/fileloader.h:222-238 | a string written is read back up to 65535 bytes and its first zero |
| `PropStreams.LeAt` | source/fileloader.h:293-302 | byte `i` of a number is the one with weight 256 to the `i` |
| `PropStreams.PropWriteStream.AddBytes` | source/fileloader.h:293-302 | the bytes are appended, and the size never exceeds the buffer |
| `PropStreams.PropWriteStream.AddString` | source/fileloader.h:316-328 | the length and the bytes are appended |
| `PropStreams.PropStream.GetBytes` | source/fileloader.h:200-208 | the next bytes, if there are enough |
| `PropStreams.PropStream.GetText` | source/fileloader.h:222-238 | the next string, if it is all there |
| `ItemStream.ParseSerialize` | source/item.cpp:528-587 | reading what an item has written always succeeds, and gives this |
| `ItemStream.RestoredIffStorable` | source/item.cpp:381-587 | a new item of the type becomes the item that wrote the stream, any decay as pending, if and only if its texts, ids, charges and duration are such as the stream keeps |
| `ItemStream.ReadTags` | source/item.cpp:381-526 | what each tag of fixed width sets, those that are never written included |
| `ItemStream.Unreadable` | source/item.cpp:381-539 | an unknown tag, or a value that is cut off, ends the reading with an error |
| `ItemStream.NothingWritten` | source/item.cpp:546-587 | an item writes nothing if and only if it has nothing that the stream keeps |
| `ItemStream.AllFields` | source/item.cpp:546-587 | the stream of an item that has everything |
| `StreamedItem.Item.SerializeAttr` | source/item.cpp:546-587 | the attributes of the item object, appended to the stream |
| `StreamedItem.Item.ReadAttr` | source/item.cpp:381-526 | one attribute, put where it belongs |
| `StreamedItem.Item.UnserializeAttr` | source/item.cpp:528-539 | the loop over the stream |
| `StreamedItem.DecayCodes` | source/item.h:65-69 | the decay attribute holds the code that the stream has, and any other number is no decay |
| `ConditionStream.ParseSerialize` | source/condition.cpp:834-852 | a new damage condition that reads what another has written becomes that condition, its rounds in order |
| `ConditionStream.OneRound` | source/condition.cpp:834-852 | the stream of a condition with one round |
| `ConditionStream.Unreadable` | source/condition.cpp:93-148 | an unknown tag, or a value that is cut off, ends the reading with an error |
| `ConditionStream.SerializeCondition` | source/condition.cpp:834-852 | the fields appended to the stream |
| `ConditionStream.UnserializeCondition` | source/condition.cpp:93-104 | the loop over the stream |

## Left out

- Real files, seek and write failures, the SQL and XML libraries, sockets, scripts and effects: a file is a byte sequence, a table a sequence of rows.
- FileLoader.Loader.ReadBytes: with the cache on, it requires that the bytes asked for exist, because at the end of the file the loop of the source makes no progress; `AcceptedRegions` shows that the reader never asks for more.
- FileLoader.Loader.GetProps: requires a region that unescapes within its bounds, as `AcceptedRegionsClean` shows of every parsed node; a region beyond one step of buffer growth is answered with `Overrun` instead of writing past the buffer.
- `Player`, `Creature` and the floor changes, teleports and blocking rules of `Tile`: a cylinder is a container, a depot, or an unlimited tile.
- The exchange branch of `internalMoveItem` (source/game.cpp lines 981 to 1013), which only players answer with.
- Notifications, client updates, decay and scripts that follow a change of items.
- Money.GetMoney: items with the id of a coin are no containers, as in the item table; a container's list stands for the slots of any cylinder.
- `removeItemOfType`, `findItemOfType` and `transformItem`.
- TileRows.LinkTile: it takes the map of rows as the first loop of `loadTile` leaves it; that loop, which finds or makes the items, is not modelled.
- ItemRuns.RunKeeps: a replacement puts in an item without contents, as `transformItem` does, since replacing by a full container is not bounded by the depot's limit; and within limits no depot is added as an item or put in the place of one, since depots are set up with the map.
- TradeTable.Trades.AcceptTrade: the two moves that swap the items are one outcome given from outside, since their results are not looked at in the source and players are not modelled; where a null pointer is followed, the answer says so and the state is the one before the items left the table.
- PlayerStore.LoadPlayer: it gives up where the source reports a row, deletes its item and keeps a pointer to it; a locker in a slot from 11 to 99, which the source keeps under a number that wraps, is given up as well. Rows are numbered from 1 and come after their containers, as the save writes them, and their types exist.
- GameWorld.Game.CylinderUpdate: `setItemCountOrSubtype` would write the charges or the fluid of a type that has them; a stackable type has neither.
- The checks of distance and floor in `playerRequestTrade` are one Boolean; `playerLookInTrade` changes nothing.
- When the worker is signalled in time: a wait does not time out before its deadline, and `NextDone` says what a worker does that nothing disturbs.
- DamageList.GenerateDamageList: does not model single-precision rounding of the comparison, nor 32-bit overflow of the product of step and amount.
- DamageCondition.ConditionDamage.Init: the random amount is a parameter; damage dealt to the creature is the list `dealt`.
- Conditions other than damage: two of them read their streams with an assignment where a comparison is meant (source/condition.cpp lines 402 and 1217).
- Light cycle, bans, guilds, beds, areas of combat and account commands: easy, finite, or mostly text.
