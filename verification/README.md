# Verified model of the game server's item, storage, timing and combat state

This project models the parts of the server whose correctness rests on invariants rather than on
protocol plumbing, and proves those invariants for every input, every state and every run:

- **Items and containers** (`Forest`, `Items`, `Traversal`, `Tally`, `Places`, `Moves`, `MoveItem`, `Money`).
  Items are objects whose fields change in place; `View(world)` is the shape of all of them, a map
  from items to nodes, and every method is tied to a function on that shape. `Sound` says that
  parents and item lists agree, that no container is inside itself, and that every cached weight is
  right. On top stand the operations that insert, move and remove items and the payment of money: `Tally`
  says how much every container holds, `Places` which item lies where.
- **Stored forms and their readers** (`Bytes`, `Otb`, `CustomAttributes`, `HouseStream`, `HouseLoading`,
  `InventoryRows`, `ConditionStream`). Each reader is proved to undo the writer, or it is proved exactly when it does.
- **The decay wheel** (`DecayWheel`), **the walk cache** (`WalkCache`), **areas of effect**
  (`AreaRotation`), **trades** (`Trade`), **conditions and speed** (`SpeedConditions`,
  `DamageList`) and **damage and experience** (`DamageShare`).

`Wrappers` and `Arithmetic` hold two small helpers. The `ghost world` parameter of a method is the
set of all items there are; `value` is an arbitrary worth per unit of each kind, so that a statement
about `value` holds for units, for money and for anything else that is counted. `b` is what a world is
known to keep to: nothing, stacks of at most 100, or also the number of slots. In `Money` the tile under
the payer is a container, `ground`, which takes what it is given with the limits off.

## Assumptions

`Item::getWeight` is a function of kind and count, `Item::getWorth` is unit worth times count, two
items are of one kind exactly when their ids and attributes are equal, containers do not stack, coins
stack and can be carried, and script hooks are absent. What an item without time left decays into at
once, the parameter `expire`, is of another kind than the item (`HouseLoading.Changes`). The hash map of an
item's custom attributes is gone through in the order in which its entries were set.
Clock readings, random numbers, sight lines, walkability and map contents are parameters.

## What the proofs found

- A step south and sideways leaves the first and last rows of the walk cache one tile off, because
  the branch for `dy < 0` never runs: `WalkCache.StepExactly` gives the exact condition and
  `WalkCache.StripesGoWrong` a map on which it fails.
- A change between two types that block nothing is not looked at by the walk cache, though it may make
  the tile one that may not be walked on: `WalkCache.Cache.OnTileItem` says exactly when the window is
  right, and `WalkCache.TrapdoorOverlooked` gives a case in which it is not.
- An item written for a house is read back unchanged exactly when it is storable
  (`HouseStream.OwnExactly`): an action id or an attack speed below 100 comes back as 100, an empty text
  and one of more than 65535 bytes do not come back, the unique id is not written, any decay state is read
  as waiting, and an item without a duration gets the one of its type.
- Once such an item is on the map its decay is started, in everything inside as well, so that it is the
  same item exactly when it lasts (`HouseLoading.RoundTrip`): one of a kind that decays must be running with
  time left, as it comes back running whatever state was stored
  (`HouseLoading.WaitingComesBackRunning`, `HouseLoading.TorchComesBackRunning`), and one without time left turns at once
  (`HouseLoading.OverdueTurns`). Any other item must be storable.
- An item that waits twice to be placed on the decay wheel is visited twice a turn and decays in half its
  time (`DecayWheel.TwiceAsFast`).
- With the limits off a move may lose units without an error: those for which the aimed stack, which
  lies behind the last slot, has no room (`MoveItem.InternalMoveItem`, `MoveItem.LosesUnits`).
- An item that is moved to a container is redirected once at most, so that the bound of sixteen
  redirections is never reached (`MoveItem.GoesTo`).
- The reader of node files accepts bytes after the root's end as long as none opens or closes a node
  (`Otb.ParseComplete`, `Otb.ParseSound`).
- The side of a trade that was asked may accept before it has offered anything
  (`Trade.AskedMayAcceptBare`); `Trade.BothGive` says exactly when the transfer finds two items.
- The list of periodic damages adds up to the amount, or to one more than the larger entries when
  those alone reach it (`DamageList.GenerateDamageList`).

## Model

| member | source | states |
|---|---|---|
| Forest.AttachGrounded | src/container.cpp:293-337 | putting a loose item into a container keeps containment free of cycles if and only if the container is not the item and not inside it |
| Forest.NoCycle | src/container.cpp:329-336 | in such a world no walk up the parents ever meets the item it started from |
| Forest.BumpRestoresCache | src/container.cpp:150-156 | if only one container's cached weight is off, pushing the difference up the parents makes every cache right again and changes nothing else |
| Forest.CachedIsDeep | src/container.cpp:150-161 | in a sound world the cached weight of a container is the sum over all items inside it at every depth |
| Forest.InsertSound | src/container.cpp:503-533 | an insertion at any position keeps the world sound if and only if it makes no cycle |
| Forest.RemoveSound | src/container.cpp:582-615 | taking an item out keeps links, groundedness and all cached weights right |
| Forest.SetSound | src/container.cpp:535-556 | changing kind and count of a held item keeps the world sound |
| Forest.ReplaceSound | src/container.cpp:558-580 | replacing a held item by a loose one keeps the world sound if and only if it makes no cycle |
| Items.WeightIsDeep | src/container.cpp:150-161 | what a container says it weighs is its own weight and that of everything inside it at every depth |
| Items.Item.UpdateItemWeight | src/container.cpp:150-156 | the recursion adds the difference to this container and exactly those around it, and ends |
| Items.Item.AddThing | src/container.cpp:503-522 | the loose item becomes the first one, whatever the index within the slots, with all caches right; an index outside leaves everything as it was |
| Items.Item.AddItemBack | src/container.cpp:524-533 | the loose item becomes the last one, with all caches right |
| Items.Item.InternalAddThing | src/container.cpp:713-723 | the loose item becomes the first one, with all caches right |
| Items.Item.UpdateThing | src/container.cpp:535-556 | the held item gets kind and count, with all caches right; a foreign item changes nothing |
| Items.Item.ReplaceThing | src/container.cpp:558-580 | the item at the index is loose and the new one in its place, with all caches right |
| Items.Item.RemoveThing | src/container.cpp:582-615 | a stack loses the count or leaves, any other item leaves, with all caches right |
| Items.RemoveAtIs | src/container.cpp:582-615 | pushing the weight before unlinking ends in the same state as after |
| Items.ReplaceInPlace | src/container.cpp:558-580 | the three writes of a replacement end in the state of a removal followed by an insertion |
| Items.Item.GetThingIndex | src/container.cpp:617-627 | the first place of the item, and -1 exactly when it is not held |
| Items.ContainerIterator.Advance | src/container.cpp:745-765 | the queue and cursor step as the breadth-first walk does, without touching any item |
| Traversal.WalkBegins | src/container.cpp:732-743 | the walk starts with nothing read |
| Traversal.WalkAdvances | src/container.cpp:745-765 | one step keeps the walk's invariant: what was read is inside the root and was read once |
| Traversal.CurrentIsNew | src/container.cpp:732-765 | the item under the cursor is inside the root and was not read before |
| Traversal.WalkEnds | src/container.cpp:732-765 | when the queue is empty exactly the items inside the root were read |
| Items.Item.GetItemHoldingCount | src/container.cpp:203-210 | the number of items inside at any depth, and the loop ends |
| Items.Item.IsHoldingItem | src/container.cpp:212-220 | true if and only if the item is inside at some depth |
| Items.Item.GetItems | src/container.cpp:658-671 | every item inside at any depth, each once |
| Items.Item.HasAbove | src/game.cpp:1189-1200 | the walk up the cylinders ends and finds an item if and only if this container is inside it |
| Items.Item.QueryAdd | src/container.cpp:270-344 | the refusals in their order; an item is refused for itself and for any container inside it |
| Items.Item.QueryMaxCount | src/container.cpp:346-395 | free slots times 100 and the room on the stacks of the kind, and success exactly when that is enough |
| Items.Item.QueryRemove | src/container.cpp:397-423 | the refusals of a removal |
| Items.Item.QueryDestination | src/container.cpp:425-496 | container, index and aimed item, the first stack of the kind with room included |
| Moves.KindSlackMerge | src/container.cpp:352-372 | merging units takes exactly that many off the room on the stacks |
| Moves.FreshFits | src/game.cpp:1329-1337 | a clone of the remainder is accepted if there is room for it, so the recursion succeeds |
| Moves.FreshFitsOnly | src/game.cpp:1329-1337 | and only if there is room |
| Moves.InternalAddItem | src/game.cpp:1291-1372 | the verdict depends on the world before only; a refusal or a test changes nothing; otherwise the stack it aims at, if it has room, comes to the lesser of 100 and the sum, and its container gets no further item when that is all; without such a stack the item itself is the first of the container; exactly the item's count arrives, the remainder is 0 unless stacking is off, stacks stay at most 100, slots within capacity, no other kind of item is disturbed and full stacks keep their count |
| Moves.AcceptedExactly | src/container.cpp:270-395 | a loose item is accepted without a position if and only if the container is unlocked and not inside it, its kind may be carried and put there, and there is a slot or a stack with room and for all its units room |
| Moves.RoomIs | src/container.cpp:346-395 | a container takes a hundred units for each free slot and what the other stacks of the kind, or the one at the position, have room for; of what does not stack as many as there are slots |
| Moves.AimsAtFirst | src/container.cpp:478-493 | without a position units aim at the first stack of their kind that is not full, and anything else at no item |
| Moves.AimsAtPosition | src/container.cpp:458-482 | at a position with a stack of their kind that is not full units aim at it, at one with a container any item aims into that |
| Moves.MergeSome | src/game.cpp:1323-1337 | a merge moves exactly n units onto the stack, nothing else moves or changes, and room for the rest is left |
| MoveItem.FindDestination | src/game.cpp:1096-1111 | follows the destinations, at most sixteen, dropping the flags after the first |
| MoveItem.GoesTo | src/game.cpp:1096-1111 | an item goes to the container around, into the one at the position, or to the one it is put into: one redirection at most, which drops the flags, so that the bound of sixteen is never reached |
| MoveItem.AskMove | src/game.cpp:1118-1201 | the refusals in their order and the quantity that may move |
| MoveItem.MovesExactly | src/game.cpp:1113-1201 | a move takes place if and only if the container is unlocked, neither inside the item nor inside what is traded, with a slot or room, and the item may be carried, moved and put there; of a stack it takes the lesser of what is asked and the room, which the stack must have |
| MoveItem.InternalMoveItem | src/game.cpp:1081-1282 | moves exactly when no query refuses, else nothing changes; an item that does not stack is itself, with kind, count and contents as before, the first of the container it goes to, and gone from where it was; of a stack exactly the units taken leave, the aimed stack of the kind grows by the lesser of the units and its room, the rest is a new first stack, and nothing else moves or changes; in any world, with any flags, no cycle arises and every cached weight stays right; with stacks of at most 100, what is taken leaves one container and what arrives goes to the other, and all of it arrives unless the position is behind the last slot and the aimed stack cannot take it, which only happens with the limits off; slots are kept with the limits on |
| MoveItem.WholeMoves | src/game.cpp:1203-1236 | an item that is taken out and put first elsewhere, or in the same container, is the same item, and nothing else moved or changed |
| MoveItem.UnitsMove | src/game.cpp:1206-1236 | units that leave a stack and land on another and as a new one: which stacks have how many units then, and that nothing else moved or changed |
| MoveItem.TransferTotal | src/game.cpp:1203-1236 | a move changes the total over all containers by exactly what did not arrive, for any value per kind |
| MoveItem.MoveAll | src/game.cpp:1081-1282 | after any moves in a row, with the limits on or off, from any sound world, no container is inside itself and every weight is right |
| MoveItem.PutNew | src/game.cpp:1220-1236 | a new stack of the count comes first exactly when the position is a slot, and nothing else changes |
| MoveItem.MergeOnto | src/game.cpp:1212-1216 | the aimed stack grows by the lesser of the units and its room, and nothing else changes |
| MoveItem.BehindTheSlots | src/container.cpp:478-493 | with the limits off the aim may be a stack behind the last slot, which takes 40 of 90 units |
| MoveItem.LosesUnits | src/game.cpp:1203-1236 | a move of 90 units that reports no error and of which 40 arrive |
| MoveItem.MoveAllowed | src/game.cpp:1118-1186 | what the queries promise in any world: no cycle, a slot or an aimed stack of the kind, and with the limits on room for all that is taken |
| Tally.HeldInsert | src/container.cpp:503-533 | an insertion adds what the item counts for to its container and to no other |
| Tally.HeldRemove | src/container.cpp:582-615 | a removal takes it off its container and off no other |
| Tally.HeldSet | src/container.cpp:535-556 | a changed count changes what its container holds by the difference and what no other holds |
| Money.CollectMoney | src/game.cpp:1500-1543 | finds every item inside at any depth once; the entries are its coins, cheapest stack first, and total their worth |
| Money.Emplace | src/game.cpp:1520-1540 | inserts behind entries of the same worth and keeps the order |
| Money.InternalRemoveItem | src/game.cpp:1374-1421 | succeeds exactly for a held item that can be removed and a count its stack has; then exactly that count leaves from where the item lies; a test or a refusal changes nothing |
| Money.TakeCoins | src/game.cpp:1549-1563 | the worth taken leaves the containers of the root, the stack keeps the rest, and all other items stay where they are with their counts |
| Money.PayPart | src/game.cpp:1554-1560 | no more coins are taken than the stack has and it keeps exactly the rest, the change is less than one of them and lands nowhere on it, and the total falls by exactly what was due and what is too small for any coin |
| Money.PayEntry | src/game.cpp:1549-1565 | one entry either ends the payment exactly or leaves the rest due and covered by the entries that follow |
| Money.PayEntries | src/game.cpp:1545-1566 | the loop always reaches a break, with exactly the price gone |
| Money.RemoveMoney | src/game.cpp:1490-1567 | false, and nothing changed, if and only if the coins inside are worth less; otherwise container and ground together lose exactly the price and a rest below every coin, none if there is a coin of one; only change lies on the ground, and it is less than one of the coins inside; the cheapest stacks go first: some stack inside is worth d, every coin stack worth less is in no container any more, and every one worth more, like all else, keeps its place and loses no unit |
| Money.SpentCheapest | src/game.cpp:1500-1565 | when the stacks are spent in the order of the multimap up to some entry, those worth less than it are gone and those worth more are where they were |
| Money.AddCoinItem | src/game.cpp:1584-1592 | one coin item enters the container if and only if it has room, or else lies on the ground |
| Money.AddMoney | src/game.cpp:1569-1597 | container and ground together gain the money but for a rest below every coin; nothing lies on the ground if there are as many free slots as coin items; stacks dearer than the sum are untouched |
| Money.AddCoins | src/game.cpp:1579-1596 | the coins of one kind, in items of at most 100, reach the container or the ground |
| Bytes.ValueOfLe | src/fileloader.h:84-93 | a little-endian number is read back as written, cut to its width |
| Bytes.SignedSurvives | src/fileloader.h:146-150 | a signed number survives if and only if it fits its width |
| Bytes.UnsignedSurvives | src/fileloader.h:146-150 | an unsigned number survives if and only if it fits its width |
| Bytes.ReadsString | src/fileloader.h:95-112 | a string is read back, as empty if it was too long |
| Bytes.PropStream.Read | src/fileloader.h:84-93 | a number is read and the position moves past it, or nothing is consumed |
| Bytes.PropWriteStream.WriteString | src/fileloader.h:152-162 | length and bytes are appended, a length of zero alone for a string that is too long |
| Otb.Loader.OpenFile | src/fileloader.cpp:29-42 | a file is opened exactly when it is longer than the least node and bears the accepted identifier or the wildcard |
| Otb.ParseComplete | src/fileloader.cpp:52-104 | every well-formed file is accepted and gives exactly its node |
| Otb.ParseSound | src/fileloader.cpp:52-104 | whatever is accepted is well-formed: balanced, and no properties hold an unescaped start or end |
| Otb.OneReading | src/fileloader.cpp:52-104 | a file spells at most one tree |
| Otb.UnescapeEscape | src/fileloader.cpp:106-121 | unescaping undoes escaping for any bytes |
| Otb.RoundTrip | src/fileloader.cpp:52-121 | the encoding of any tree is well-formed, stands for that tree, and for no other |
| Otb.Loader.ParseTree | src/fileloader.cpp:52-104 | the loop over the explicit stack accepts exactly the well-formed files |
| Otb.Loader.GetProps | src/fileloader.cpp:106-121 | the properties without escapes, and failure exactly when there are none |
| CustomAttributes.WriteList | src/item.cpp:888-899 | appends the names and typed values one after the other |
| CustomAttributes.ReadList | src/item.cpp:707-721 | reads as many entries as there are said to be and sets each under its name in lower case, or fails |
| CustomAttributes.ReadsList | src/item.cpp:706-722 | the entries written are read back, each cut to what its form holds, and end where they ended |
| CustomAttributes.ListExactly | src/item.h:460-468 | the custom attributes come back as they were if and only if there are some and no name or text is too long |
| HouseStream.SaveItem | src/iomapserialize.cpp:217-235 | appends the encoding of the item and, last first, of all it holds |
| HouseStream.SerializeAttr | src/item.cpp:766-900 | appends the attributes in their order, those that scripts gave the item last |
| HouseStream.ReadsAttributes | src/item.cpp:407-759 | the attributes written, those of scripts included, are read back and end where they ended |
| HouseStream.OwnExactly | src/item.cpp:407-900 | an item's own fields are read back unchanged if and only if it is storable: texts neither empty nor too long, an action id and an attack speed of at least 100, no unique id, no running decay, no empty list of custom attributes and none with too long a name or text, numbers that fit |
| HouseStream.LowActionIdRaised | src/item.h:703-709 | an action id below 100 comes back as 100 |
| HouseStream.ReadsContents | src/iomapserialize.cpp:116-132 | writing last first and putting each in front gives back the order |
| HouseStream.ReloadedExactly | src/iomapserialize.cpp:116-164 | a whole tree comes back unchanged if and only if every item in it is storable |
| HouseStream.ReadBack | src/iomapserialize.cpp:116-235 | reading consumes exactly the bytes written and leaves the rest, with the same tree if and only if all of it is storable |
| HouseLoading.LeafExactly | src/iomapserialize.cpp:150-159 | an item that is no container is on the map as it was saved if and only if it lasts: one that can decay was running with time left and is storable but for that, any other is storable |
| HouseLoading.StartedExactly | src/container.cpp:725-730 | so is a whole tree, if and only if its containers are storable and everything else in it lasts |
| HouseLoading.RoundTrip | src/iomapserialize.cpp:116-235 | loading consumes exactly the bytes written and leaves the rest; on the map there is the same tree if and only if all of it lasts, and inside a container that is not there yet if and only if all of it is storable |
| HouseLoading.WaitingComesBackRunning | src/game.cpp:4623-4641 | a storable item of a kind that decays whose decay waits comes back running, so that it is not the item that was saved |
| HouseLoading.TorchComesBackRunning | src/iomapserialize.cpp:158-159 | a torch with 45 of 60 seconds left: the running one comes back the same, the waiting one, though it is storable and read back the same, comes back running |
| HouseLoading.OverdueTurns | src/game.cpp:4635-4655 | a storable item that can decay and has no time left is replaced by what it decays into, or gone |
| HouseLoading.OthersStay | src/item.cpp:1630-1648 | an item that has no duration, decays to nothing, or has a unique id is on the map as it was exactly when it is storable |
| HouseLoading.StartDecaying | src/item.cpp:1774-1777 | the decay of the item, or of everything inside a container, is started as the specification says |
| HouseStream.UnserializeAttr | src/item.cpp:747-759 | the loop reads what the reading function says, and nothing more |
| HouseLoading.LoadItem | src/iomapserialize.cpp:134-164 | reads one item with everything in it, attaches it, and starts its decay if it is on the map |
| HouseLoading.LoadContainer | src/iomapserialize.cpp:116-132 | reads the counted contents and the end byte |
| InventoryRows.SaveBlocks | src/iologindata.cpp:588-609 | one row for each slot or depot, numbered from 101, and all containers among them queued |
| InventoryRows.SaveContents | src/iologindata.cpp:611-634 | the contents of one container become rows under its number, and the queue gets smaller |
| InventoryRows.SaveItems | src/iologindata.cpp:582-637 | ends; the rows are the items breadth-first and every child names its parent's row |
| InventoryRows.Holder.LoadItems | src/iologindata.cpp:958-982 | reads the rows in whatever order they come, without those of which no item can be made |
| InventoryRows.LoadedIsListed | src/iologindata.cpp:958-982 | from any order of the rows the map lists every row by its number |
| InventoryRows.Holder.PutBack | src/iologindata.cpp:421-444 | an item goes into its slot, or in front of what its container holds |
| InventoryRows.Holder.Rebuild | src/iologindata.cpp:421-504 | puts back every row, from the highest number down |
| InventoryRows.KidsAgree | src/iologindata.cpp:421-444 | the rows under a number, in order, are the children written there |
| InventoryRows.LoaderFinds | src/iologindata.cpp:421-504 | every container has its children back, in order |
| InventoryRows.TreeBack | src/iologindata.cpp:421-504 | under every number hangs the tree that was written there, at every depth |
| InventoryRows.NoCollision | src/iologindata.cpp:582-600 | no number of an item is taken for a slot or a depot |
| InventoryRows.RootsAre | src/iologindata.cpp:421-504 | every slot or depot gets exactly its own items |
| InventoryRows.RoundTrip | src/iologindata.cpp:421-637 | rows written and listed again give every slot or depot the same trees in the same order |
| InventoryRows.SaveAndLoad | src/iologindata.cpp:421-637 | saving, reading the rows back in any order and rebuilding leaves every slot or depot with the same trees |
| WalkCache.Cache.UpdateMapCache | src/creature.cpp:334-348 | every cell but the creature's own shows its tile |
| WalkCache.Cache.FollowStep | src/creature.cpp:533-607 | the shifts in place, the fresh row and column and the old tile, as one step of the window |
| WalkCache.Cache.OnOwnMove | src/creature.cpp:528-609 | a teleport or a change of floor rebuilds the window, a step shifts it |
| WalkCache.Cache.OnOtherMove | src/creature.cpp:610-622 | another creature's move leaves the window right |
| WalkCache.Cache.OnOtherPresence | src/creature.cpp:431-460 | another creature's appearance or removal leaves the window right |
| WalkCache.Cache.OnAppear | src/creature.cpp:431-437 | the creature's own appearance loads the window |
| WalkCache.Cache.OnTileItem | src/creature.cpp:397-429 | after a change on a tile the window is right if and only if the change is one that is looked at, or the tile is not in sight, or is as walkable as before |
| WalkCache.FlagsLookedAt | src/creature.cpp:397-429 | a change that opens or closes a tile by the flags of its things is looked at, unless it makes a ground of what was none or the other way round |
| WalkCache.Unseen | src/creature.cpp:404-429 | a window that was left alone is right exactly when the changed tile does not show |
| WalkCache.TrapdoorOverlooked | src/creature.cpp:404-416 | a change between types that block nothing is overlooked even if it closes the tile |
| WalkCache.Cache.GetWalkCache | src/creature.cpp:367-395 | 1 or 0 as the world is, 2 exactly when out of the window or not loaded |
| WalkCache.StepShows | src/creature.cpp:533-607 | after a step every cell shows its tile, or the one aside where a south diagonal shifted wrongly |
| WalkCache.StepExactly | src/creature.cpp:533-607 | the shifted window equals a full recompute if and only if the step was no south diagonal or the rows look alike aside; the inner rows are right after any step |
| WalkCache.StripesGoWrong | src/creature.cpp:546-605 | on a striped map every south diagonal leaves the window wrong |
| WalkCache.Cache.Run | src/creature.cpp:334-622 | over any run of moves, appearances, removals and changes without south diagonals and overlooked changes the window agrees with the world |
| DecayWheel.Deadline | src/game.cpp:4758-4780 | an item placed with duration d is due more than d - 875 and at most max(d, 250) milliseconds later |
| DecayWheel.DueClosedForm | src/game.cpp:4657-4780 | the due tick in closed form |
| DecayWheel.VisitKeepsDue | src/game.cpp:4657-4699 | a visit decays an item exactly when it is due and otherwise keeps its due tick |
| DecayWheel.Game.Visit | src/game.cpp:4662-4695 | one item of the list stays, moves, decays or is let go, by its duration |
| DecayWheel.Game.Sweep | src/game.cpp:4662-4697 | one pass treats every item of the list once and none that moves in |
| DecayWheel.Game.CheckDecay | src/game.cpp:4657-4699 | one tick: the next list's turn, then what waits is placed, which decays exactly the items that are due and leaves everything on the wheel marked as decaying |
| DecayWheel.Game.Cleanup | src/game.cpp:4758-4780 | every waiting item is placed by its duration and none waits any more |
| DecayWheel.Game.StartDecay | src/game.cpp:4623-4641 | an item starts to wait, or decays at once when it has no time, unless it is marked as decaying; whatever is on the wheel stays marked, and there once |
| DecayWheel.SweptMarked | src/game.cpp:4643-4697 | after a turn everything on the wheel is marked as decaying, what items decayed into included |
| DecayWheel.TwiceAsFast | src/game.cpp:4662-4695 | an item that is in a list twice is due after half its duration, to within a second |
| DecayWheel.SweptSound | src/game.cpp:4657-4699 | after a tick every item is on the wheel at most once, with a duration |
| DecayWheel.SweptDue | src/game.cpp:4657-4699 | a tick decays a decayable item exactly when it is due and brings every other one tick nearer |
| DecayWheel.NotBeforeDue | src/game.cpp:4657-4780 | over any run, until it is due an item stays due and decays at no tick |
| DecayWheel.RunSound | src/game.cpp:4623-4780 | over any run of ticks, starts and placings every item is on the wheel at most once |
| DecayWheel.DecaysWhenDueInRun | src/game.cpp:4657-4699 | at any tick up to then an item decays if and only if it is the tick at which it is due |
| DecayWheel.NoDecayUnlessEntered | src/game.cpp:4623-4780 | an item off the wheel decays at no tick before it comes onto the wheel again |
| DecayWheel.DecaysOnTime | src/game.cpp:4657-4780 | an item that stays decayable does decay in every run that is long enough, at a tick within the bound; until then it is in exactly one list, and it decays no second time unless it is started anew |
| Trade.Game.PlayerRequestTrade | src/game.cpp:2606-2720 | a request starts a trade if and only if it is allowed, the players are free or the partner asked first, there are at most 100 objects, and the item is not on offer, nor in or around one that is; both sides and the offers afterwards; no item on offer ever lies inside another |
| Trade.Game.InternalStartTrade | src/game.cpp:2723-2752 | starts exactly when both are without a trade or the partner asked first; both sides and the offers afterwards |
| Trade.Game.PlayerAcceptTrade | src/game.cpp:2754-2868 | the transfer fires if and only if the partner had accepted and can be reached; the trade is over either way |
| Trade.Game.Transfer | src/game.cpp:2788-2866 | both items leave the offers and both sides end without a trade |
| Trade.Game.InternalCloseTrade | src/game.cpp:2948-2994 | both sides end without a trade and their items leave the offers |
| Trade.StartsExactly | src/game.cpp:2723-2752 | a start with a new item from every pair of states: the one that asks is initiated with his item, the one asked is acknowledged or stays as he is, and the asked side can make its own offer |
| Trade.ThirdRefused | src/game.cpp:2725-2733 | who trades with a third one is refused, and nothing changes |
| Trade.AcceptsExactly | src/game.cpp:2754-2781 | an acceptance alone is recorded; the second ends the trade for both and takes their items off the offers |
| Trade.ClosesExactly | src/game.cpp:2948-2994 | a close ends the trade for both sides and takes exactly their items off the offers |
| Trade.FairTrade | src/game.cpp:2723-2866 | from any sound table two idle players offer one item each and accept: the transfer fires at the second acceptance with both items, and then both are idle and nothing of theirs is on offer |
| Trade.StartedSound | src/game.cpp:2723-2752 | a start keeps partnership symmetric and the offers exactly the items of the sides |
| Trade.AcceptedSound | src/game.cpp:2754-2868 | so does an acceptance |
| Trade.EndedSound | src/game.cpp:2948-2994 | so does an end, which frees both and touches nobody else |
| Trade.RunSound | src/game.cpp:2723-2994 | over any interleaving by any number of players the trades are sound |
| Trade.OfferStands | src/game.cpp:2723-2994 | no event replaces an offer: it stands, to the same partner, or the trade is over |
| Trade.OfferKept | src/game.cpp:2723-2994 | over any run an offer stands as long as the trade does |
| Trade.OthersUntouched | src/game.cpp:2723-2994 | an event touches only the player, his partner and the one he asks |
| Trade.BothGive | src/game.cpp:2754-2772 | over any run, when the transfer fires both sides have an item if and only if both accepted after starting: the one that accepts now, and its partner at the event that it accepted |
| Trade.OwnSideGives | src/game.cpp:2754-2781 | when the transfer fires this side has an item exactly when it has started, and one of the two has |
| Trade.AcceptedAt | src/game.cpp:2761-2770 | a side that has accepted did so at one event, as one that had started or was asked, and its item is the same since |
| Trade.AskedMayAcceptBare | src/game.cpp:2761-2781 | a trade that reaches the transfer with an item on one side only |
| AreaRotation.TurnsOffsets | src/combat.cpp:1284-1306 | an offset (x, y) is covered if and only if (-y, x), (-x, -y) and (y, -x) are in the turned areas |
| AreaRotation.TurnLaws | src/combat.cpp:1284-1306 | two quarter turns are a half turn; a quarter and three quarters, and four quarters, are none, centre included |
| AreaRotation.Rotate90 | src/combat.cpp:1284-1291 | the strided assignments are a quarter turn about the centre |
| AreaRotation.Rotate180 | src/combat.cpp:1293-1297 | the reversed copy is a half turn |
| AreaRotation.Rotate270 | src/combat.cpp:1299-1306 | the strided assignments are three quarter turns |
| AreaRotation.CreateArea | src/combat.cpp:36-67 | cells of 1 and 3 are covered, the centre is the last cell of 2 or 3 |
| AreaRotation.GetList | src/combat.cpp:69-94 | exactly the covered tiles in sight, at their offset from the centre, row by row |
| AreaRotation.AreaCombat.SetupArea | src/combat.cpp:1343-1354 | the four areas are the turns of the one drawn |
| ConditionStream.Serialize | src/condition.cpp:143-162 | appends the encoding of a condition with the fields of its class |
| ConditionStream.SaveConditions | src/iologindata.cpp:656-663 | appends the conditions that outlast a logout |
| ConditionStream.CreateCondition | src/condition.cpp:241-299 | the header is read, or nothing is made of it |
| ConditionStream.Unserialize | src/condition.cpp:73-82 | the fields are read up to the end mark, as the reading function says |
| ConditionStream.LoadConditions | src/iologindata.cpp:279-287 | every condition is put in front of those before |
| ConditionStream.TicksAreTotal | src/condition.cpp:1176-1203 | the duration of a damage becomes the sum of its intervals |
| ConditionStream.ReadsOne | src/condition.cpp:73-162 | one condition is read and the next one right behind it |
| ConditionStream.ReversedAt | src/iologindata.cpp:279-287 | place by place what the reversed list holds |
| ConditionStream.RoundTrip | src/condition.cpp:73-162 | any list of conditions comes back reversed, each with all that is stored of it, and no record takes bytes of the next |
| ConditionStream.SavedComesBack | src/iologindata.cpp:656-663 | what is saved comes back: the conditions that outlast a logout, reversed |
| SpeedConditions.Creature.ChangeSpeed | src/game.cpp:3818-3823 | the speed changes by the difference |
| SpeedConditions.Creature.StartCondition | src/condition.cpp:1605-1618 | the condition joins the list, and the speed changes by the speed it has, drawn if it has none |
| SpeedConditions.Creature.Refresh | src/condition.cpp:1630-1659 | the speed changes by the new speed less the old one, and not at all when a condition without end is refreshed by one that ends |
| SpeedConditions.Creature.EndCondition | src/condition.cpp:1625-1628 | the condition leaves and its speed is taken back |
| SpeedConditions.Creature.AddCondition | src/creature.cpp:1191-1220 | added exactly when no paralysis holds it back and it starts or refreshes one with its key; keys stay unique, and what is not from conditions stays |
| SpeedConditions.Creature.OnAddCondition | src/creature.cpp:1054-1061 | paralysis and haste drive each other away |
| SpeedConditions.NeverBoth | src/creature.cpp:1054-1061 | a new paralysis leaves no haste active, and a new haste no paralysis, if the creature feels it and may walk; nothing else is driven away |
| SpeedConditions.Creature.RemoveConditions | src/creature.cpp:1235-1301 | exactly those of the type, and id, are gone, and with them their speed |
| SpeedConditions.Creature.RemoveCondition | src/creature.cpp:1303-1323 | exactly the one with the key is gone, and with it its speed |
| SpeedConditions.Creature.ExecuteConditions | src/creature.cpp:1345-1364 | all conditions get older once, and those that are over are gone with their speed |
| SpeedConditions.EndsOnTime | src/condition.cpp:170-178 | a started condition is there until its time is over and no longer, and one without end stays |
| SpeedConditions.Creature.HasCondition | src/creature.cpp:1366-1382 | true if and only if one of the type is active and not suppressed |
| SpeedConditions.TotalRemoved | src/condition.cpp:1625-1628 | a condition less is its speed less |
| SpeedConditions.TotalReplaced | src/condition.cpp:1630-1659 | a condition replaced changes the sum by the difference |
| SpeedConditions.KeptFacts | src/creature.cpp:1235-1301 | keys stay unique and exactly the matching conditions are left out |
| SpeedConditions.NoneLeft | src/condition.cpp:1605-1659 | without conditions of speed nothing is added |
| SpeedConditions.Creature.Run | src/creature.cpp:1191-1364 | over any run the speed is what came from outside and what the remaining conditions add, and exactly the former once they are gone |
| DamageShare.Creature.ChangeHealth | src/creature.cpp:806-823 | health stays between 0 and its maximum |
| DamageShare.Creature.AddDamagePoints | src/creature.cpp:1032-1052 | the attacker, and nobody else, is credited with the points |
| DamageShare.Creature.DrainMana | src/player.cpp:1591-1601 | the mana falls and the attacker is credited |
| DamageShare.Creature.CombatChangeHealth | src/game.cpp:4146-4266 | mana taken and health taken together are the lesser of the damage and what there is, mana first; the attacker is credited with exactly that |
| DamageShare.CreditAddsUp | src/creature.cpp:1032-1052 | damage credited bit by bit is damage credited at once, and the damage on record grows by it |
| DamageShare.SumPick | src/creature.cpp:1007-1025 | the order in which damage is added up does not matter |
| DamageShare.Creature.GetGainedExperience | src/creature.cpp:1007-1030 | the attacker's share, rounded down: times all damage on record it is at most his damage times the loss, and one more would be above |
| DamageShare.PartsBounded | src/creature.cpp:1007-1030 | shares rounded down add up to no more than the whole |
| DamageShare.PartsFair | src/creature.cpp:1007-1030 | nor do the shares fall short of the whole by as much as one for each attacker |
| DamageShare.AllSharesBounded | src/creature.cpp:684-711 | the shares of any of the attackers add up to no more than what is lost |
| DamageShare.AllSharesReach | src/creature.cpp:684-711 | when all attackers are there, what is lost is less than all shares and one for each attacker |
| DamageShare.Creature.OnDeath | src/creature.cpp:684-715 | every receiver gets the shares passed to him, which are his part of the loss to within less than one for each attacker; all together they are no more than what is lost, and when all attackers are there less than one for each of them is missing |
| DamageList.GenerateDamageList | src/condition.cpp:1508-1526 | entries fall from the start to one without a gap; each size is there as often as brings the sum nearest to its goal; they add up to the amount, or to one more than the larger ones |
| DamageList.PushAll | src/condition.cpp:1508-1526 | an entry is pushed once, and again exactly as long as that brings the sum closer to its goal |
| DamageList.Closer | src/condition.cpp:1517-1524 | comparing the two ratios to one is comparing the two distances to the goal |

## Left out

- Containers carried by players: queries of player slots, and the overrides of depot chests, inboxes
  and store inboxes. `InventoryRows` models the slots of a player as a store only.
- The exchange of two items on a full slot (the need-exchange branch of `internalMoveItem`), which
  only player slots ask for.
- 32-bit wrap-around of weights, speeds and ticks, and the 16-bit wrap of positions at the map's rim.
- Fluid and charge subtypes of items in the item forest, decay resets when an item's id changes,
  notifications, scripts and clients.
- Items.Item.UpdateThing: sets the count of every item, where the code sets fluid or charges for some
  kinds, which weigh the same.
- Items.Item.QueryAdd: is about plain containers; an inbox, a store inbox or a depot chest around it,
  and a top parent that is a tile or a player, may refuse more.
- Items.Item.QueryRemove: leaves out the refusal of tiles of somebody else's house.
- Moves.InternalAddItem: the container is a plain container, not a tile or a player.
- Money.InternalRemoveItem: leaves out that a removed item is taken off the first list of the decay
  wheel.
- Money.RemoveMoney: the ground is a container outside the payer's, and takes every coin, as a tile does
  with the limits off; the order of what lies on a tile is not modelled.
- The writing side of node files does not exist in the repository: `Otb.Encode` is the specification.
  Memory mapping of the file is not modelled.
- HouseStream.SerializeAttr: leaves out the attributes of doors, beds, teleports and depots.
- HouseStream.UnserializeAttr: leaves out the same, and the register of unique ids in use.
- HouseLoading.LoadItem: is the branch that creates items; that for items that stand on the map already,
  ids that are remapped on creation, and the stacking of house tiles are left out.
- HouseLoading.StartDecaying: an item without time left is replaced by what it decays into, a parameter;
  how that decays in turn is in `DecayWheel`. The items that wait to be placed are left out here.
- HouseLoading.RoundTrip: is about items whose ids are known types, as `loadItem` makes nothing of
  others.
- InventoryRows.SaveAndLoad: the attribute bytes of a row are one opaque value, and every row can be
  made an item.
- DecayWheel.DecaysOnTime: is about items that stay decayable until they are due and wait once. Items
  removed on the way by `internalRemoveItem`, which only looks at the first list, are left out, and so are
  the pushes at the end of `internalAddItem` and in `Item::clone`, which do not look whether the item already
  waits: of an item that is placed twice only the time it lasts is stated (`DecayWheel.TwiceAsFast`).
- DecayWheel.Game.CheckDecay: what an item decays into is a parameter, and an item that is changed in
  place goes on under a new number.
- Trade.Game.PlayerRequestTrade: whether the partner and the item can be reached and carried is one
  parameter, and the number of objects inside another.
- Trade.Game.Transfer: leaves out the inventory checks and the two moves at the end of a trade, whose
  second result the code ignores, so that the exchange is not claimed to happen as a whole. The
  containment of items is fixed during a run of trades.
- Flipping, mirroring and transposing of areas, and the areas made from a length, a radius or a ring.
  Matrices that are not rectangular.
- Percentages of attributes, drunkenness, the owner and the bounds of a damage are not stored with a
  condition and so not part of `ConditionStream`.
- ConditionStream.Unserialize: fails for more records of skills or stats than there are, where the code
  does not check.
- The speed that a haste or a paralysis draws at random is a parameter.
- SpeedConditions.Creature.AddCondition: whether a condition that is not of speed starts is a parameter.
- SpeedConditions.Creature.ExecuteConditions: conditions of other kinds may end early in their own ways,
  which add nothing to the speed; these are left out.
- DamageShare.Creature.GetGainedExperience: floating-point rounding is replaced by an exact fraction.
- DamageList.GenerateDamageList: the ratios are exact, where the code rounds them to 32-bit floats.
- DamageList.PushAll: the same.
- DamageList.Closer: the same.
- Healing, damage scripts and the effects and messages of `combatChangeHealth`.
- Networking, databases, Lua, chat, guilds, the market and configuration.
