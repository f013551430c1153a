# LibPKMN: a verified model of its editable save data

LibPKMN keeps editable objects (item lists, bags, a Pokédex, parties, boxes, single Pokémon) in
step with the packed structures of Pokémon save files, and lets any number of threads work on
them. This project models the objects that do so and proves what they promise: invariants over
whole runs of calls, agreement between the objects and their packed data, round trips, and freedom
from deadlock.

`dafny verify dfyconfig.toml` checks everything.

## How it is organised

Each component comes as rules and, where the program updates objects in place, as classes. The
rules say as functions what one call does; the lemmas beside them say what that means over all
inputs and all runs. The classes have the program's fields, loops and order of steps, and each
method is proved to do exactly what the rules say.

| Files | Subject |
|---|---|
| `Locking`, `LibraryCalls`, `CallGuards`, `Daycares` | recursive mutexes, the guards of each public call, which mutexes those are, deadlock freedom and where it ends |
| `ItemRules`, `ItemLists`, `ItemLaws`, `ItemOrder`, `ItemRuns` | ordered item lists and their native mirror |
| `BagRules`, `ItemBags` | bags that file items into pockets |
| `TmHmPocket` | the fixed-position pocket of Generation II |
| `PokedexBits`, `PokedexRules`, `Pokedexes` | the two bitmaps, the two mutually recursive setters, the lazy lists |
| `StorageRules`, `PlacementLaws`, `Storage`, `Saves`, `UnownStorage` | parties and boxes that share one Pokédex, and what they make of an Unown |
| `PcRules`, `PcStorage` | the Game Boy PC, its current-box redirect and its box names |
| `Words`, `BitFields`, `GbaLayout`, `GbaPokemons` | the packed Game Boy Advance Pokémon and its cached maps |
| `Shininess`, `UnownBits`, `UnownForms`, `Personalities`, `Learnset` | the algorithms of that object, and the form of an Unown over runs of calls |
| `Gen2Rules`, `Gen2Pokemons` | Generation II IVs, Unown letters, shininess |
| `Common` | shared types |

A class method that changes state is stated over `old` values, so its row below is read together
with the lemmas about the function it is tied to.

## What turned out to be false of the code

The code is modelled as it is. Where it departs from its intent, the intended property is proved
to hold if and only if a condition holds that the caller can check; lemmas with concrete inputs show
that the failing cases are reached.

- Locks are taken downwards in the hierarchy, except by a Generation II daycare: while it holds the
  Pokémon it is given it locks the other resident. `DaycareIsDisciplinedIff` says when that breaks the
  order, and `DaycaresDeadlock` leads any two daycares into a deadlock. Without such placements the
  modelled calls are free of deadlock (`LibraryNeverDeadlocks`).
- `set_item` at the end of a list counts the position as a new item even when it writes "none" or
  the list is full; and `add` of "none" is accepted by a PC list with room (`StepKeepsSoundIff`,
  `FreshRunStaysSoundIff`; `AddOfNoneBreaks`, `SetNoneAtEndBreaks`, `SetLastOfFullBreaks`).
- The modern item list does not set its count when it is loaded, so only an empty list survives a
  reload, and the first item added to a loaded list overwrites slot 0 (`ItemLaws.ReloadIff`,
  `LoadedAddOverwrites`).
- In the TM/HM pocket `set_item` does not write the native counts (`Pocket.SetItem`,
  `SetItemIsNotStored`), and adding to a slot that was loaded with more than 99 lowers it
  (`AddNeverLowersIff`, `AddOneToHundred`).
- `set_pokemon` of a party reads the count before it takes the lock (`StaleCountIsHarmlessIff`,
  `StaleCountLeavesGap`).
- Clearing the shininess of a Generation III Pokémon changes nothing that shininess depends on
  (`ClearedKeepsShininess`, `SetShininessWorksIff`).
- Default moves miss the move learned last when some, but not all, entries of the table are within
  the level and there are more than four of them (`WindowIsLatestIff`, `LatestMoveMissed`).
- `set_personality` and `set_shininess` change the form of a Generation III Unown but not its species
  index. Every copy, and every load, takes the form from the index and overwrites the personality
  (`StepStoresIff`, `RunStoresIff`, `UnownForms.ReloadIff`; `CopyLosesForm`). A copy also rewrites a personality
  that carries a larger code for the same form (`RewriteKeepsIff`, `RewriteLosesCode`).
- `set_ability` searches a new personality by shininess, nature, ability and gender, and leaves the
  form alone. The form is safe from it exactly if the Pokémon is no Unown (`SearchKeepsFormIff`); for
  an Unown the search always has a result with another form (`SearchMayChangeForm`, `TwoResults`).
- `set_form` of a Generation III Unown can make a shiny one plain (`SetFormKeepsShinyIff`,
  `FormLosesShininess`).
- In Generation II `set_form("")` shows form A and stores the IVs of form Z (`ApplyAgreesIff`,
  `EmptyNameSpellsLast`, `RunAgreesIff`).
- Taking back a contest ribbon just given restores the old state only if the contest stood one
  level below it (`RevokeUndoesGrantIff`).
- A flush of the Generation II PC rewrites all box names. An untouched name survives only without
  bytes after its terminator and without bytes that have no character (`NamesSurviveIff`,
  `OldTailIsLost`).

## Assumptions

The headers of the PKSav library are not part of this model, so its layouts are stated here:

- `iv_egg_ability`: five bits each for HP, attack, defense, speed, special attack and special
  defense from bit 0, egg flag in bit 30, ability flag in bit 31.
- `ribbons_obedience`: three bits each for cool, beauty, cute, smart and tough from bit 0, awards in
  bits 15 to 26, obedience in bit 31. The names of normal contest ribbons have no rank word.
- `origin_info`: level met in bits 0 to 6, game in bits 7 to 10, ball in bits 11 to 14, trainer
  gender in bit 15.
- Markings in bits 0 to 3 of a byte; PP Ups in two bits per move.
- Game Boy IVs: special, speed, defense and attack in four bits each from bit 0, HP in their lowest
  bits. The shiny IVs that the program stores are 0xFAAA.
- Pokédex bit `n - 1` of a byte array stands for species `n`. The current-box byte of Generation I
  keeps its number in the low seven bits. Index 0 means "none" for items and Pokémon.

- Generation II text is one byte to a character, ends at the first byte 0x50 or with its field, and is
  padded with 0x50 when it is written.

The SQLite database, the conversion between games and the character tables are parameters (`Catalog`,
`Filing`, `World`, `Movedex`, `Charset`). Where a theorem needs a property of them it is a named
hypothesis: `Faithful` (item indices fit 16 bits and name one item, "none" has index 0), `Genuine` (the
packed form of a Pokémon has the species and egg flag that its accessors show, also after
conversion), `Settles` (what an object does to its copy of packed data keeps the species index and
the egg bit, and does nothing the second time; `UnownStorage` proves it for what these objects do), `Sensible` (PP and move numbers fit their fields),
`HasForms` (Unown has its letters), `Admissible` (what the search for a personality may return). Unown
is genderless. Balls up to number 12 are those the database knows. Hosts are little-endian. Machine
words are modelled bit by bit; counts and amounts that the program narrows to 8, 16 or 32 bits are
narrowed explicitly. Exceptions are values of `Outcome`.

## Model

| member | source | states |
|---|---|---|
| `LibraryCalls.LibraryNeverDeadlocks` | lib/game_save_gen1impl.cpp:140-187 | Any number of threads making any of the modelled calls on shared objects, in full or with guards left out (exceptions, branches, accessors without a lock), with daycare placements orderly: in every reachable state all calls are over and all mutexes free, or some thread can move, and no schedule runs for ever |
| `LibraryCalls.CallIsDisciplinedIff` | lib/pokemon_party_gbimpl.ipp:75-206 | A modelled call takes its nested locks only downwards in the order save, bag or PC, list or party or box or daycare, Pokémon, Pokédex, or takes again what it holds, exactly if it is no disorderly daycare placement |
| `LibraryCalls.PlaceIsDisciplined` | lib/pokemon_box_gbimpl.ipp:122-258 | Under the lock of a party or box of any generation, a placement locks Pokémon, the new member included, and then the Pokédex, also with a conversion in between |
| `LibraryCalls.SettersAreDisciplined` | lib/pokedex_impl.cpp:96-164 | The two Pokédex setters, calling each other, only lock the Pokédex again |
| `LibraryCalls.ToGameIsDisciplined` | lib/pokemon_gbaimpl.cpp:240-296 | A conversion locks the old Pokémon and the new one that no other thread knows yet |
| `LibraryCalls.SaveIsDisciplined` | lib/game_save_gen1impl.cpp:140-187 | Under the save's lock, writing back bag, item PC, party, PC and Pokédex stays downwards, and so does the GameCube's order of party, item PC, PC and bag |
| `LibraryCalls.PcIsDisciplined` | lib/pokemon_pc_gen2impl.cpp:150-199 | Asking a PC for its native data keeps the order: each box and its Pokémon under the PC, then every box again for its name. That none of these guards is missing is what `CallGuards.PcLocksEverything` says |
| `LibraryCalls.PartyIsDisciplined` | lib/pokemon_party_impl.cpp:91-98 | Asking a party for its native data locks its members one by one under the party |
| `LibraryCalls.PartIsDisciplined` | lib/pokemon_box_gbaimpl.cpp:100-108 | A call left by an exception, which releases its guards, or with any of its inner guards not taken, still keeps the order |
| `LibraryCalls.DaycareIsDisciplinedIff` | lib/daycare_gen2impl.cpp:154-224 | A daycare placement keeps the order exactly if it stores no names, has no other resident, converts the Pokémon first, or is given the other resident itself |
| `CallGuards.CallGuardsAre` | lib/pokemon_box_gbaimpl.cpp:95-155 | Every modelled call takes the mutexes of the objects it works on and no others, and for any two different mutexes takes one while it holds the other exactly if the table of what lies under what says so: for placements, native data, saves, bags, the Pokédex and single objects |
| `CallGuards.PcLocksEverything` | lib/pokemon_pc_gen2impl.cpp:150-199 | Asking a PC for its native data takes each of its boxes under the PC, and each Pokémon of a box under that box |
| `CallGuards.SaveLocksEverything` | lib/game_save_gen1impl.cpp:140-187 | Writing a save takes bag, item PC, party, PC and Pokédex under the save, the pockets under the bag, the members under the party, the boxes under the PC and their Pokémon under the boxes |
| `CallGuards.BoxLocksDownwards` | lib/pokemon_box_gbaimpl.cpp:95-155 | A placement into a box that has a Pokédex takes the Pokémon handed over, the one copied and the Pokédex while it holds the box, and the Pokédex while it holds the one copied |
| `CallGuards.PartyLocksDownwards` | lib/pokemon_party_gbaimpl.cpp:55-137 | The same for a party |
| `CallGuards.DaycareLocksOtherResident` | lib/daycare_gen2impl.cpp:154-224 | A Generation II daycare takes the other resident while it holds itself and the Pokémon handed over |
| `CallGuards.NativeLocksMembers` | lib/pokemon_box_impl.cpp:92-99 | Native data of a party, a box or a daycare takes each member under its container |
| `CallGuards.TraceTakes` | lib/pokemon_box_impl.hpp:25 | A thread acquires, on its way through a call, exactly the mutexes that the call takes |
| `Daycares.DaycaresDeadlock` | lib/daycare_gen2impl.cpp:154-224 | Any two daycares of Generation II, each given the Pokémon that lives in the other, have a schedule after which neither thread can move |
| `Locking.DisciplineIsDeadlockFree` | lib/pokemon_box_impl.hpp:25 | For recursive mutexes with owner and depth: code that keeps the order cannot deadlock under any schedule, terminates, and leaves every mutex free |
| `Locking.StepKeepsInv` | lib/pokemon_box_impl.hpp:25 | After every step the mutex table holds exactly the guards that the threads have open, with their depths |
| `Locking.SomeoneMoves` | lib/pokemon_box_impl.hpp:25 | Following who waits for whom leads to a thread that can move, since the level of the awaited mutex grows |
| `ItemLists.ItemList.constructor` | lib/item_list_modernimpl.cpp:18-38 | A loaded list shows the decoded slots and a count of 0; its native array mirrors them exactly if every index is the one the database gives its item |
| `ItemLists.ItemList.FromNative` | lib/item_list_modernimpl.cpp:65-84 | The loading loop decodes every native entry into its slot |
| `ItemLists.ItemList.ToNative` | lib/item_list_modernimpl.cpp:86-107 | Index -1 mirrors every slot, any other index just its own |
| `ItemLists.ItemList.Add` | lib/item_list_impl.cpp:230-292 | The loops and early exits compute `ItemRules.Add`, errors in order included; the mirror is kept by writing one slot; a refused call writes nothing |
| `ItemLists.ItemList.Remove` | lib/item_list_impl.cpp:294-341 | The same for `ItemRules.Remove`, with one slot or the whole mirror written; `ItemOrder.RemoveAll` and `RemoveSome` say which slots that leaves |
| `ItemLists.ItemList.Move` | lib/item_list_impl.cpp:343-364 | The same for `ItemRules.Move` |
| `ItemLists.ItemList.SetItem` | lib/item_list_impl.cpp:366-426 | The same for `ItemRules.SetItem`, with its count at the end boundary |
| `ItemRules.Find` | lib/item_list_impl.cpp:245-271 | The first slot in use that holds the item, or the count if none does |
| `ItemLaws.StepKeepsSoundIff` | lib/item_list_impl.cpp:230-426 | A call keeps distinct real items in amounts 1..99 followed by empty slots exactly when it is safe; a refused call changes nothing |
| `ItemLaws.AddKeepsSound` | lib/item_list_impl.cpp:230-292 | `add` breaks soundness exactly by appending "none" where it fits |
| `ItemLaws.SetItemKeepsSound` | lib/item_list_impl.cpp:366-426 | `set_item` breaks soundness exactly at the end boundary with "none" or a full list |
| `ItemLaws.FreshRunStaysSoundIff` | lib/item_list_impl.cpp:162-183 | Any run of calls on a new list keeps it sound throughout exactly when every call in it is safe |
| `ItemRuns.RunOnNew` | lib/item_list_impl.cpp:230-426 | After any safe run on a new list object its slots are those of the rules, its native array is their encoding, and decodes to them |
| `ItemLaws.AddOfNoneBreaks` | lib/item_list_impl.cpp:272-291 | A new PC list accepts one "none" and counts it |
| `ItemLaws.SetNoneAtEndBreaks` | lib/item_list_impl.cpp:413-423 | Writing "none" at position 0 of a new list changes no slot and counts one item |
| `ItemLaws.SetLastOfFullBreaks` | lib/item_list_impl.cpp:413-423 | Replacing the one slot of a full list gives it two items |
| `ItemLaws.AddSucceedsIff` | lib/item_list_impl.cpp:230-292 | `add` succeeds exactly when the amount is positive, the item's total stays within 99, and the item is there already or fits into free room |
| `ItemLaws.RemoveSucceedsIff` | lib/item_list_impl.cpp:294-341 | `remove` succeeds exactly for amounts from 1 to the item's total |
| `ItemLaws.AcceptedCallConserves` | lib/item_list_impl.cpp:230-426 | An accepted call moves the total of the item it names by its amount and leaves every other item's total, but for the one that `set_item` overwrites |
| `ItemLaws.AddThenRemove` | lib/item_list_impl.cpp:230-341 | Removing what was just added gives back the same list, order included |
| `ItemLaws.MoveRelocates` | lib/item_list_impl.cpp:343-364 | A move puts one slot into its place, keeps the order of the others, and is undone by the move with swapped positions |
| `ItemOrder.AddMore` | lib/item_list_impl.cpp:245-271 | More of an item in the list makes its own slot larger by the amount, and no slot moves |
| `ItemOrder.AddNew` | lib/item_list_impl.cpp:272-291 | A new item goes behind the ones in use, and no other slot changes |
| `ItemOrder.AddOutcomeIs` | lib/item_list_impl.cpp:230-292 | Which error `add` gives, in terms of the item's total, the room and the filing: the amount is tested first, what the item is last |
| `ItemOrder.RemoveAll` | lib/item_list_impl.cpp:314-333 | Removing all of an item takes its slot out, keeps the others in order, and leaves empty slots at the end |
| `ItemOrder.RemoveSome` | lib/item_list_impl.cpp:314-333 | Removing some makes its own slot smaller by the amount, and no slot moves |
| `ItemOrder.RemoveOutcomeIs` | lib/item_list_impl.cpp:294-341 | Which error `remove` gives, in terms of the amount and the item's total |
| `ItemOrder.RemoveInTwo` | lib/item_list_impl.cpp:294-341 | Removing an amount in two steps leaves the same list as in one |
| `ItemOrder.SetWritesOne` | lib/item_list_impl.cpp:366-426 | An accepted `set_item` writes its position and no other, and counts one more exactly at the end boundary |
| `ItemOrder.SetNoneTakesOut` | lib/item_list_impl.cpp:405-423 | "None" before the end takes the slot out and keeps the others in order |
| `ItemOrder.SetSucceedsIff` | lib/item_list_impl.cpp:366-412 | `set_item` succeeds exactly at a position in use or right behind, for an item that the list files, in an amount from 1 to 99, of which the other slots hold none; or for "none" with amount 0 |
| `ItemOrder.SetRefusalIs` | lib/item_list_impl.cpp:366-412 | A refused `set_item` changes nothing, and throws out-of-range for a bad position or for the amount of an item that the list files, and invalid-argument otherwise |
| `ItemOrder.EncodesExactly` | lib/item_list_modernimpl.cpp:86-107 | Each native entry of a sound list is the game's index of the item and its amount, uncut, and zero behind them |
| `ItemLaws.DecodeUndoesEncode` | lib/item_list_modernimpl.cpp:40-63 | Decoding the native mirror of a sound list gives its slots |
| `ItemLaws.ZeroMemoryIsFresh` | lib/item_list_modernimpl.cpp:18-38 | Zeroed memory is the mirror of a new list, and decodes to it |
| `ItemLaws.ReloadIff` | lib/item_list_modernimpl.cpp:65-84 | Saving and loading gives the list back exactly when it was empty, because the count is not restored |
| `ItemLaws.LoadedAddOverwrites` | lib/item_list_impl.cpp:272-291 | On a list loaded with items an accepted `add` overwrites slot 0 |
| `BagRules.CallKeepsBagSoundIff` | lib/item_bag_impl.cpp:117-141 | A bag call that is refused changes nothing; any other leaves every pocket sound and holding only items filed under it exactly when it does not put "none" into a pocket that takes it |
| `BagRules.CallConserves` | lib/item_bag_impl.cpp:117-141 | A bag call changes how many of an item the bag holds by its amount if it was accepted and names the item, and else not |
| `BagRules.TakeSucceedsIff` | lib/item_bag_impl.cpp:130-141 | The bag gives amounts from 1 to what it holds, and no other |
| `BagRules.PutSucceedsIff` | lib/item_bag_impl.cpp:117-128 | The bag takes an item exactly if it has a pocket for it, the total stays within 99, and the pocket has the item or has room and files it |
| `BagRules.FilingComesFirst` | lib/item_bag_impl.cpp:117-181 | An item filed nowhere is an invalid argument, one filed under a pocket that the game lacks is out of range, and too large a removal is a runtime error |
| `BagRules.RunConserves` | lib/item_bag_impl.cpp:117-141 | Over any safe run the bag stays sound and of each item holds what it had and what the accepted calls brought, all in the item's own pocket |
| `BagRules.EveryRunIsSafe` | lib/item_bag_impl.cpp:153-181 | Where the database files "none" under no pocket, every run is safe |
| `ItemBags.ItemBag.Add` | lib/item_bag_impl.cpp:117-128 | Files the item, changes only its pocket, and refreshes the bag's native copy of every pocket, also of pockets edited directly; a refused call leaves that copy as it was |
| `ItemBags.ItemBag.Remove` | lib/item_bag_impl.cpp:130-141 | The same for taking out |
| `ItemBags.ItemBag.ToNative` | lib/item_bag_gbaimpl.cpp:124-250 | Each of the five places of the native structure becomes a copy of its own pocket, under the name the game has for it |
| `ItemBags.ItemBag.PlacesAre` | lib/item_bag_gbaimpl.cpp:124-250 | Name by name and game by game, the pocket that each of the five native places copies |
| `ItemBags.ItemBag.GetNative` | lib/item_bag_impl.cpp:143-150 | What is returned is up to date with every pocket |
| `TmHmPocket.PositionIsBijection` | lib/item_list_gen2_tmhmimpl.cpp:22-60 | TM and HM ids match the 57 slots one to one, and the constructor puts each id where `add` looks for it |
| `TmHmPocket.MachinesInOrder` | lib/item_list_gen2_tmhmimpl.cpp:39-60 | The 57 slots hold the machines in ascending order of their ids, from 305 to 403 |
| `TmHmPocket.CheckOutcomeIs` | lib/item_list_gen2_tmhmimpl.cpp:99-167 | `add` and `remove` accept 1 to 99 of a listed machine and nothing else, and what each refusal throws |
| `TmHmPocket.RunBySlot` | lib/item_list_gen2_tmhmimpl.cpp:99-167 | Over any run the amount of a machine depends on the accepted calls that name it and on nothing else, and amounts stay within 0..99 if they were |
| `TmHmPocket.OneWayRunSaturates` | lib/item_list_gen2_tmhmimpl.cpp:99-167 | A run that only adds a machine, or only removes it, ends at the exact sum or at the bound, from any amount |
| `TmHmPocket.AddNeverLowersIff` | lib/item_list_gen2_tmhmimpl.cpp:99-132 | Adding never lowers an amount exactly when it was at most 99 |
| `TmHmPocket.AddOneToHundred` | lib/item_list_gen2_tmhmimpl.cpp:99-132 | One more added to 100 leaves 99 |
| `TmHmPocket.Pocket.constructor` | lib/item_list_gen2_tmhmimpl.cpp:39-74 | Every slot holds its machine in the loaded amount |
| `TmHmPocket.Pocket.FromNative` | lib/item_list_gen2_tmhmimpl.cpp:203-213 | Slot amounts become the native counts |
| `TmHmPocket.Pocket.ToNative` | lib/item_list_gen2_tmhmimpl.cpp:215-225 | Native counts become the slot amounts |
| `TmHmPocket.Pocket.Add` | lib/item_list_gen2_tmhmimpl.cpp:99-132 | One slot changes by saturated addition and all native counts mirror the slots, or the call is refused and nothing changes |
| `TmHmPocket.Pocket.Remove` | lib/item_list_gen2_tmhmimpl.cpp:134-167 | The same for removal |
| `TmHmPocket.PositiveCountIsSize` | lib/item_list_gen2_tmhmimpl.cpp:76-97 | Counting the positive counts one by one gives the size of the set of slots with a positive count |
| `TmHmPocket.Pocket.GetNumItems` | lib/item_list_gen2_tmhmimpl.cpp:76-97 | The size of the set of machines with a positive native count, which is that of the slots with a positive amount when they are mirrored |
| `TmHmPocket.Pocket.SetItem` | lib/item_list_gen2_tmhmimpl.cpp:174-201 | Accepts only position 0 with its own machine, and breaks the mirror exactly when it changes the amount |
| `TmHmPocket.SetItemIsNotStored` | lib/item_list_gen2_tmhmimpl.cpp:174-201 | In a new pocket `set_item` shows one machine and stores none |
| `PokedexBits.WithBitNumbers` | lib/pokedex_gbaimpl.cpp:110-136 | Setting a bit adds or removes one species and no other |
| `PokedexBits.BitAtIs` | lib/pokedex_gbaimpl.cpp:72-108 | The bit of species n is bit (n - 1) modulo 8, from the low end, of byte (n - 1) / 8 |
| `PokedexBits.ListedIsExact` | lib/pokedex_impl.cpp:199-224 | The rebuilt list is the strictly ascending list of exactly the species 1..n whose bit is set, so its length is their number |
| `PokedexRules.RunIsCoherentIff` | lib/pokedex_impl.cpp:96-164 | After any run everything caught has been seen, if it was so before; otherwise exactly when the run names every species caught but not seen |
| `PokedexRules.RunIsLastWrite` | lib/pokedex_impl.cpp:96-164 | After any run a species is seen, or caught, as the last call that decides it says |
| `PokedexRules.RunIsDecided` | lib/pokedex_impl.cpp:96-164 | After any run a species is seen exactly if it was, or a call saw or caught it, and no later call unsaw it; caught exactly if it was, or a call caught it, and no later call uncaught or unsaw it |
| `Pokedexes.Pokedex.constructor` | lib/pokedex_gbaimpl.cpp:27-70 | The sets are the loaded bits, and the lists are marked stale |
| `Pokedexes.Pokedex.SetNativeSeen` | lib/pokedex_gbaimpl.cpp:110-122 | Writing through all three native pointers, which are one buffer, sets one bit |
| `Pokedexes.Pokedex.HasSeen` | lib/pokedex_gbaimpl.cpp:72-89 | Membership in the seen set |
| `Pokedexes.Pokedex.HasCaught` | lib/pokedex_gbaimpl.cpp:91-108 | Membership in the caught set |
| `Pokedexes.Pokedex.SetHasSeen` | lib/pokedex_impl.cpp:96-116 | Unseeing also uncatches; the recursion through `set_has_caught` ends; no list that is marked fresh is stale afterwards |
| `Pokedexes.Pokedex.SetHasCaught` | lib/pokedex_impl.cpp:144-164 | Catching also sees, likewise |
| `Pokedexes.Pokedex.MemberVector` | lib/pokedex_impl.cpp:199-224 | The loop lists the set bits in ascending order |
| `Pokedexes.Pokedex.GetAllSeen` | lib/pokedex_impl.cpp:118-129 | Whatever came before, the list returned is that of the bits as they are now |
| `Pokedexes.Pokedex.GetNumSeen` | lib/pokedex_impl.cpp:131-142 | The number of seen species up to n |
| `Pokedexes.Pokedex.GetAllCaught` | lib/pokedex_impl.cpp:166-177 | As for seen |
| `Pokedexes.Pokedex.GetNumCaught` | lib/pokedex_impl.cpp:179-190 | As for seen |
| `StorageRules.RunRecordsExactly` | lib/pokemon_box_gbaimpl.cpp:143-154 | After any run of placements into party and boxes the shared Pokédex has seen and caught exactly what it had and the species of the accepted placements that are neither "none" nor eggs |
| `PlacementLaws.GainedIff` | lib/pokemon_box_gbaimpl.cpp:143-154 | A species is among those a run brings exactly if some placement of the run, accepted on the save as the placements before it left it, was of that species and of no egg |
| `PlacementLaws.BoxPlacementIsLocal` | lib/pokemon_box_gbaimpl.cpp:109-141 | An accepted placement puts the Pokémon, converted if it is from another game, at the entry asked for; every other entry stays, and a refused placement changes none |
| `PlacementLaws.BoxOutcomeIs` | lib/pokemon_box_gbaimpl.cpp:95-120 | When a box accepts a placement, and which error comes first when it does not |
| `PlacementLaws.PartyPlacementIsLocal` | lib/pokemon_party_gbaimpl.cpp:55-102 | The same as for a box: one slot is written, with what was handed over or its conversion |
| `PlacementLaws.PartyOutcomeIs` | lib/pokemon_party_gbaimpl.cpp:55-85 | A party accepts a Pokémon in the slots in use and right behind them, "none" only in the last one in use or behind; and which error comes first |
| `PlacementLaws.PartyCountIs` | lib/pokemon_party_gbaimpl.cpp:103-122 | Without gaps, a genuine placement moves the count by one exactly when it appends a Pokémon or vacates the last slot, so that it is the number of taken slots again |
| `PlacementLaws.LoadKeepsCounted` | lib/pokemon_party_gbaimpl.cpp:139-162 | Loading keeps the slots below the count and the vacant ones, and clears the taken ones past it |
| `PlacementLaws.SignedCountIs` | lib/pokemon_party_gbaimpl.cpp:48-53 | The count is the native 32-bit number read in two's complement |
| `StorageRules.RunKeepsConsistent` | lib/pokemon_party_gbaimpl.cpp:55-137 | Any run of genuine placements keeps the party without gaps, nothing caught unseen, and every stored Pokémon that is no egg caught |
| `StorageRules.PlaceKeepsContiguousIff` | lib/pokemon_party_gbaimpl.cpp:55-122 | A placement keeps the party without gaps exactly when it is refused or the copied structure is vacant or taken as the species says |
| `StorageRules.LoadIsContiguousIff` | lib/pokemon_party_gbaimpl.cpp:139-162 | Loading gives a party without gaps exactly when the native count, read as a signed number, is within 0..6 and the slots below it are taken |
| `StorageRules.CountedLoadIsContiguousIff` | lib/pokemon_party_gcnimpl.cpp:141-159 | Counting taken slots gives a party without gaps exactly when the native slots have none |
| `StorageRules.StaleCountIsHarmlessIff` | lib/pokemon_party_gbaimpl.cpp:60-70 | With a count read before the lock, exactly when the placement still leaves no gap |
| `StorageRules.StaleCountLeavesGap` | lib/pokemon_party_gbaimpl.cpp:60-70 | Two accepted calls that saw the same count leave a gap |
| `StorageRules.WritingBackKeepsContiguous` | lib/pokemon_party_gbaimpl.cpp:164-179 | Copying the objects back keeps a party as contiguous as it was, and twice is once |
| `Storage.RecordInPokedex` | lib/pokemon_party_gbaimpl.cpp:124-136 | The Pokédex object gains the species as seen and caught, unless it is "none" or an egg |
| `Storage.GbaParty.constructor` | lib/pokemon_party_gbaimpl.cpp:25-46 | The party is what loading makes of the native buffer |
| `Storage.GbaParty.FromNative` | lib/pokemon_party_gbaimpl.cpp:139-162 | Slots past the count are cleared, the others and the count kept |
| `Storage.GbaParty.SetPokemon` | lib/pokemon_party_gbaimpl.cpp:55-137 | An accepted Pokémon, converted if need be, is the new content of its slot and no other slot changes; count, outcome and Pokédex are those of the rules, and every Pokémon object holds the settled copy of its slot |
| `Storage.GbaParty.UpdateCount` | lib/pokemon_party_gbaimpl.cpp:103-122 | The count goes up when a vacant end is taken, down when the last slot is vacated |
| `Storage.GbaParty.SetPokedex` | lib/pokemon_party_impl.hpp:49-54 | The party records in the Pokédex it is handed |
| `Storage.GbaParty.GetNative` | lib/pokemon_party_gbaimpl.cpp:164-179 | Every slot becomes what its object settled to |
| `Storage.GcnParty.FromNative` | lib/pokemon_party_gcnimpl.cpp:141-159 | The separate count is the number of taken slots |
| `Storage.GcnParty.SetPokemon` | lib/pokemon_party_gcnimpl.cpp:70-139 | The same rules as for the other party, on a count of its own |
| `Storage.GbaBox.GetNumPokemon` | lib/pokemon_box_gbaimpl.cpp:74-88 | The size of the set of entries with a species |
| `StorageRules.TakenCountIsSize` | lib/pokemon_box_gbaimpl.cpp:74-88 | Counting the taken entries one by one gives the size of the set of indices with a species |
| `Storage.GbaBox.SetPokemon` | lib/pokemon_box_gbaimpl.cpp:95-155 | An accepted Pokémon, converted if need be, is the new content of the entry at the index, and no other entry or object changes; outcome and Pokédex are those of the rules; the index equal to the capacity passes the first check and fails the second |
| `Storage.GbaBox.constructor` | lib/pokemon_box_gbaimpl.cpp:27-49 | A box holds the native entries as they are, with an object for each |
| `Storage.GbaBox.GetNative` | lib/pokemon_box_gbaimpl.cpp:227-240 | Every entry becomes what its object settled to |
| `Saves.GbaSave.constructor` | lib/game_save_gbaimpl.cpp:160-173 | The save hands one Pokédex to its party and to every box, and changes nothing else |
| `Saves.GbaSave.PlaceInBox` | lib/pokemon_box_gbaimpl.cpp:95-155 | A placement into one box object is one step of the save: no other box, and not the party, changes |
| `Saves.GbaSave.PlaceAll` | lib/pokemon_box_gbaimpl.cpp:143-154 | Each request, at its own place and in its turn, is one step of a run of the rules; so the shared Pokédex object has seen and caught what it had and the species of the accepted ones, and a consistent save is consistent still |
| `UnownStorage.GbaMembersSettle` | lib/pokemon_gbaimpl.cpp:163-200 | Rewriting the personality of an Unown, and of no other, keeps index and egg bit and does nothing the second time |
| `UnownStorage.SettledIff` | lib/pokemon_party_gbaimpl.cpp:164-179 | Writing back leaves a slot as it is exactly if it holds no Unown, or one that carries the number of its own letter |
| `UnownStorage.SettledIsReloaded` | lib/pokemon_gbaimpl.cpp:1453-1477 | What a slot settles to is the copy of the form rules |
| `PcRules.FlushOfLoad` | lib/pokemon_pc_gen1impl.cpp:102-160 | Loading and flushing without an edit leaves the storage as it was, for every current-box number |
| `PcRules.LoadOfFlush` | lib/pokemon_pc_gen1impl.cpp:102-160 | What was flushed is what is loaded |
| `PcRules.FlushOfFlush` | lib/pokemon_pc_gen1impl.cpp:133-160 | A second flush replaces the first |
| `PcRules.FlushKeepsShadow` | lib/pokemon_pc_gen1impl.cpp:133-160 | The array slot behind a valid current box is never written, and the current-box buffer is only written if its number is valid |
| `PcRules.EditIsLocal` | lib/pokemon_pc_gen2impl.cpp:110-178 | Editing one logical box writes one physical place and changes no other logical box |
| `PcRules.FlagIsIgnored` | lib/pokemon_pc_gen1impl.cpp:102-110 | The flag in the top bit of the current-box byte does not change which box is the current one |
| `PcRules.NamesSurviveIff` | lib/pokemon_pc_gen2impl.cpp:180-199 | Untouched box names survive a flush exactly when each has a character for every byte before its terminator and only terminators after |
| `PcRules.TextSurvivesIff` | lib/pokemon_pc_gen2impl.cpp:138-197 | A name that fits is read back exactly when each character has a byte of its own other than the terminator |
| `PcRules.OldTailIsLost` | lib/pokemon_pc_gen2impl.cpp:180-199 | The end of a longer name behind a shorter one is wiped |
| `PcStorage.Gen1Pc.FromNative` | lib/pokemon_pc_gen1impl.cpp:102-131 | The box objects hold the logical boxes, for the number without its flag bit |
| `PcStorage.Gen1Pc.ToNative` | lib/pokemon_pc_gen1impl.cpp:133-160 | The buffers become the flush of the box objects |
| `PcStorage.Gen2Pc.FromNative` | lib/pokemon_pc_gen2impl.cpp:110-148 | The same with the whole byte as number, and each box gets its own name |
| `PcStorage.Gen2Pc.ToNative` | lib/pokemon_pc_gen2impl.cpp:150-178 | The flush, and all names rewritten |
| `PcStorage.Gen2Pc.UpdateBoxNames` | lib/pokemon_pc_gen2impl.cpp:180-199 | The name list and the native names are those of the boxes |
| `PcStorage.Gen1Save.SaveAs` | lib/game_save_gen1impl.cpp:157-173 | The file image becomes the flushed storage, and loading it gives the boxes as edited |
| `BitFields.StoredIsRead` | lib/pokemon_gbaimpl.cpp:822-823 | A value that fits into a bit field is read back |
| `BitFields.StoredKeepsOthers` | lib/pokemon_gbaimpl.cpp:822-823 | A field that does not overlap keeps its value |
| `GbaLayout.SetterRefinesView` | lib/pokemon_gbaimpl.cpp:676-1147 | Each setter on the packed form changes its own field of the unpacked view and no other |
| `GbaLayout.RunRefinesView` | lib/pokemon_gbaimpl.cpp:676-1147 | After any run of setters, on packed words, blocks, moves and personality, the packed form reads as a plain record that had the same updates |
| `GbaLayout.LadderLaw` | lib/pokemon_gbaimpl.cpp:1238-1290 | Granting rank k leaves a contest's old ribbons and all ranks up to k, revoking it the old ribbons below k, and every other ribbon stays |
| `GbaLayout.LadderIsClosed` | lib/pokemon_gbaimpl.cpp:1339-1386 | The ribbons held in a contest are downward closed |
| `GbaLayout.LevelIs` | lib/pokemon_gbaimpl.cpp:1339-1386 | Level 1 to 4 of a contest holds its normal, super, hyper and master ribbons up to that one |
| `GbaLayout.RevokeUndoesGrantIff` | lib/pokemon_gbaimpl.cpp:1238-1290 | Revoking undoes granting exactly from one level below |
| `Shininess.MadeShinyClosedForm` | lib/pokemon_impl.cpp:562-577 | The column loop leaves bits 0..2 and the high half and makes bits 3..15 the exclusive or of the other three half words |
| `Shininess.MadeShinyIsShiny` | lib/calculations/shininess.cpp:43-65 | What the loop makes is shiny by the separate test |
| `Shininess.MadeShinyChangesIff` | lib/pokemon_impl.cpp:562-577 | It changes nothing exactly on shiny Pokémon, and is idempotent |
| `Shininess.ClearedKeepsShininess` | lib/pokemon_impl.cpp:578-585 | Clearing makes column 0 odd and never changes whether a Pokémon is shiny |
| `Shininess.ClearedClosedForm` | lib/pokemon_impl.cpp:578-585 | Clearing can change bit 0 alone, which becomes the inverse of the exclusive or of the other three bits of column 0 |
| `Shininess.SetShininessWorksIff` | lib/pokemon_impl.cpp:553-586 | `set_shininess` does what it is asked exactly when asked for shiny or the Pokémon was not |
| `UnownBits.WrittenIsRead` | lib/calculations/form.cpp:48-56 | The code written is the code read, and the other 24 bits stay |
| `UnownBits.CodeIs` | lib/calculations/form.cpp:48-56 | The code read is made of the low two bits of the four bytes, lowest byte first |
| `UnownBits.FormsInOrder` | lib/calculations/form.cpp:48-75 | Codes 0 to 27 are A to Z, the question mark and the exclamation mark |
| `UnownBits.FormRoundTrip` | lib/pokemon_gbaimpl.cpp:1442-1477 | Each of the 28 forms reads back, from every personality |
| `UnownBits.RewriteKeepsIff` | lib/pokemon_gbaimpl.cpp:1453-1477 | Writing a form again keeps the personality exactly when it carried the form's own number |
| `UnownBits.RewriteLosesCode` | lib/pokemon_gbaimpl.cpp:1453-1477 | A personality with code 28 reads as A and is changed by writing A |
| `UnownForms.RunAgreesIff` | lib/pokemon_gbaimpl.cpp:319-333 | After any run of `set_form`, `set_personality`, `set_shininess` and `set_ability` the form shown is the one the personality encodes exactly when the last call that touched the personality was one of the first three, or left one that encodes the form named or encoded at the last refresh |
| `UnownForms.SettersKeepAgreement` | lib/pokemon_gbaimpl.cpp:917-930 | Any run of the three form-aware setters keeps form and personality in agreement |
| `UnownForms.RunStoresIff` | lib/pokemon_gbaimpl.cpp:1442-1451 | After any run the stored form is the one shown, and a copy shows it too, exactly when the last call that wrote the form was `set_form` or left a personality that encodes the form last named |
| `UnownForms.StepStoresIff` | lib/pokemon_gbaimpl.cpp:469-485 | For each single call, the exact condition on its arguments and the bits before it under which the stored form stays right |
| `UnownForms.ShininessKeepsFormIff` | lib/pokemon_impl.cpp:553-586 | Making an Unown shiny keeps its form exactly if columns 8 and 9 were even, clearing exactly if column 0 was odd |
| `UnownForms.ReloadIff` | lib/pokemon_gbaimpl.cpp:163-200 | A copy shows the same form exactly if it was stored, and has the same personality exactly if that carries the stored form's number; a copy of a copy is the copy |
| `UnownForms.CopyLosesForm` | lib/pokemon_party_gbaimpl.cpp:96-103 | An A given the personality 1 shows B, and its copy is the A it was |
| `UnownForms.FormIsShinyIff` | lib/pokemon_gbaimpl.cpp:1453-1477 | Whether an Unown is shiny after `set_form`, by the other columns, the trainer ID and two bits of the form number |
| `UnownForms.SetFormKeepsShinyIff` | lib/pokemon_gbaimpl.cpp:1453-1477 | A shiny Unown stays shiny exactly if bits 2 and 3 of the new form are what bits 8, 24, 9 and 25 make odd |
| `UnownForms.FormLosesShininess` | lib/pokemon_gbaimpl.cpp:1453-1477 | A shiny A that is not shiny as an E |
| `Personalities.SearchMayChangeForm` | lib/calculations/personality.cpp:142-172 | For every trainer ID, shininess, nature and ability slot the search has a result whose form is not the given one |
| `Personalities.SearchKeepsFormIff` | lib/calculations/personality.cpp:142-172 | Every result keeps the form exactly if the Pokémon is no Unown |
| `Personalities.TwoResults` | lib/calculations/personality.cpp:142-172 | Two results for one request, of forms A and S |
| `Personalities.ShinyForFits` | lib/calculations/personality.cpp:165-169 | For every trainer ID and residue there is a shiny personality of either kind |
| `GbaPokemons.SetModernShininess` | lib/pokemon_impl.cpp:553-586 | The loop computes the repaired personality, the other branch the cleared one |
| `GbaPokemons.WriteForm` | lib/pokemon_gbaimpl.cpp:1453-1477 | The byte loop writes the form's number, and the form is what is then read |
| `GbaPokemons.StorePpUps` | lib/pokemon_gbaimpl.cpp:1092-1101 | The move's two bits get the least number of PP Ups that suffices, and no other bit changes |
| `GbaPokemons.LeastUps` | lib/pokemon_gbaimpl.cpp:1092-1101 | The least number from 0 to 3 with enough PP |
| `GbaPokemons.StoreContestRibbon` | lib/pokemon_gbaimpl.cpp:1262-1287 | Computes the ladder step of the ribbon word |
| `GbaPokemons.GbaPokemon.constructor` | lib/pokemon_gbaimpl.cpp:163-200 | All cached maps agree with the native data, and an Unown's personality is rewritten to its form |
| `GbaPokemons.GbaPokemon.Copy` | lib/pokemon_party_gbaimpl.cpp:96-103 | An object made from native data shows the same form exactly if it was stored, and has the same native data exactly if an Unown's personality carries the stored number |
| `GbaPokemons.GbaPokemon.SetForm` | lib/pokemon_gbaimpl.cpp:319-333 | An accepted form is shown, stored, and for an Unown encoded in the personality, as one step of the form rules |
| `GbaPokemons.GbaPokemon.SetShininess` | lib/pokemon_gbaimpl.cpp:469-485 | The personality is that of the shininess rules, an Unown's form follows it, and the stored form stays |
| `GbaPokemons.GbaPokemon.IsShiny` | lib/calculations/shininess.cpp:43-65 | The early-exit loop decides whether columns 3..15 are all even |
| `GbaPokemons.GbaPokemon.SetAbilityBit` | lib/pokemon_gbaimpl.cpp:1407-1440 | Only the ability bit changes, to tell which of the two abilities it is |
| `GbaPokemons.GbaPokemon.SetPersonality` | lib/pokemon_gbaimpl.cpp:917-930 | Personality and ability bit are set, an Unown's form follows, the stored form stays; a refusal comes after the personality has been written, and changes nothing else |
| `GbaPokemons.GbaPokemon.SetAbility` | lib/pokemon_gbaimpl.cpp:777-794 | The personality becomes a result of the search, so shininess and nature stay; if the search refuses, only the ability bit has changed; form and stored form untouched |
| `GbaPokemons.GbaPokemon.SetIV` | lib/pokemon_gbaimpl.cpp:977-989 | One field of five bits changes and the cached IVs equal a fresh decode |
| `GbaPokemons.GbaPokemon.SetEV` | lib/pokemon_gbaimpl.cpp:1104-1147 | One EV changes, in the block and in the map |
| `GbaPokemons.GbaPokemon.SetContestStat` | lib/pokemon_impl.cpp:642-662 | One contest stat changes, in the block and in the map |
| `GbaPokemons.GbaPokemon.SetMarking` | lib/pokemon_impl.cpp:679-700 | One marking bit changes and the map agrees; markings of later games are refused |
| `GbaPokemons.GbaPokemon.SetRibbon` | lib/pokemon_gbaimpl.cpp:1005-1035 | Awards flip their bit, contest ribbons take a ladder step, other names are refused, and the ribbon map equals a fresh decode |
| `GbaPokemons.GbaPokemon.SetMove` | lib/pokemon_gbaimpl.cpp:1051-1069 | One slot gets the move with its basic PP, natively and in the cache |
| `GbaPokemons.GbaPokemon.SetMovePP` | lib/pokemon_gbaimpl.cpp:1071-1102 | Accepted exactly up to the PP with three PP Ups; sets the PP and the least PP Ups of that move alone |
| `GbaPokemons.GbaPokemon.SetOriginalTrainerGender` | lib/pokemon_gbaimpl.cpp:676-694 | Only the gender bit of the origin word changes; other genders than two are refused |
| `GbaPokemons.GbaPokemon.SetOriginalGame` | lib/pokemon_gbaimpl.cpp:894-908 | Only the game field changes |
| `GbaPokemons.GbaPokemon.SetBall` | lib/pokemon_gbaimpl.cpp:810-824 | Only the ball field changes |
| `GbaPokemons.GbaPokemon.SetLevelMet` | lib/pokemon_gbaimpl.cpp:834-844 | Only the level-met field changes |
| `GbaPokemons.GbaPokemon.SetIsEgg` | lib/pokemon_gbaimpl.cpp:342-356 | Only the egg bit changes, and the IVs stay decoded |
| `GbaPokemons.GbaPokemon.SetIsObedient` | lib/pokemon_gbaimpl.cpp:1224-1236 | Only the obedience bit changes, and the ribbon map stays right |
| `GbaPokemons.DefaultWindow` | lib/pokemon_impl.cpp:330-363 | First and last entry of the window, without underflow |
| `GbaPokemons.GbaPokemon.InitDefaultMoves` | lib/pokemon_impl.cpp:319-376 | The four slots hold the default moves, which `Learnset.DefaultMovesAre` gives entry by entry, each with its basic PP; nothing but the moves and their PP changes |
| `Learnset.WindowIsLatestIff` | lib/pokemon_impl.cpp:344-363 | The window has min(4, k) consecutive eligible entries; it ends with the last one exactly when all entries are eligible or k is at most 4, and otherwise one before it |
| `Learnset.DefaultMovesAre` | lib/pokemon_impl.cpp:319-376 | The moves themselves: the last four of a table that is all within the level, all of up to four, and otherwise the four before the last one within the level |
| `Learnset.LatestMoveMissed` | lib/pokemon_impl.cpp:352-363 | A table where the move learned last is missed |
| `Gen2Rules.CodeIsLargest` | lib/pokemon_gen2impl.cpp:1022-1068 | The code stored for a letter is the largest 8-bit code that reads as it |
| `Gen2Rules.LetterRoundTrip` | lib/calculations/form.cpp:16-46 | Each letter reads back, from all IVs |
| `Gen2Rules.CodeIs` | lib/calculations/form.cpp:16-46 | The code read is made of the two middle bits of attack, defense, speed and special, attack first |
| `Gen2Rules.LetterIs` | lib/calculations/form.cpp:16-46 | The letter is that of the alphabet at a tenth of the code |
| `Gen2Rules.LetteredIsRead` | lib/pokemon_gen2impl.cpp:1022-1068 | Any 8-bit code reads back, and the HP IV does not change |
| `Gen2Rules.LetteredKeeps` | lib/pokemon_gen2impl.cpp:1022-1068 | Storing a letter keeps the lowest and the highest bit of each IV |
| `Gen2Rules.WithIvReads` | lib/pokemon_impl.cpp:588-609 | An IV is read back, HP among them, and setting one other than HP keeps the others that have bits of their own |
| `Gen2Rules.HpIs` | lib/pokemon_impl.cpp:588-609 | The HP IV is made of the parities of attack, defense, speed and special |
| `Gen2Rules.WritingHpKeeps` | lib/pokemon_impl.cpp:588-609 | Setting the HP IV changes nothing but the parities of the other four |
| `Gen2Rules.AcceptedIff` | lib/pokemon_gen2impl.cpp:803-820 | The IVs accepted are exactly those that are read back as they were set |
| `Gen2Rules.RunAgreesIff` | lib/pokemon_gen2impl.cpp:243-254 | After any run of `set_form`, `set_IV` and `set_shininess` the form shown is the one the IVs spell exactly when the last accepted call was not `set_form("")` |
| `Gen2Rules.EmptyNameSpellsLast` | lib/pokemon_gen2impl.cpp:1022-1068 | `set_form("")` shows A and leaves IVs that spell Z |
| `Gen2Rules.SetShininessWorks` | lib/calculations/shininess.cpp:19-41 | In Generation II `set_shininess` does what it is asked, both ways |
| `Gen2Rules.SetShininessIs` | lib/pokemon_gen2impl.cpp:413-439 | Set, the IVs are attack 15 and three times 10; cleared, attack is 13 and defense, speed and special stay |
| `Gen2Rules.ShinyIff` | lib/calculations/shininess.cpp:19-41 | Shiny are the IVs 10, 10, 10 with an attack IV whose second bit is set |
| `Gen2Pokemons.Gen2Pokemon.constructor` | lib/pokemon_gen2impl.cpp:121-184 | An Unown shows the letter of its IVs, and the IV map is their decode |
| `Gen2Pokemons.Gen2Pokemon.SetIV` | lib/pokemon_gen2impl.cpp:803-820 | One IV changes, the IV map is decoded again, and an Unown's form follows |
| `Gen2Pokemons.Gen2Pokemon.SetShininess` | lib/pokemon_gen2impl.cpp:413-439 | The IVs are those of the rules, and an Unown's form follows |
| `Gen2Pokemons.Gen2Pokemon.SetForm` | lib/pokemon_gen2impl.cpp:243-254 | For every species an accepted form is shown and a refused one changes nothing; the code of the name goes into the IVs of an Unown |
| `Gen2Pokemons.Gen2Pokemon.SetUnownIvsFromForm` | lib/pokemon_gen2impl.cpp:1022-1068 | Four IV writes, each with its middle bits replaced, store the code and nothing else |
| `Gen2Pokemons.ReplacedMiddles` | lib/pokemon_gen2impl.cpp:1022-1068 | Writing the four IVs one after the other amounts to writing the eight bits at once |

## Left out

- Reading a field while another thread writes it is not modelled: the model of locks says who waits, the models of objects are sequential, and `StorageRules.StaleCountIsHarmlessIff` is the one place where two threads meet.
- `LibraryCalls.Call` has the placements, the native data of every container, the saves, the bag and the Pokédex, with one call for the single-object calls of each kind; constructors, which lock nothing that others can reach, are missing. That a program with disorderly daycare placements deadlocks is shown for two daycares that exchange residents, not for every such program.
- Edits of a Pokémon object that is a member of a party or box, between its placement and the next request for the native data: members are fixed once placed.
- GbaPokemon.SetRibbon: takes the ribbon that a name stands for, or none; the names themselves are not modelled, nor are those of stats and markings.
- GbaPokemon.SetAbility: takes a result of the search, or none if it refuses its request; when it refuses, and how the Omega Ruby entry chooses the ability slot, is not modelled.
- GbaPokemon: gender, nature, held item, condition, text, experience and party statistics, which are single fields or foreign calculations.
- The write-back of the Pokédex in Game Boy Advance saves, which copies one of the three "seen" buffers twice.
- The Generation II key-item pocket, whose removal writes only one native slot.
- The data of Generation I and II boxes, parties and item lists: a box of theirs is an opaque value that is copied.
- Box wallpapers, the names stored with Pokémon, and the file formats, checksums and encodings of whole saves.
- GameCube Pokémon and bags beyond the party count; the data of daycares, of which only the locks are modelled.
- Database lookups, conversions between games, breeding, statistics and experience formulas: they are parameters or absent.
