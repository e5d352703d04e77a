# KiwiSDR core: a Dafny model

A model, with proofs, of eight state-heavy parts of the KiwiSDR server.

- **Configuration texts** (`cfg/cfg.cpp`, `pkgs/jsmn`): parameters are edited in the JSON text itself. `JsonText` has
  texts as trees that keep their white space (RFC 8259), with a printer and a parser that are inverse to each other,
  `JsonNumber` has the number grammar, and `JsonLex` says where in a text one is inside a string. `CfgText`,
  `CfgSet`, `CfgDoc`, `CfgSpots`, `CfgExact`, `CfgCreate` and `CfgRemove` say what cutting and inserting do to the
  object a text stands for, and exactly when they do what they are for; `CfgBuffer` is the character buffer with its
  pointer loops. `Jsmn` is the tokenizer as it is, which takes more texts than RFC 8259; `JsmnTree`, `JsmnRead`,
  `JsmnDoc`, `JsmnSlack` and `JsmnOrder` say what it makes of a document's text and of texts like it, and `CfgReads`,
  `CfgLeft`, `CfgReadsIff`, `CfgCreated`, `CfgStray` and `CfgInside` what it makes of the texts the edits leave.
  `CfgWalk`, `CfgDepth`, `CfgLookup` and `CfgFind` are the walk over the flat token array and the lookups on top of
  it, `CfgPlaces` which member they find. `CfgParam` is setting a parameter from its name to the new text, all of
  these together, on any text; `CfgSetting` is what that does to a document, `CfgKinds` the same by the characters of
  the text, `CfgReadBack` whether the value is found then, and `CfgExamples` has texts.
- **Network buffers** (`net/nbuf.cpp`): `NbufQueue` is a descriptor's queue as a value, with properties of every run;
  `NbufList` is the doubly linked list, proved against it; `NbufPool` is the shared pool under all descriptors.
- **GPS L1 navigation bits** (`gps/channel.cpp`, `gps/solve.cpp`): `NavParity` has the parity code of IS-GPS-200
  (table 20-XIV) as a linear code and `L1_parity` proved against it; `NavSubframe` is the test of a subframe;
  `NavChannel` is a channel from the circular buffer to the satellite clock, and `NavLate` a run that leaves the clock
  off.
- **Satellites and channels** (`gps/search.cpp`, `gps/channel.cpp`): `SatAlloc` has the search task and the channel
  tasks as interleaved steps, and the code proved against the steps.
- **Labels** (`rx/rx_cmd.cpp`, `dx/dx.cpp`): `DxSearch` is the binary search with a range comparator, `DxList` the
  sorted array and its edits, `DxFile` saving and reading back.
- **Decimation** (`gps/search.cpp`): `Decimate` is the half-band filter in place, over the reals.
- **Blocked addresses** (`net/ip_blacklist.cpp`): `IpBlacklist` is the table of rules.

`Wrappers`, `Powers` and `Modulo` (one file) are what several of them share.

## Where the code does not do what is wanted of it

Each has its exact condition and an input for which it happens.

- A number or string is set if and only if the white space lets `_cfg_cut` find the value: none before the colon, no
  carriage return before the key, only blanks and tabs after the colon; removing it is right in the same cases. With
  any other, the code panics or the text left does not read as the object wanted (`CfgSetting.SettingThere`,
  `CfgSetting.RemovingThere`, `CfgKinds.CuttableIff`, `CfgExamples.BlankBeforeColon`). If there is also something else
  than blanks and line feeds behind the value, a comma is left over: `jsmn_parse` passes over it
  (`CfgExamples.TabBehind`), but the text is not RFC 8259 JSON any more (`CfgExact.SettingWorksIffCuttable`,
  `CfgExact.SettingFails`, `CfgRemove.RemovingWorksIff`).
- A new parameter goes in front of the text's last character. The text then reads as the object with it if and only if
  it ends with its closing brace (`CfgCreated.CreatingReadsIff`). If the object just holds white space, a comma is
  left over again (`CfgExamples.SpacesInRoot`, `CfgCreate.CreateWorksIff`, `CfgCreate.CreateFails`).
- A new `id1.id2` whose `id1` is there goes behind the first character of the value of `id1`, whatever that is. It is
  found again if and only if that is an object or an array (`CfgReadBack.CreatedReadsBack`); it gets into an object,
  and the text is RFC 8259 JSON, if and only if it is an object that does not just hold white space
  (`CfgCreate.CreateInsideIff`, `CfgExamples.SpacesInObject`). From `{"a":5}`, `a.x` makes `{"a":5,"x":1}`
  (`CfgExamples.CreatedElsewhere`).
- A new `id1.id2` whose `id1` is not there is stored under the whole name, where the lookup does not find it
  (`CfgReadBack.CreatedReadsBack`, `CfgExamples.DottedKey`).
- `id1.id2` finds a key of another object if the value of `id1` is not a container and the next container after it has
  the key (`CfgFind.TwoLevelIff`, `CfgFind.FoundElsewhere`). Setting it then rewrites that key
  (`CfgPlaces.SpotIsNamedIff`, `CfgExamples.MisledSet`).
- `CFG_SET` with `CFG_NO_DOT` looks a dotted key up as one, but removes and puts it back by its two parts. If they
  stand for nothing, the key stays and the new member goes in front of the whole text; if they stand for a member,
  that is set instead (`CfgSetting.SettingNoDot`, `CfgSetting.SetOnFound`, `CfgExamples.NoDotInFront`).
- Receivers that complete buffers out of order can make `assert(dp->ttl)` fire (`NbufQueue.AssertHoldsNextTime`,
  `NbufQueue.OutOfOrderCompletionAsserts`).
- Deleting a label by the frequency 999999 drops the right one if and only if no other label is that high, or only the
  same label again (`DxList.DeleteIff`, `DxList.DeleteDropsOther`).
- A saved label without type, cut, offset and parameters loses its bandwidth, days and times (`DxFile.RoundTripIff`,
  `DxFile.BandwidthIsLost`).
- The first `bsearch` call gives a label whose half-open range has the key if and only if the key is not the frequency
  of two labels (`DxSearch.FirstCallerIff`, `DxSearch.RepetitionHappens`). The second can moreover end one label too
  low, if and only if the key lies beyond the last label but one and not before the last (`DxSearch.SecondCallerIff`,
  `DxSearch.TooLowHappens`).
- When the last accepted subframe is `MAX_TOW_DELAY` bits back or more, and bits have been discarded since, the clock
  is off. With `MAX_NAV_BITS` up to 2200 bits must have been discarded then, so that it is right if and only if the
  subframe is less than `MAX_TOW_DELAY` bits back (`NavChannel.Snapshot.GetClock`, `NavLate.LateClock`).

## Model

| member | source | states |
|---|---|---|
| JsonNumber.NumberIs | cfg/cfg.cpp:573-584 | every text made by the number grammar of RFC 8259, a minus sign, fraction and exponent included, is a number here |
| JsonNumber.NumberFrom | cfg/cfg.cpp:573-584 | and every number here is made by it |
| CfgText.CutOfCutting | cfg/cfg.cpp:490-523 | the pointers of the cut find the brace or comma before the key, the start and the end of the value; what is left and where |
| CfgSet.CutRemovesMember | cfg/cfg.cpp:490-523 | cutting member i of an object anywhere in a text (first, middle, last, only) leaves the text of the object without it, and returns the place between its neighbours |
| CfgSet.InsertAddsMember | cfg/cfg.cpp:525-566 | inserting between any two lists of members gives the text of the object with the member there: the empty, left-comma and right-comma cases |
| CfgSet.SetReplacesMember | cfg/cfg.cpp:663-667 | cut, then insert at the place returned: the text of the object with the member replaced |
| CfgDoc.PrintWithObj | cfg/cfg.cpp:609-679 | a document's text splits at the object edited, at the top level or one below, whatever the object is replaced by |
| CfgDoc.SettingReplacesValue | cfg/cfg.cpp:663-667 | setting an existing key at level 1 or 2: the text parses, to the old object with only that key's value changed, all members in order, whatever white space the cut skips |
| CfgExact.SettingWorksIffCuttable | cfg/cfg.cpp:490-523 | for a number or a string, at the top level or one below: the text after cut and insertion means the updated object, as RFC 8259 JSON, if and only if the white space around the member is what the cut skips |
| CfgExact.SettingSpoils | cfg/cfg.cpp:490-523 | otherwise, if no check fails, the text is not RFC 8259 JSON |
| CfgExact.ScalarSpoils | cfg/cfg.cpp:503-518 | with other white space a check fails, or the cut leaves part of the member: text that starts no member, or that ends inside a string |
| CfgExact.SettingFails | cfg/cfg.cpp:490-523 | a blank before the colon, and the text that setting makes of it |
| CfgRemove.RemovingWorksIff | cfg/cfg.cpp:617-641 | cutting a number or a string out alone: as RFC 8259 JSON right if and only if the white space is what the cut skips, but behind the only member of an object it may be any |
| CfgRemove.CutOutcome | cfg/cfg.cpp:490-523 | the text and the place the cut gives then; in all other cases a check fails or the text left is not RFC 8259 JSON |
| CfgCreate.InsertedMeans | cfg/cfg.cpp:525-566 | a document with a member inserted parses, to the object with it at that place |
| CfgCreate.InsertThenRemove | cfg/cfg.cpp:490-566 | inserting and then removing gives back the position, and the text if and only if the next member does not start with blanks or line feeds |
| CfgCreate.CreateWorksIff | cfg/cfg.cpp:645-661 | creating at the end of the top level is right, as RFC 8259 JSON, if and only if the text ends with its brace and the object does not just hold white space |
| CfgCreate.CreateFails | cfg/cfg.cpp:655-656 | two texts, with blanks in the object and with a line feed at the end, and what creating makes of them |
| CfgCreate.CreateFirstWorksIff | cfg/cfg.cpp:650-661 | creating as first member of an object is right, as RFC 8259 JSON, if and only if it does not just hold white space |
| CfgCreate.CreateInsideIff | cfg/cfg.cpp:650-661 | creating where the value of a level 1 key starts, whatever it is: as RFC 8259 JSON the member gets into it if and only if the value is an object that does not just hold white space |
| CfgCreate.NotInside | cfg/cfg.cpp:650-661 | for any other value the text, if it is RFC 8259 JSON, has the same members before that key, and a value there that is no object |
| CfgBuffer.TextBuffer.Realloc | cfg/cfg.cpp:1419-1438 | the buffer has the size asked for and the text it had |
| CfgBuffer.TextBuffer.MoveDown | cfg/cfg.cpp:520-522 | the overlapping copy in place: the text without the stretch between the two pointers |
| CfgBuffer.TextBuffer.Start | cfg/cfg.cpp:503-507 | the backward pointer loop is the function of the text |
| CfgBuffer.TextBuffer.End | cfg/cfg.cpp:508-514 | the forward pointer loops are the function of the text |
| CfgBuffer.TextBuffer.Cut | cfg/cfg.cpp:490-523 | _cfg_cut on the buffer is CutText on the text, the failing check included |
| CfgBuffer.TextBuffer.MoveUp | cfg/cfg.cpp:558-560 | the tail moved up from its last character on, nothing lost |
| CfgBuffer.TextBuffer.Ins | cfg/cfg.cpp:525-566 | _cfg_ins on the buffer is InsText on the text, and stays inside the buffer if it has room for the member, a comma and the NUL |
| Jsmn.Parser.ParsePrimitive | pkgs/jsmn/jsmn.cpp:38-82 | where a primitive ends in the strict reading, or that it does not; the position stays at what ends it |
| Jsmn.Parser.ParseString | pkgs/jsmn/jsmn.cpp:87-149 | where the closing quote is, the escapes checked, or that there is none |
| Jsmn.Parser.CloseBox | pkgs/jsmn/jsmn.cpp:215-236 | a closing bracket ends the last open token if that is of its kind, and values belong to the one open before it then |
| Jsmn.Parser.Parse | pkgs/jsmn/jsmn.cpp:154-312 | the loop on the token array: the tokens of the text if it takes the text and they fit, an error if it does not take it, and NOMEM only if the tokens do not fit |
| JsmnTree.TokensOfText | pkgs/jsmn/jsmn.cpp:154-312 | every RFC 8259 text of an object or array is taken, and its tokens are the tree in pre-order with positions and numbers of values |
| JsmnRead.ReadsLookup | cfg/cfg.cpp:403-458 | in a text whose tokens are like those of a document every lookup finds what it finds in the document, and its stack is deep enough |
| CfgReads.SettingReads | cfg/cfg.cpp:663-667 | whatever white space there was behind the value: the text cut and insertion make reads as the object with the value set |
| CfgReads.RemovingReads | cfg/cfg.cpp:617-641 | the same for the cut alone |
| CfgReadsIff.SettingReadsIff | cfg/cfg.cpp:490-566 | for a number or a string: what cut and insertion make reads as the updated object if and only if the white space up to the value is what the cut skips |
| CfgReadsIff.RemovingReadsIff | cfg/cfg.cpp:490-523 | the same for the cut alone |
| CfgReads.CreatingReadsFirst | cfg/cfg.cpp:650-661 | a new first member of any object, even one of white space, reads as one |
| CfgCreated.CreatingReadsIff | cfg/cfg.cpp:655-661 | a new last member reads as one if and only if the text ends with the brace |
| CfgInside.InsideReadsIff | cfg/cfg.cpp:650-661 | in front of the elements of an array the new member is found; in a number or a string it is not |
| CfgWalk.WalkFindsTree | cfg/cfg.cpp:1278-1336 | for tokens flattened from any tree the walk calls back every token at its nesting depth and every container once at its end, in order |
| CfgDepth.LevelIsNesting | cfg/cfg.cpp:1278-1336 | the level given with every token is the number of containers around it, read off the tokens' positions |
| CfgWalk.WalkFindsInside | cfg/cfg.cpp:1311-1330 | with a level 1 id only the second level is called back, from the id's key to the end of the next container |
| CfgWalk.StackIsDeepEnough | cfg/cfg.cpp:1284-1286 | the stack never grows beyond the depth of the tree |
| CfgLookup.CloseComplete | cfg/cfg.cpp:1325-1330 | the closing loop on the stack arrays is Settle on the state: levels, hit and callbacks |
| CfgLookup.Take | cfg/cfg.cpp:1296-1322 | counting down, putting a container on the stack, matching the level 1 id |
| CfgLookup.Walk | cfg/cfg.cpp:1278-1336 | for any tokens: the loop with its arrays makes the callbacks of the state machine, up to the first that says to stop, and returns its token, or says exactly when the 32 levels of the stack do not do |
| CfgLookup.HitInMembers | cfg/cfg.cpp:380-401 | with the lookup's callback the walk stops at the first member whose key is the id, and nowhere inside other values |
| CfgLookup.HitInTop | cfg/cfg.cpp:1311-1330 | what a two-level walk stops at, for every document |
| CfgLookup.ShownKeys | cfg/cfg.cpp:387-397 | the keys are in the text where their tokens say |
| CfgFind.WalkForKey | cfg/cfg.cpp:448-454 | a level 1 walk finds exactly the first top-level key that is the id, for every tree of depth under 32 |
| CfgFind.LookupJson | cfg/cfg.cpp:403-458 | for any tokens: the lookup of a name with or without a dot, its options and its three kinds of result |
| CfgFind.FindKeyIff | cfg/cfg.cpp:448-454 | a level 1 id is found if and only if it is a top-level key |
| CfgFind.TwoLevelIff | cfg/cfg.cpp:403-446 | with unique keys id1.id2 is found if and only if id2 is a key of the object id1, unless id1's value is no container and the next container has the key |
| CfgFind.FoundElsewhere | cfg/cfg.cpp:1311-1330 | a document in which a.x is found though a is a number |
| CfgPlaces.TokenOfMember | cfg/cfg.cpp:490-509 | the tokens of a member are where the cut expects its key and its value |
| CfgPlaces.LookupOfSpot | cfg/cfg.cpp:609-615 | with unique keys, for every name: the lookup returns the token of the member in the first container from id1 on, or says which part is there |
| CfgPlaces.SpotIsNamedIff | cfg/cfg.cpp:403-446 | that is the member the name means if and only if the name is not misled |
| CfgParam.Config.Remove | cfg/cfg.cpp:617-641 | CFG_REMOVE from a name, on any text that jsmn takes: nothing there, a panic, or the text cut and its place, and a panic exactly if jsmn does not take that |
| CfgParam.Config.Insert | cfg/cfg.cpp:645-661 | making room and inserting: never outside the buffer, whatever its size was |
| CfgParam.Config.Change | cfg/cfg.cpp:641-671 | CFG_CHANGE at a place: looked up again, and cut again if it is still there |
| CfgParam.Config.ParseText | cfg/cfg.cpp:1348-1415 | parsing with four times the tokens as long as they do not fit: it ends, and gives the tokens of the text or a panic |
| CfgParam.Config.Set | cfg/cfg.cpp:609-679 | _cfg_set_int and _cfg_set_string with CFG_SET from a name, on any text that jsmn takes: the text made by lookups, cut and insertion, and a panic exactly if jsmn does not take it |
| CfgParam.Config.PlaceForNew | cfg/cfg.cpp:650-658 | where a parameter that is not there goes: behind the first character of the value of its first part, or in front of the last character of the text |
| CfgSetting.SettingThere | cfg/cfg.cpp:609-679 | setting a parameter of a document, from its name on: None for a value of another kind; the text made, which reads as the object with the value set, if the white space lets the cut find the value; and no such text if not |
| CfgSetting.RemovingThere | cfg/cfg.cpp:617-641 | removing it: right if and only if, in the same way |
| CfgKinds.SettingGivesIff | cfg/cfg.cpp:609-667 | white space that lets the cut find the value: setting gives a text if and only if the value is a number or null (for a number), or a string or null (for a string); the text reads as the object with it |
| CfgKinds.SettingOtherKinds | cfg/cfg.cpp:1002-1031 | any other value makes the code panic, whatever the white space |
| CfgKinds.NotBoolean | cfg/cfg.cpp:622-641 | of the numbers and words RFC 8259 has, a number is set in place of any but true and false |
| CfgKinds.RemovingGivesIff | cfg/cfg.cpp:617-641 | removing: the same kinds, and right if and only if there is no white space before the colon, no carriage return before the key, and just blanks and tabs after the colon |
| CfgKinds.CuttableIff | cfg/cfg.cpp:504-514 | which white space the cut deals with, by its characters |
| CfgKinds.NameSplits | cfg/cfg.cpp:411-424 | names without a dot, with one and with more: a key at the top level, one in an object, or none |
| CfgKinds.SettingKinds | cfg/cfg.cpp:609-667 | {"a":-10}, {"a":null} and {"a":true}, set to a number and to a string |
| CfgSetting.SetOnFound | cfg/cfg.cpp:663-667 | what is found, with or without CFG_NO_DOT, is removed and put back by the name taken apart |
| CfgSetting.SettingNoDot | cfg/cfg.cpp:609-667 | a dotted key found with CFG_NO_DOT whose parts stand for nothing: the text made has the new member in front of the old text |
| CfgSetting.SettingNew | cfg/cfg.cpp:643-661 | the text made for a name that stands for nothing, in every document |
| CfgReadBack.SettingReadsBack | cfg/cfg.cpp:663-667 | a parameter that was there is found with its new value in every text that reads as the setting, even if the name is misled |
| CfgReadBack.CreatedReadsBack | cfg/cfg.cpp:643-661 | for every document and name, on the tokens of jsmn: the lookup ends at the new value if and only if its first part stands for an object or an array, or its name has one part and the text ends with the brace |
| CfgReadBack.NewTextReads | cfg/cfg.cpp:643-679 | creating does not panic unless the first part stands for a number or a string, and which object the text reads as |
| CfgReadBack.NewTextIsDoc | cfg/cfg.cpp:643-661 | the text of the object with the member if there is room for it |
| CfgExamples.BlankBeforeColon | cfg/cfg.cpp:503-518 | a blank before a colon: the text the cut leaves, which jsmn does not take, so that the code panics |
| CfgExamples.TabBehind | cfg/cfg.cpp:490-566 | a tab behind a value: a comma too many, and the value set |
| CfgExamples.SpacesInRoot | cfg/cfg.cpp:645-661 | an object that holds a blank: a comma in front of the new member, which is found |
| CfgExamples.SpacesInObject | cfg/cfg.cpp:650-661 | the same one level below, the comma behind it |
| CfgExamples.MisledSet | cfg/cfg.cpp:609-679 | a document in which setting a.x rewrites b.x |
| CfgExamples.NoDotInFront | cfg/cfg.cpp:609-667 | such a document, and the text made |
| CfgExamples.CreatedElsewhere | cfg/cfg.cpp:650-661 | a document in which id1 is a number: the new member lands beside it, where the name does not find it |
| CfgExamples.DottedKey | cfg/cfg.cpp:643-656 | a document without id1: the whole name becomes a key the name does not find |
| NbufQueue.EveryRunIsFifo | net/nbuf.cpp:160-224 | over every run of allocate, dequeue, complete, clean up: each accepted message comes out once, in order, unchanged, dequeued buffers a prefix from the oldest; cnt and its bound |
| NbufQueue.DeliveredPlusWaiting | net/nbuf.cpp:258-305 | what was accepted is what came out followed by what is waiting |
| NbufQueue.QueuedIsCnt | net/nbuf.cpp:287-305 | what nbuf_queued counts is cnt, and at most 65 |
| NbufQueue.RefusedUntilLow | net/nbuf.cpp:203-219 | after an overflow every allocation is refused while cnt is not below the low-water mark |
| NbufQueue.AcceptedBelowLow | net/nbuf.cpp:203-219 | below it the next one is accepted again |
| NbufQueue.RefusedIff | net/nbuf.cpp:203-219 | a message is refused if and only if cnt is over 64, or 32 or more in overflow; any other is kept with its length modulo 65536 |
| NbufQueue.CleanupStartsAgain | net/nbuf.cpp:308-337 | a clean-up leaves a queue like a new one |
| NbufQueue.DonePrefixIsReclaimed | net/nbuf.cpp:187-199 | ttl 0, which is what every descriptor has: an allocation takes off the longest run of done buffers from the oldest end, and leaves the others as they were |
| NbufQueue.ReclaimedIff | net/nbuf.cpp:187-199 | buffer by buffer: reclaimed if and only if it and all older ones are done, and the oldest one left is not |
| NbufQueue.ReclaimedOnNextEnqueue | net/nbuf.cpp:160-224 | over every run with completions in dequeue order a completed buffer goes back to the pool on the next allocation, and not before |
| NbufQueue.OneBufferAtMost | net/nbuf.cpp:160-224 | over every run in which all buffers are completed before each allocation a connection holds one at most |
| NbufQueue.CollectsExactlyExpired | net/nbuf.cpp:171-199 | the collecting loop takes exactly the buffers whose countdown ends |
| NbufQueue.InOrderRunsNeverAssert | net/nbuf.cpp:171-185 | with completions in dequeue order assert(dp->ttl) never fires and the countdowns do not decrease from the head |
| NbufQueue.ReclaimedOnTtlThEnqueue | net/nbuf.cpp:171-199 | a completed buffer is reclaimed on exactly the ttl-th enqueue call |
| NbufQueue.CompletionStartsCountdown | net/nbuf.cpp:171-199 | where the countdown starts |
| NbufQueue.AssertHoldsNextTime | net/nbuf.cpp:171-199 | completions in any order: the exact condition under which the assertion holds at the next call |
| NbufQueue.OutOfOrderCompletionAsserts | net/nbuf.cpp:171-199 | a run from the start, two buffers completed the other way round, after which it fires at every allocation |
| NbufList.Ndesc.Collect | net/nbuf.cpp:187-199 | unlinking from the oldest end and freeing, on the pointers |
| NbufList.Ndesc.Enqueue | net/nbuf.cpp:160-224 | nbuf_enqueue on the linked list is the value's: the list stays well linked, the slots taken off are free |
| NbufList.Ndesc.Next | net/nbuf.cpp:258-285 | nbuf_dequeue returns the oldest buffer not dequeued, with its message |
| NbufList.Ndesc.Queued | net/nbuf.cpp:287-305 | nbuf_queued counts the buffers waiting |
| NbufList.Ndesc.Cleanup | net/nbuf.cpp:308-337 | nbuf_cleanup frees every buffer and leaves the queue as at the start |
| NbufPool.Net.constructor | net/nbuf.cpp:65-99 | nbuf_init and ndesc_init: all slots free, all lists empty, every invariant of the pool and the queues |
| NbufPool.Net.FindFree | net/nbuf.cpp:106-124 | the first free slot, if there is one |
| NbufPool.Net.AllocQ | net/nbuf.cpp:226-256 | nbuf_allocq over the shared pool: the queue's step for the one descriptor, nothing else touched, a refused slot back in the pool |
| NbufPool.Net.Dequeue | net/nbuf.cpp:258-285 | nbuf_dequeue over the shared pool |
| NbufPool.Net.Cleanup | net/nbuf.cpp:308-337 | nbuf_cleanup over the shared pool |
| NbufPool.Net.PoolIsConserved | net/nbuf.cpp:106-141 | free slots plus linked buffers is 1024, from the start on and after every operation |
| NbufPool.Net.PanicsIffAllLinked | net/nbuf.cpp:106-124 | the next allocation runs out of slots if and only if 1024 buffers are linked |
| NbufPool.Net.OneEachIsEnough | net/nbuf.cpp:106-124 | with one buffer at most in each of fewer than 1024 connections there is always a slot |
| NavParity.WordErrorDetected | gps/channel.cpp:125-135 | an odd number of flipped bits, or exactly two, in a good word is detected |
| NavParity.WordOkOfFlip | gps/channel.cpp:125-135 | a word and its predecessor's last bits inverted pass or fail as before |
| L1Word.WordOkIsEquations | gps/channel.cpp:125-135 | the six equations of the source are the parity code |
| L1Word.L1Parity | gps/channel.cpp:125-135 | L1_parity in place: the verdict, the decoded bits, the parity bits kept for the next word, and the rest of the buffer |
| NavSubframe.PhaseAmbiguityResolved | gps/channel.cpp:784-820 | inverting all bits of any 300 with a recognised preamble changes neither verdict nor bit count nor any decoded bit |
| NavSubframe.CorruptionDetected | gps/channel.cpp:784-820 | corruption of an accepted subframe whose first corrupted word has an odd number of flips, or two, is rejected |
| NavSubframe.AcceptedIsTransmitted | gps/channel.cpp:784-820 | an accepted subframe carries words as a satellite encodes them, and the decoded data are what was encoded |
| NavChannel.FirstBadWord | gps/channel.cpp:805-817 | the bits dropped after a parity error end with the first bad word |
| NavChannel.ProbationIs | gps/channel.cpp:805-824 | a channel is off probation if and only if the last two subframes that had a preamble were accepted |
| NavChannel.CheckWords | gps/channel.cpp:805-817 | the ten chained words: verdict and bit count, and a failure leaves all bits after the words altered |
| NavChannel.Channel.ParityCheck | gps/channel.cpp:784-828 | ParityCheck: verdict, bits to drop, probation, alert, time of week and the counter since it |
| NavChannel.Channel.Restart | gps/channel.cpp:398-406 | a new start: nothing held, nothing learned, the bits not yet read are gone |
| NavChannel.Channel.Drain | gps/channel.cpp:430-450 | the copying loops: whole words from the circular buffer, the buffer never overflows, and it is the last bits received |
| NavChannel.Channel.OneSubframe | gps/channel.cpp:452-506 | one turn of the subframe loop: exactly the bits altered are dropped, what was learned is what the bits say |
| NavChannel.Channel.Subframes | gps/channel.cpp:452-506 | the loop ends, with the bits left and what was learned a function of the bits held |
| NavChannel.InPieces | gps/channel.cpp:430-506 | that function does not depend on the pieces the bits come in |
| NavChannel.Channel.Tracking | gps/channel.cpp:412-506 | for every polling schedule, bits held and state learned are those of all bits received at once |
| NavChannel.Channel.GetSnapshot | gps/channel.cpp:832-858 | the bits held, fewer than a subframe and a buffer, and the bits since the last accepted subframe, both counted with those still in the FPGA |
| NavChannel.Snapshot.LoadAtomic | gps/solve.cpp:60-82 | the snapshot of an enabled channel and of the clock words |
| NavChannel.Snapshot.GetClock | gps/solve.cpp:220-244 | the clock without its part of a bit, times 50, is start plus bits received, modulo a week, if and only if no bits were discarded or fewer than MAX_TOW_DELAY have passed; fewer alone, if fewer than that many bits are held |
| NavChannel.ClockSteps | gps/solve.cpp:230-241 | a bit more is 20 ms more, a millisecond 1 ms, and how milliseconds, chips and phases carry into each other |
| NavLate.SentIsAccepted | gps/channel.cpp:731-830 | any ten data words with the preamble, encoded one after the other, are accepted, and the words read back |
| NavLate.HandOver | gps/ephemeris.cpp:228-240 | time, alert flag and number are the bits 1-17, 18 and 20-22 of the second word sent |
| NavLate.ZerosTeachNothing | gps/channel.cpp:453-470 | bits without a preamble go one by one, and what was learned stays |
| NavLate.LateClock | gps/solve.cpp:220-244 | a run of the channel, polled every 16 bits: two accepted subframes, then MAX_TOW_DELAY or more bits without a preamble; the clock shows the 299 bits held instead of all |
| SatAlloc.AlwaysExclusive | gps/search.cpp:551-601 | over every interleaving: a satellite is marked busy exactly if one channel is busy with it or being started on it, and it is the only one |
| SatAlloc.AlwaysReserved | gps/channel.cpp:891-920 | with QZSS priority on throughout, others never have more than gps_chans - min(2, n_QZSS) channels, if that leaves any |
| SatAlloc.FromTheStart | gps/search.cpp:551-601 | both, from the beginning |
| SatAlloc.PriorityOffBreaksIt | gps/channel.cpp:896-907 | the bound needs the priority to be on throughout |
| SatAlloc.ChoiceIff | gps/channel.cpp:896-907 | a satellite is given no channel if and only if all are busy, or priority is on, it is not of QZSS and no more are free than min(2, n_QZSS - those busy with it); any other gets the first free one |
| SatAlloc.HeardIsTracked | gps/search.cpp:551-601 | a satellite heard is tracked on the first free channel, unless it is refused one |
| SatAlloc.BoundIsReached | gps/channel.cpp:891-920 | in any setup a run with priority on in which others get as many channels as the bound lets them have |
| SatAlloc.Receiver.ChanReset | gps/channel.cpp:891-920 | the counting and choosing loops: -1 on exactly that condition, the first free channel otherwise |
| SatAlloc.Receiver.Search | gps/search.cpp:551-575 | a satellite the search comes to: a step of the protocol |
| SatAlloc.Receiver.Heard | gps/search.cpp:589-597 | the end of the correlation: a step |
| SatAlloc.Receiver.Start | gps/channel.cpp:318-322 | the bit in BusyFlags: a step |
| SatAlloc.Receiver.SignalLost | gps/channel.cpp:554-565 | the end of tracking: a step |
| DxSearch.Bsearch | rx/rx_cmd.cpp:130-167 | binary search with the range comparator, any middle, any order of the list: never NULL unless the list is empty, and what it returns is accepted by the comparator |
| DxSearch.AdminSearch | rx/rx_cmd.cpp:1245-1254 | the first caller, on a sorted list, whatever the middle: the label found covers the key, or is one of several equal to it if the key is there twice |
| DxSearch.MarkerSearch | rx/rx_cmd.cpp:1436-1443 | the second caller: the same, but for a key beyond the last label but one, where it may be that |
| DxSearch.FirstCallerIff | rx/rx_cmd.cpp:1245-1254 | LAST+1 as end pointer, sorted list: everything the comparator accepts covers the key if and only if the key is not there twice |
| DxSearch.SecondCallerIff | rx/rx_cmd.cpp:1436-1443 | LAST as end pointer: the same if and only if moreover the key is not beyond the last label but one without being before the last |
| DxSearch.RepetitionHappens | rx/rx_cmd.cpp:1245-1254 | a list with a repeated frequency, and what is accepted there |
| DxSearch.FoundCovers | rx/rx_cmd.cpp:1245-1254 | what is accepted by the first caller: f[i] <= key < f[i+1], clamped at the ends, but for repeated frequencies, and everything before and after is on the right side |
| DxSearch.FoundIsUnique | rx/rx_cmd.cpp:1245-1254 | without repetitions it is the only such element |
| DxSearch.OneTooLow | rx/rx_cmd.cpp:1436-1443 | LAST as end pointer: what more is accepted, exactly |
| DxSearch.TooLowHappens | rx/rx_cmd.cpp:1436-1443 | a list on which the second caller ends too low |
| DxList.DeleteIff | rx/rx_cmd.cpp:1003-1010 | every way to sort drops the right entry if and only if no other is as high as the forced frequency |
| DxList.DeleteDropsOther | rx/rx_cmd.cpp:1003-1010 | a label at the forced frequency, dropped in place of the one to be deleted |
| DxList.EditIsMade | rx/rx_cmd.cpp:1001-1038 | which edits are accepted, and what becomes of the label: what was sent, with 2400 for the end if a label is modified and both times are 0 |
| DxList.LabelList.constructor | dx/dx.cpp:558-566 | reading grows the array so that there is a hidden slot |
| DxList.LabelList.Grow | dx/dx.cpp:563-566 | a chunk more, the entries kept |
| DxList.LabelList.PrepList | dx/dx.cpp:310-321 | sorted if asked for, numbered by position |
| DxList.LabelList.Update | rx/rx_cmd.cpp:996-1092 | add, modify, delete: the list sorted, idx the position, a spare slot, the contents with exactly the change asked for, or nothing changed |
| DxList.LabelList.UpdateAll | rx/rx_cmd.cpp:996-1092 | the same over any sequence of edits with frequencies below 999999 |
| DxFile.Save | dx/dx.cpp:125-203 | what is written of a label, the guard included |
| DxFile.OptionsSaved | dx/dx.cpp:140-203 | the options written are all that say something, in their order, if the label has a type, cut, offset or parameters, and none if not |
| DxFile.Reload | dx/dx.cpp:358-490 | the option loop, the weekdays, the times, the order error |
| DxFile.FieldsWrap | dx/dx.cpp:453-468 | times are read into 16 bits, types into five, weekdays into seven |
| DxFile.BitOrIs | dx/dx.cpp:486 | the bits of flags and weekdays are joined one by one |
| DxFile.RoundTripIff | dx/dx.cpp:125-203 | a label comes back in its normal form if and only if it has a type, cut, offset or parameters, or nothing else to lose |
| DxFile.BandwidthIsLost | dx/dx.cpp:125-203 | a label with just a bandwidth |
| DxFile.SaveAndReload | dx/dx.cpp:125-203 | a sorted list comes back label by label |
| Decimate.CoefIsHalfBand | gps/search.cpp:98-136 | the table has a half-band filter: odd taps zero but the one in the middle, symmetric |
| Decimate.EvenAndMiddle | gps/search.cpp:146-158 | the even taps and the one in the middle are the whole filter |
| Decimate.DecimatedIsDots | gps/search.cpp:146-161 | real and imaginary part of an output are the sums of products of the taps with the real and with the imaginary parts |
| Decimate.ImpulseResponse | gps/search.cpp:146-161 | one sample among zeros brings out every other tap, times its two parts |
| Decimate.FilterIsLinear | gps/search.cpp:146-161 | signals added are filtered one by one |
| Decimate.DecimateBy2 | gps/search.cpp:140-166 | input and output in one array: every output is the full filter on the signal that goes on with zeros |
| Decimate.DecimateAll | gps/search.cpp:269-276 | the repeated calls in place |
| Decimate.TwiceIsTwoStage | gps/search.cpp:269-276 | two calls are two plain filters on the signal that goes on with zeros, and together one filter whose taps are those of the filter after itself, two places apart |
| IpBlacklist.MaskIsRange | net/ip_blacklist.cpp:94-95 | the mask test is membership in [base, base + 2^(32-cidr)) |
| IpBlacklist.EntryStandsFor | net/ip_blacklist.cpp:86-95 | an entry without a length matches its own address only, one with a length all that share so many bits |
| IpBlacklist.TakenIff | net/ip_blacklist.cpp:86-106 | which entries are taken, in their own terms |
| IpBlacklist.LatestDecides | net/ip_blacklist.cpp:215-233 | after any entries the verdict is that of the most recent one taken whose range the address is in |
| IpBlacklist.KiwiIsFree | net/ip_blacklist.cpp:97-100 | kiwisdr.com is never blocked |
| IpBlacklist.Net.Add | net/ip_blacklist.cpp:77-122 | an entry goes in front, unless it cannot be read, would contain kiwisdr.com or does not fit |
| IpBlacklist.Net.Check | net/ip_blacklist.cpp:215-233 | the scan: the verdict, and the counters of the one rule that decided |

## Left out

- Jsmn.Parser.Parse: texts have no NUL; counting without a token array, the line number, yielding and the parent links are out.
- `_cfg_set_float`, `_cfg_set_bool`, `_cfg_set_object`: they differ in the text of the value, for which `CfgDoc.SettingReplacesValue` holds as it stands.
- Configuration files: reading, saving, comment lines, the panics for required parameters that are missing.
- CfgParam.Config.Set: fails where the code would leave the text or the walk's stack, as it does for a panic; `CFG_SAVE` is out.
- CfgParam.Config.ParseText: does not remove comment lines, and there is always room for more tokens.
- CfgSetting.SettingThere: keys are unique and the second part of a name has no white space; where the white space does not let the cut find the value and what it leaves has the name again, nothing is said of the text made.
- CfgReadBack.NewTextReads: says nothing about a panic when the first part stands for a number or a string.
- CfgBuffer.TextBuffer.Cut: asks for something other than white space before the key, and for the value to be in the text, as C without bounds does.
- CfgExact.SettingWorksIffCuttable: is about numbers, names and strings, which are what `_cfg_set_int` and `_cfg_set_string` replace; for arrays and objects only the direction that setting works is proved.
- NbufQueue.InOrderRunsNeverAssert: takes a nonzero ttl that does not change; for ttl 0, where nothing is counted, see `NbufQueue.ReclaimedOnNextEnqueue`.
- Locks, `NextTask` and memory allocation: operations are atomic, allocation succeeds, interleaving is in `SatAlloc` only.
- Galileo E1B, Viterbi decoding, acquisition, power, watchdogs, the abort flag and `gps_debug` drops in `Tracking`.
- NavChannel.Snapshot.GetClock: is over the reals, `MAX_NAV_BITS` is any multiple of 16 that divides 65536, and `&(MAX_NAV_BITS-1)` is the remainder.
- NavChannel.Channel.Tracking: the FPGA is a contract, that its upload shows every bit not yet read; overflow of its buffer is out.
- SatAlloc.Receiver.ChanReset: E1B code download and SPI writes are out; only the search may run between its steps and the channels' ends.
- DxList.LabelList.Qsort: stands for `qsort`; of its result only that it is an ordered permutation is used.
- DxList.LabelList.Update: text fields are values, the file written after an edit and messages to users are out.
- DxFile.Save: identity, notes and the encoding of strings are out, modes are numbers instead of names, frequencies are multiples of 0.01.
- DxFile.Reload: reads into a slot that is all zero; the legacy flags of `dx_flag`, the old time stamp and tag, slots left by a line with an error, and lines too long or with too many tokens are out.
- DxSearch.Bsearch: carrier plus offset is a real number per label.
- Decimate.DecimateBy2: over the reals, so the order of summation and rounding are out.
- IpBlacklist.Net.Add: takes the entry as read by `sscanf` and `inet4_d2h`; a shift of 31 bits is taken to wrap, and iptables, ipset and local addresses are out.
- Setting up the firewall in `ip_blacklist_init`, DNS, downloads, authentication, the waterfall, Kepler and least-squares solvers, and everything on hardware.
