# Delivery challans, bills of quantity and their printers, verified

This project models the core logic of a procurement and delivery application written in Go over PocketBase,
and proves properties of that model for every input and every run.

**Delivery challans (DCs).** A direct shipment creates a shipment group with one transit DC, which carries the
prices and the serials, and one official DC per destination. A transfer DC carries goods to a hub together with a
plan of quantities per destination. Once issued, it is split step by step into child shipment groups, and every
child group is issued or undone. The state is eight record tables and the number counters: `Records.Store` is that state as
one value and `Records.Database` is the object that the services update in place. Every service call is a
method over `Database`, with the loops of the Go code, proved equal to a function on `Store`
(`CreationSpec`, `SplitSpec`, `IssueSpec`, `DeletionSpec`). `Runs.Step` and `Runs.Run` put the calls together
in any order, rejected calls included. `Invariants.Inv` is kept by every call; what it implies is proved in `Partition`,
`RoundTrip` and `Histories`; `Acceptance` and `Rejections` say which calls are accepted and with which error the others fail,
`CreatedRows` what a creation leaves in the tables row by row, and `Theorems` restates the main results for runs from the empty database.

**Document numbers.** One counter per project, type and financial year, and a template that is filled by
successive replacements; the printed number reads back.

**Bill of quantities.** A three-level sum that is cached on every level, recalculated step by step by the
patch and delete handlers and as a whole by the update handler, against the plain fold from the leaves.

**Printers and arithmetic.** Amounts in Indian words, Indian digit grouping, column names, purchase-order totals
with round-off.

**Address import.** Two validations and a chunked commit in which every chunk is stored whole or not at all.

## How to read the state

- A `Table` is a map from ids to rows with the next free id; new rows get increasing ids. Id 0 is the blank reference.
- A *block* of a transfer DC is the set of destinations whose `split_group` names one group. A destination is
  *orphaned* when it is flagged as split and its group is gone. `NoneDangling` says that no destination is orphaned, and
  a run is `Orderly` when no call in it is an accepted direct deletion of a child group; a run ends without
  orphans exactly when it is orderly (`Histories.OrderlyExactly`).
- `Runs.Submitted` says what the wizards guarantee of a call: at least one destination and none blank
  (`handlers/dc_wizard.go:372-376`), one entry per item with non-negative quantities and the total added up, trimmed
  serials, and no destination selected twice for one split. Ids, projects, numbers, the order of calls and everything
  else are arbitrary.

## Where the code and its comments differ

The model follows the code.

- Deleting a draft child group directly (`handlers/dc_delete.go:56-96`, `handlers/shipment_group.go:144-159`) leaves its
  destinations flagged and `num_split` as it is. `Histories.PairRun` is a concrete run that ends there, and
  `Histories.OrphanedForEver` shows that such a destination can never be split again.
- `split_number` is `num_split + 1` at the time of the split (`services/dc_split.go:333-337`), and an undo lowers
  `num_split`, so the numbers repeat once a split is undone that was not the latest (`SplitNumbers.RepeatedRun`).
- `num_split` counts splits and `num_destinations` counts destinations (`services/dc_split.go:361-367`), so a transfer DC
  whose destinations are all split keeps the status "splitting" as soon as one group holds two of them
  (`Partition.LargeBlockMeansSplitting`).
- The branch "serial already used" of the serial check never fires: a serial that occurs on the DC itself is left out of
  the serials it is compared with (`services/dc_issue.go:151-155`), so serials used elsewhere are accepted
  (`SerialRules.SerialCheckExactly`, and `ChildSerials.SerialReused` for a run in which parent and child share one).
- `HandlePatchSubItem` says that it updates fields, but the edited record is never saved; only the two recalculations
  happen (`handlers/items.go:331-338`). `Boq.Book.PatchSub` takes the edit and leaves every stored quantity and price.
- `HandleAddSubItem`, `HandleAddSubSubItem` and `HandlePatchMainItem` do not roll their change up. The lemmas whose
  names end in `Exactly` in `BoqCaches` say for which items the caches stay right nevertheless, and those that start
  with `Stale` give a book that each of the three leaves stale.
- `calcRoundOff` rounds halves away from zero, for negative amounts as well; its comment speaks of halves rounding up
  (`PoTotals.RoundsHalvesUpExactly`).
- `CreateTransferDC` is not one transaction: without destinations it fails after the DC, its lines and its serials have
  been saved (`CreationFacts.WithoutPlanUnlinked`).

## Model

| member | source | states |
|---|---|---|
| Theorems.ChildrenPartition | services/dc_split.go:332-359 | after every run without an accepted direct deletion of a child group, the child groups of a transfer DC partition its split destinations into non-empty, disjoint blocks, and `num_split` is the number of child groups and of split records |
| Theorems.PartitionExactly | handlers/dc_delete.go:56-96 | after a run `num_split` counts the child groups of every transfer DC iff no call in the run was an accepted direct deletion of a child group |
| Theorems.StatusTellsProgress | services/dc_split.go:361-367 | after every run the status of a non-draft transfer DC is a function of `num_split` and `num_destinations`; it is "issued" iff no destination is split, and "split" iff all are split and no two share a group; `num_split` lies between the live split records and the destinations |
| Theorems.AmountsAreConserved | services/dc_split.go:95-121 | after every run quantity, taxable, tax and total of a parent line are what its child transit DCs carry plus the same linear amounts for the unsplit and for the orphaned destinations |
| Theorems.GroupsBalance | services/dc_creation.go:156-282 | after every run, and for every group and item, the transit DC's quantity is the sum of the official DCs' quantities |
| Theorems.OnceIssued | services/dc_split.go:397-404 | once a child group is issued it stays issued, its destinations stay split in it, and the parent never leaves "splitting" and "split", whatever calls follow |
| Theorems.ReachedInv | services/dc_split.go:35-464 | every run of well-formed calls from the empty database reaches a state with the invariant |
| Runs.StepKeepsInv | services/dc_issue.go:96-128 | every call, accepted or rejected, and direct deletion included, keeps the invariant |
| Runs.RunKeepsInv | services/dc_split.go:35-464 | the invariant holds after any sequence of calls |
| Runs.SplitKeepsInv | services/dc_split.go:35-370 | an accepted split keeps every link, the progress count, the balance of groups, the amounts and the number bounds |
| Runs.UndoKeepsInv | services/dc_split.go:374-464 | an accepted undo keeps all of them |
| Runs.RemoveKeepsInv | handlers/dc_delete.go:56-96 | removing any group keeps all of them although flags and `num_split` stay |
| Partition.BlocksPartition | services/dc_split.go:345-359 | in a sound state without orphans the blocks are non-empty, disjoint, cover the split destinations, and each belongs to one split record that names the group back |
| Partition.NumSplitCountsChildren | services/dc_split.go:356-359 | `num_split` is the number of live child groups exactly when no destination is orphaned |
| Partition.NumSplitBounds | services/dc_split.go:361-367 | `num_split` is at least the number of live split records and at most `num_destinations`, in every sound state |
| Partition.StatusExactly | services/dc_split.go:442-461 | each status of a non-draft transfer DC holds iff the counts say so, and iff the sets of split and unsplit destinations say so |
| Partition.LargeBlockMeansSplitting | services/dc_split.go:361-367 | a child group with two or more destinations keeps its parent at "splitting" |
| Partition.IssuedWithinNumSplit | services/dc_split.go:442-448 | there are never more issued child groups than `num_split` |
| Partition.Conservation | services/dc_split.go:211-226 | a parent line's amounts split three ways: carried by live child groups, still unsplit, orphaned |
| Partition.ChildrenAddUp | services/dc_creation.go:346-366 | when everything is split and nothing orphaned the child totals add up to the parent's amounts |
| Partition.GroupAndMembersAgree | services/dc_issue.go:46-60 | a group has members, is draft iff all are draft, and issued iff all are issued |
| Partition.ImageSize | services/dc_split.go:361-367 | pigeonhole: an image is as large as its set iff the function is injective on it |
| RoundTrip.UndoAfterSplit | services/dc_split.go:374-464 | undoing a split right after creating it is accepted and gives back all rows of all eight tables; only the counters and the next free ids have moved |
| RoundTrip.UndosCommute | services/dc_split.go:374-464 | two different draft splits can be undone in either order, with equal results |
| RoundTrip.MarkThenUnmark | services/dc_split.go:345-354 | flagging destinations for a new group and then resetting that group restores the destination table |
| Histories.RemoveLeavesNoneDangling | handlers/dc_delete.go:86-87 | removing a group leaves no destination orphaned iff the group belongs to no transfer DC |
| Histories.StepLeavesNoneDangling | handlers/shipment_group.go:144-159 | from a state without orphans a call of any kind, accepted or rejected, orphans a destination iff it is an accepted direct deletion of a child group, which can be told before the call |
| Histories.OrderlyExactly | services/dc_split.go:405-415 | a run leaves no orphan iff none of its calls is an accepted direct deletion of a child group |
| Histories.PairRun | handlers/dc_delete.go:56-96 | a concrete run that splits both destinations into one group and deletes it: status "splitting" with nothing left to split, then `num_split` is 1 with no child group and both destinations orphaned |
| Histories.OrphanedForEver | services/dc_split.go:63-73 | an orphaned destination stays orphaned after any calls, and every split that selects it is rejected |
| Histories.SettledForEver | services/dc_split.go:397-415 | a destination that is split into an issued or vanished group keeps its row for ever, and its transfer DC stays "splitting" or "split" |
| Histories.IssuedChildForEver | handlers/dc_delete.go:62-64 | the same for all destinations of an issued child group, from any sound state |
| Histories.NumbersNeverReused | services/numbering.go:104-134 | two DCs created anywhere in one run, deleted or not, have different numbers |
| Histories.NumbersGapless | services/numbering.go:87-134 | every number from the configured start to the last one handed out was given to some DC of the run |
| Histories.PrintedNumbersNeverRepeat | services/numbering.go:60-141 | with a prefix and separator without braces and any template in which type, year and number occur, no two DCs of a project in one run print the same number |
| Histories.AnyMemberIssuesTheGroup | services/dc_issue.go:108-111 | issuing any member DC does what issuing its group does: if accepted, exactly the members become issued and nothing else about any DC changes |
| CreationService.CreateDirectShipment | services/dc_creation.go:77-286 | an empty destination list is refused and changes nothing; otherwise the new state is the old one plus one group with its DCs, as `CreatedRows.DirectHolds` says row by row, with fresh ids and numbers |
| CreationService.CreateTransferDC | services/dc_creation.go:289-475 | the new state is the old one plus one transfer DC, as `CreatedRows.TransferHolds` says row by row; without destinations the call fails and leaves the DC with its lines and serials only |
| CreationFacts.WithoutPlanUnlinked | services/dc_creation.go:411-415 | what a failed creation leaves is a transfer DC without metadata, which breaks the links of any sound state |
| CreatedRows.DirectHolds | services/dc_creation.go:122-282 | the transit DC has the first destination as ship-to, a transit number of the date's year, one line per item with a total, priced rate times quantity with its tax, and that item's serials; the destinations that are filled in and receive something get, in order, an official DC with their own ship-to, an official number and one unpriced line per quantity; no other rows are on these DCs |
| CreatedRows.TransferHolds | services/dc_creation.go:309-456 | the transfer DC has the first destination as ship-to and its own kind of number; lines and serials as for a shipment; each filled-in destination has, in order, an unsplit row with its ship-to and one plan row per quantity of its column |
| CreatedRows.WithoutPlanHolds | services/dc_creation.go:309-415 | what a failed creation has left: the DC with a blank ship-to, its lines and its serials, and no metadata, destination or plan row |
| CreatedRows.SplitHolds | services/dc_split.go:136-324 | the transit DC of a child group has the ship-to of the first selected destination, project and date of the parent, a transit number, and one line per parent line with a positive planned total, at that line's rate and tax, with the allotted serials; the i-th official DC has the ship-to of the i-th selected destination, an official number, and one unpriced line per quantity planned for it |
| CreationService.SavePricedItems | services/dc_creation.go:156-190 | one priced line per item with a non-zero total, in order, each with its serials |
| CreationService.SaveOfficials | services/dc_creation.go:217-283 | official DCs, lines and numbers exactly for the non-blank destinations with a positive quantity |
| CreationService.SaveDestinations | services/dc_creation.go:428-456 | destination and plan rows exactly for the non-blank destinations |
| CreationService.ReceivesSomething | services/dc_creation.go:222-232 | true iff some item has a positive quantity for the destination |
| CreationBalance.NewTransferKeepsAccounts | services/dc_creation.go:346-456 | a new transfer DC's lines carry exactly what is planned for its destinations, and no other total moves |
| CreationBalance.DirectKeepsAccounts | services/dc_creation.go:156-282 | a new direct shipment balances, and no other total moves |
| SplitBalance.SplitKeepsAccounts | services/dc_split.go:211-323 | a new child group balances and carries its destinations' share of every parent line, and no other total moves |
| FormParsing.ParseSerials | services/dc_creation.go:546-558 | the trimmed non-empty entries in order, whichever of newline, carriage return with newline, or comma separates them |
| FormParsing.ParsesWhatIsJoined | services/dc_creation.go:546-558 | trimmed, non-empty serials without separators, joined by any of the three separators, parse back to themselves |
| FormParsing.ParseShipmentItems | services/dc_creation.go:478-530 | one entry per distinct item key in order of first occurrence; source, rate, tax, each quantity and the serials are read from the form fields named after that key, and the total is the sum of the quantities |
| FormParsing.ParsedItemsAreWellFormed | services/dc_creation.go:505-527 | what the parser returns for a validated form meets the creation services' expectations: totals added up, serials trimmed |
| SplitService.CheckDestinations | services/dc_split.go:62-74 | the first problem in order of selection: missing, already split, or of another transfer DC |
| SplitService.CheckSplit | services/dc_split.go:38-74 | the checks of a split in their order, or the transfer metadata that was found |
| SplitService.PlanItems | services/dc_split.go:95-121 | the parent lines with a positive planned total, in line order, with quantity per destination |
| SplitService.SaveChild | services/dc_split.go:136-324 | the child group with its transit DC, priced lines, assigned serials, and one official DC per destination |
| SplitService.MarkDestinations | services/dc_split.go:345-354 | flags exactly the selected destinations and names their group |
| SplitService.FinishSplit | services/dc_split.go:326-367 | the split record and its link back, the flags, the count, and the parent's status |
| SplitService.CreateSplit | services/dc_split.go:35-370 | a rejected split changes nothing; an accepted one gives the specified state, whose new DCs and lines are as `CreatedRows.SplitHolds` says, and returns the new ids |
| DeletionService.UndoSplit | services/dc_split.go:374-464 | a rejected undo changes nothing; an accepted one resets the block, removes the group with everything below it and the split record, and restores count and status |
| DeletionService.DeleteChallans | services/dc_split.go:417-434 | the DCs go with exactly their lines and those lines' serials |
| DeletionService.DeleteShipmentGroup | handlers/dc_delete.go:56-96 | only a draft group is removed, with its members, their lines and serials, and by cascade its split record |
| DeletionService.HandleShipmentGroupDelete | handlers/shipment_group.go:132-168 | the same after a check of the project, which comes first |
| DeletionService.HandleDCDelete | handlers/dc_delete.go:12-53 | only a draft DC of the project; a member takes its whole group along, a transfer DC its metadata |
| DeletionService.DeleteTransfer | handlers/dc_delete.go:99-131 | metadata, destinations, plans, lines and serials of the DC go, and nothing else |
| Acceptance.SplitAcceptedExactly | services/dc_split.go:38-74 | a split is accepted iff the transfer DC is issued or splitting and the selection is not empty and consists of unsplit destinations of that DC |
| Acceptance.UndoAcceptedExactly | services/dc_split.go:374-404 | an undo is accepted iff the split record is live and its group is draft; no other check ever fails |
| Acceptance.IssueAcceptedExactly | services/dc_issue.go:96-128 | a DC can be issued iff it is draft and the serials of its group's transit DC, or its own if it has no group, are acceptable |
| Acceptance.DeleteAcceptedExactly | handlers/dc_delete.go:12-53 | a DC can be deleted iff it is a draft of the project; the state of its group never stands in the way |
| Acceptance.GroupDeleteAcceptedExactly | handlers/shipment_group.go:132-168 | a group can be deleted iff it is a draft of the project |
| Acceptance.DeleteTakesExactly | handlers/dc_delete.go:36-53 | an accepted deletion takes the DC, or all members of its group with the group and its split record, with all their lines, serials, metadata, destinations and plans, and no other row |
| Acceptance.GroupDeleteTakesExactly | handlers/dc_delete.go:56-96 | an accepted group deletion takes the group, its split record, its members, their lines and serials, and no other row |
| Rejections.SplitRejectedExactly | services/dc_split.go:38-60 | the errors about the DC and about an empty selection are each reported iff their cause is there and no earlier one; metadata is never missing |
| Rejections.SelectionRejectedFor | services/dc_split.go:62-74 | otherwise the error names the first destination that is not an unsplit one of the transfer DC, as missing, already split or foreign |
| Rejections.UndoRejectedExactly | services/dc_split.go:374-404 | an undo fails only for a missing record or, after that, a group that is no longer draft |
| Rejections.DeleteRejectedExactly | handlers/dc_delete.go:12-34 | a missing DC and one of another project get the same error, a DC that is not draft another |
| Rejections.GroupDeleteRejectedExactly | handlers/shipment_group.go:132-168 | a missing group and one of another project get the same error, a group that is not draft another |
| Rejections.GroupIssueRejectedExactly | services/dc_issue.go:12-36 | in any state: a missing group, one that is not draft, and a draft one with a member that is not draft are each refused as such |
| Rejections.TransferIssueExactly | services/dc_issue.go:66-93 | only a draft transfer DC with acceptable serials is issued; a missing, a non-draft and a non-transfer DC each get their own error, in this order |
| Rejections.IssueRejectedExactly | services/dc_issue.go:96-128 | a missing DC and one that is not draft are refused as such, and every other refusal is about serials |
| IssueService.IssueShipmentGroup | services/dc_issue.go:11-63 | the first failing check is reported and changes nothing; otherwise all members and the group become issued; in a sound state it is accepted iff the group is draft and its transit DC's serials are acceptable |
| IssueService.IssueTransferDC | services/dc_issue.go:66-93 | only the DC's status changes, and only after all checks |
| IssueService.IssueSingleDC | services/dc_issue.go:96-128 | dispatches to the group, the transfer DC, or the single DC |
| IssueService.ValidateChallanSerials | services/dc_issue.go:131-220 | the first problem over the lines in order: wrong count where serials are required, repeated serials, serials used elsewhere; with trimmed serials there is none iff they are acceptable |
| IssueService.CollectOthers | services/dc_issue.go:150-169 | the serials of the project that do not occur on the DC, each with the number of a DC that records it, or none if its line or DC is gone |
| IssueService.HandleShipmentGroupIssueAll | handlers/shipment_group.go:105-129 | a group of another project is refused unchanged; otherwise the group is issued as by the service |
| SerialRules.SerialCheckExactly | services/dc_issue.go:171-217 | with trimmed serials a DC is accepted iff the serials of each line are distinct and each line with a positive quantity whose item is tracked as required has as many as its quantity; the verdict is never "already used" |
| SerialRules.OnlyRequiredCounts | services/dc_issue.go:199-203 | a wrong number of serials is reported only of a line with a positive quantity whose item is tracked as required; for optional, absent or no tracking the number never causes a rejection |
| SerialRules.FirstFaultReported | services/dc_issue.go:171-217 | a rejection names the first line that is not acceptable, and the wrong count before the repeated serial |
| SerialRules.GroupIssuableExactly | services/dc_issue.go:18-44 | a group can be issued iff it is draft and each transit member's serials are acceptable |
| SerialRules.VerdictIsLocal | services/dc_issue.go:139-169 | the verdict on a DC is the same in two states that agree on its own lines and their serials |
| ChildSerials.ChildIssuableExactly | services/dc_issue.go:171-217 | a freshly split child group can be issued iff for each parent line it carries the allotted serials are distinct and, where required, as many as its planned quantity; the serials of the parent do not occur in the condition |
| ChildSerials.SerialReused | services/dc_split.go:231-242 | a concrete run in which parent and child record the same serial, serials are required, and the child can be issued |
| SplitNumbers.SplitNumbersExactly | services/dc_split.go:333-337 | a split gives its record a number in use iff a live record of the transfer DC carries `num_split + 1` already |
| SplitNumbers.UndoKeepsDenseExactly | services/dc_split.go:436-448 | where the live records carry the numbers 1 to `num_split`, an undo keeps it so iff it undoes the latest split |
| SplitNumbers.NumberRepeats | services/dc_split.go:333-337 | after undoing any other one, the next split of the transfer DC repeats a number |
| SplitNumbers.RepeatedRun | services/dc_split.go:333-337 | split, split, undo the first, split again: both live records carry number 2 |
| Serials.ValidateSerials | services/serial_validation.go:21-56 | valid iff the non-blank trimmed entries are distinct, as many as expected, and none known; reports repeats, conflicts and counts |
| Serials.ValidExactly | services/serial_validation.go:24-53 | no repeats, no conflicts and the right count of distinct entries together mean just that of the entries themselves |
| Serials.KnownExactly | services/serial_validation.go:41-47 | the conflicts are exactly the entries on record, with what is on record, none twice |
| Serials.TrimCuts | services/serial_validation.go:24-30 | trimming takes white space off both ends and nothing else; a text of white space becomes empty |
| Records.Database.NextDocNumber | services/numbering.go:62-141 | the key is of the project and type, and of the year that starts in the date's calendar year from April on and in the one before until March; the number is the configured start, 1 if none is set, or the last one plus one; only that counter changes |
| Numbering.YearLabels | services/numbering.go:13-20 | two dates have the same label iff their years, which start in April, agree modulo a century |
| Numbering.YearRunsAprilToMarch | services/numbering.go:13-20 | the first two digits are those of the calendar year from April on and of the one before until March; the last two are the next number modulo 100 |
| Numbering.YearExamples | services/numbering.go:12-20 | April 2025, December 2025, January 2026 and March 2026 are all "2526" |
| DocNumbers.FormatFills | services/numbering.go:48-58 | for every template made of tags and brace-free text the six replacements in order are one simultaneous substitution |
| DocNumbers.PrefixIsTemplate | services/numbering.go:51-57 | tags inside the prefix are filled like those of the template |
| DocNumbers.SeparatorIsTemplate | services/numbering.go:52-57 | so are tags inside the separator, except that of the prefix, which was put in before |
| DocNumbers.ReferenceIsVerbatim | services/numbering.go:57 | the project reference is put in last and stays as it is, tags included |
| DocNumbers.DefaultForm | services/numbering.go:72-83 | the default template prints prefix, type code, year and padded number between separators |
| DocNumbers.FormatExamples | services/numbering.go:22-58 | the four type codes, the default separators and paddings: "ABC-TDC-2526-001", "ABC-ODC-2526-005", "ABC-STDC-2526-0001", "XYZ/PO/2526/0042" |
| DocNumbers.DefaultsExample | services/numbering.go:72-84 | an unset template, separator and padding count as the default template, "-" and 3 |
| DocNumbers.ConfiguredExample | services/numbering.go:71-84 | a configured template, separator and padding are used |
| DocNumbers.ReadsBack | services/numbering.go:48-58 | type, year and number can be read back from a printed default number |
| DocNumbers.DifferentNumbersPrintDifferently | services/numbering.go:48-93 | under one configuration with the default template different numbers of a project print differently |
| DocNumbers.SeparatedPrintDifferently | services/numbering.go:48-58 | with any configured template in which type, year and number occur, different numbers of a project print differently |
| DocNumbers.PrintsApartExactly | services/numbering.go:48-93 | a configured template keeps all numbers of a project apart iff type, year and number occur in it |
| DocNumbers.DefaultSeparates | services/numbering.go:72-75 | the default template is one of these |
| BoqCaches.RolledUpIsFold | services/pricing.go:4-32 | in a rolled-up bill, whatever the other bills look like, a main item with sub-items costs its quantity times the plain fold from its leaves |
| Boq.Book.RecalcSub | handlers/items.go:426-456 | the sub-item's cache becomes the sum of its children's, or quantity times price if it has none; nothing else changes |
| Boq.Book.RecalcMain | handlers/items.go:459-486 | the main item's cache becomes the sum of its sub-items' times its quantity, if it has any; nothing else changes |
| Boq.Book.DeleteMain | handlers/items.go:18-49 | removes the item with everything below it and keeps the caches rolled up |
| Boq.Book.DeleteSub | handlers/items.go:53-88 | removes the sub-item with its children, recalculates its main item, and keeps the caches rolled up |
| Boq.Book.DeleteSubSub | handlers/items.go:91-134 | removes the leaf, recalculates its two ancestors, and keeps the caches rolled up |
| Boq.Book.PatchSub | handlers/items.go:277-344 | whatever is submitted, every stored quantity and price stays; the sub-item and its main item are recalculated, which changes nothing in a rolled-up book, and the stored budget is shown |
| Boq.Book.PatchSubSub | handlers/items.go:347-423 | stores the submitted quantity and price, the old ones where none was submitted, and their product, recalculates both ancestors, and keeps the caches rolled up |
| Boq.Book.PatchMain | handlers/items.go:206-274 | stores quantity, quoted price and budget; main items that were rolled up stay so iff this one has no sub-items or its budget is their sum times its quantity |
| Boq.Book.AddMain | handlers/boq_edit.go:494-533 | one more main item with quantity 1, quoted price 1 and budget 0; a rolled-up book stays rolled up |
| Boq.Book.AddSub | handlers/boq_edit.go:536-577 | one more sub-item with budget 1; a rolled-up book stays so iff its main item had sub-items and quantity 0, or none and a budget equal to its quantity |
| Boq.Book.AddSubSub | handlers/boq_edit.go:580-629 | one more leaf with budget 1; a rolled-up book stays so iff it is the first leaf of a sub-item whose quantity times price was 1 |
| BoqUpdate.HandleBOQUpdate | handlers/boq_edit.go:231-363 | from any state every record of the bill has the submitted quantity and price, or its old ones where none was submitted; every level is rolled up afterwards and each main item with sub-items costs the plain fold from its leaves; other bills are untouched, and caches that were rolled up everywhere still are |
| BoqUpdate.UpdateLeaves | handlers/boq_edit.go:301-339 | the children of one sub-item have the submitted values or their old ones, and the total of their budgets is returned |
| BoqUpdate.UpdateSubs | handlers/boq_edit.go:264-353 | the sub-items of one main item and their children have the submitted values or their old ones, and the total of their budgets is returned |
| BoqUpdate.UpdateMain | handlers/boq_edit.go:231-362 | one main item and all below it |
| BoqCaches.AddSubExactly | handlers/boq_edit.go:551-569 | adding a sub-item keeps the main items rolled up iff the quantity is 0, or, for the first sub-item, the manual budget equals the quantity |
| BoqCaches.AddSubSubExactly | handlers/boq_edit.go:595-611 | adding a leaf keeps the sub-items rolled up iff it is the first one and quantity times price was 1 |
| BoqCaches.PatchMainExactly | handlers/items.go:233-258 | whichever of quantity, quoted price and budget are patched, the main items stay rolled up iff this one has no sub-items or ends up with a budget of their sum times its quantity |
| BoqCaches.PatchQuantityExactly | handlers/items.go:233-237 | when only the quantity is patched: iff it has no sub-items, the quantity is the same, or the sum is 0 |
| BoqCaches.StaleAfterAddSub | handlers/boq_edit.go:551-569 | from the empty book, a main item and a first sub-item in it leave the main item stale |
| BoqCaches.StaleAfterAddSubSub | handlers/boq_edit.go:595-611 | a second leaf in a new sub-item leaves the sub-item stale |
| BoqCaches.StaleAfterPatchMain | handlers/items.go:233-258 | a rolled-up main item with one sub-item is stale after a patch of its quantity, or of its budget, to 2 |
| BoqCaches.AddMainKeeps | handlers/boq_edit.go:506-519 | adding a main item always keeps the main items rolled up |
| Words.ConvertUnder100 | services/po_pricing.go:144-153 | defined exactly below 100, where it names the number |
| Words.ConvertToIndianWords | services/po_pricing.go:97-142 | defined exactly below 1,000,000,000; crores, lakhs, thousands, hundreds and the rest, in order |
| Words.AmountReadsBack | services/po_pricing.go:82-142 | for any vocabulary of distinct words, `AmountToWords` is defined iff the rounded rupees are below 1,000,000,000 in magnitude, and a reader of the words then gets them back with their sign |
| Words.EnglishAmountsReadBack | services/po_pricing.go:155-163 | the same for the vocabulary of the source |
| Words.DifferentAmountsPrintDifferently | services/po_pricing.go:82-95 | amounts with different rounded rupees print differently |
| WordOrder.AmountWords | services/po_pricing.go:82-95 | word by word: "Negative" first for amounts below 0, then the words of the rounded rupees or "Zero", then "Rupees" and "Only/-" |
| WordOrder.JoinerPlaced | services/po_pricing.go:102-141 | "and" stands exactly once, between the words of the hundreds and above and those of the last two digits, iff both are there |
| WordOrder.AmountExample | services/po_pricing.go:80-81 | the documented example, 913183 |
| PoTotals.CalcLine | services/po_pricing.go:28-39 | before tax a line is rate times quantity, the tax is its percentage of that, and the total both together |
| PoTotals.CalcPOTotals | services/po_pricing.go:44-70 | the grand total is a whole number and the sum of line totals plus a round-off of at most a half; the effective percent of a positive amount is the one that gives the whole tax, and for non-negative lines it lies between the smallest and the largest line percent |
| PoTotals.RoundOffBounds | services/po_pricing.go:75-78 | the round-off is at most a half either way, a positive amount is never rounded down by a half, and the result is whole |
| PoTotals.RoundsHalvesUpExactly | services/po_pricing.go:72-78 | the rule "below one half down, from one half on up" gives the round-off of every amount except the negative ones ending in exactly one half |
| PoTotals.GrandTotalReadsBack | services/po_pricing.go:44-95 | a grand total within the word bound prints, and the words read back exactly it |
| Columns.AddrColName | services/address_export.go:166-173 | the loop terminates for every index and returns the bijective base-26 name |
| Columns.DecodeName | services/address_export.go:166-173 | a name is a non-empty string of capitals, and decoding it gives index + 1 |
| Columns.NameOfDecoded | services/address_export.go:166-173 | every non-empty string of capitals is the name of the index it decodes to |
| Columns.NamesOrdered | services/address_export.go:166-173 | names are ordered by length and then alphabetically as indices grow |
| Grouping.ApplyIndianGrouping | services/format.go:40-60 | the groups joined by commas |
| Grouping.GroupsShape | services/format.go:40-60 | the groups concatenate to the input; beyond three digits the last has three, inner ones two, the first one or two |
| Grouping.GroupingOnlyAddsCommas | services/format.go:40-60 | deleting the commas gives the input back, and their number is as many as half of the digits beyond three, rounded up |
| Grouping.FormatINR | services/format.go:12-35 | the sign of the amount, the rupee symbol, grouped rupees and two digits of paise, rounded to the nearest paisa with halves to even |
| Grouping.FormattedReadsBack | services/format.go:12-35 | sign and paise can be read back from the formatted text |
| Grouping.FormatReadsNearest | services/format.go:12-35 | a formatted amount reads back within half a paisa of it, and exactly when it is a whole number of paise |
| Grouping.RoundsHalfEven | services/format.go:20 | paise are the nearest whole number, the even one where two are equally near |
| Grouping.FormatExamples | services/format.go:9-35 | documented examples: 1234567.89, -250000.50 and 0 |
| AddressImport.AddressBook.LoadShipToCompanyNames | services/csv_import.go:262-285 | the non-blank company names of the project's ship-to addresses |
| AddressImport.AddressBook.BuildShipToLookup | services/address_import.go:273-296 | a lookup with those same names as keys, each leading to the latest ship-to address of that name |
| AddressImport.ValidateRows | services/csv_import.go:170-231 | each row holds for every key the trimmed cell of the last column with that key; the errors, in row order, are about exactly the fields that are required and blank, filled in with a wrong format, or an unknown reference; error rows plus valid rows make up all rows |
| AddressImport.AllErrorsExactly | services/csv_import.go:189-221 | a field of a row is among the errors iff it is wrong, and row numbers count from 2 |
| AddressImport.RowErrorsExactly | services/csv_import.go:189-221 | a row's errors are about exactly its wrong fields |
| AddressImport.ErrorRowsCounted | services/csv_import.go:223-229 | the distinct row numbers among the errors are as many as the rows with an error |
| AddressImport.RevalidateRows | services/address_import.go:199-269 | exactly the errors of the first validation on the same rows and names |
| AddressImport.CleanReferences | services/address_import.go:255-265 | clean rows refer only to known ship-to addresses |
| AddressImport.InsertChunk | services/address_import.go:101-194 | a chunk is stored whole with no error, or not at all with one error: its first row that cannot be inserted, or its first row of all when only the commit fails |
| AddressImport.InsertChunks | services/address_import.go:79-94 | the stored rows are those of the clean chunks in order, there is one error per failed chunk, its first fault, and imported plus failed is the total |
| AddressImport.CommitAddressImport | services/address_import.go:36-97 | revalidation errors leave the addresses unchanged and count the bad rows; otherwise exactly the rows of the clean chunks are stored, in order, each with exactly its filled-in address fields, and an install-at row with a reference under the latest ship-to address of that company; the counts add up, and the failure branch of the ship-to lookup is never taken |
| AddressImport.AllStored | services/address_import.go:79-94 | when every chunk is clean exactly all rows are stored, in order |
| AddressImport.RecordImported | services/address_import.go:117-164 | the record of a row holds exactly its filled-in address fields with their values, and has as parent the ship-to address it refers to, or none |

## Left out

- Runs.StepKeepsInv: assumes calls as the wizards submit them; `CreateSplit` itself does not look for a destination selected twice.
- Histories.PrintedNumbersNeverRepeat: is about templates of tags and text without stray braces, and a prefix and separator without braces; a template that leaves out type, year or number does repeat (`DocNumbers.PrintsApartExactly`).
- SerialRules.SerialCheckExactly: takes required serial tracking as a table from source items, in place of the lookup through template items (`services/dc_issue.go:187-196`), and is about trimmed serials, which is all the form parser produces.
- Words.ConvertToIndianWords: an amount of 1,000,000,000 or more, for which the code runs out of its tables, is an undefined result here; the rupees are not bounded by 64 bits.
- PoTotals.CalcPOTotals: works on real numbers, so floating-point rounding does not appear; the same holds for all prices, taxes and formatted amounts.
- FormParsing.ParseShipmentItems: the two number parsers of the form are parameters.
- AddressImport.CommitAddressImport: whether saving a row succeeds is a parameter; the six format rules (PIN code, phone, e-mail, GSTIN, PAN, CIN) are abstract predicates; labels and wording of errors, the upper-casing of `address_code` and the link to the address configuration are not modelled; the rules are iterated in a given order where the code ranges over a Go map.
- Records.Database.NextDocNumber: one transaction is one step; the project exists; negative start numbers and paddings, unknown sequence types and the purchase-order configuration group are not modelled.
- PocketBase itself: saves and deletes succeed and give fresh increasing ids, except for the required counts of locations of a group and of a transfer DC; deleting a shipment group removes its DCs and split records and deleting a DC its lines and serials (`collections/setup.go:455`, `collections/setup.go:533`); query order and `line_order` are the order of ids.
- Clocks: the fallback to the current date for unreadable challan dates, and the `issued_at` stamps.
- Carried data: transporter, vehicle, e-way and docket fields, transit details, templates, tax type, reverse charge, the hub and every address other than ship-to.
- The descriptive fields of BOQ items, `sort_order`, GST percent, and `CalcBOQTotals`.
- The wizards' session state, toasts, redirects, rendering, PDF and spreadsheet files, file parsing, seeds, settings, vendors and project records: interface and storage without a hard property.
- The status transition table of purchase orders and the choice of the tax type: one branch each.
