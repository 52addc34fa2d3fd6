# ELinks, modelled and proved

This project models the parts of ELinks that keep state and are easy to get wrong, and proves what they promise:

- the document cache (`src/cache/cache.c`): downloaded bytes in a list of overlapping-free fragments, the two size
  counters, and the garbage collector;
- saving the configuration so that loading it gives every option back (`src/config/conf.c`, `options.c`, `opttypes.c`),
  as commands and again down to the characters of the file, with its `bind` commands; and the same for key bindings
  (`src/config/kbdbind.c`);
- moving marked bookmarks, which rearranges two parallel forests while it walks over them
  (`src/bookmarks/dialogs.c`), and walking a foldable list (`src/bfu/listbox.c`);
- smaller loops: scrolling a menu, splitting text into lines, wrapping descriptions, and counting the cookies of a server.

The C code changes structures in place, so the operations are methods of classes with the same fields (`Cache`,
`CacheEntry` and `Fragment` with real buffers, `ConfigStore`, `ConfigParser`, `Keymap`, `BookmarkManager`, `Listbox`,
`Menu`, `TextWidget`, `CookieJar`).  Each method is proved against functions on values, and the theorems are about those
functions: byte maps, lists of commands, rows of a list, forests.

| files | part |
|---|---|
| `ByteMaps`, `FragmentEdits`, `Merging`, `FragmentLists`, `CacheEntry`, `CacheStore`, `GarbagePlan` | the cache |
| `OptionText`, `ConfigSave`, `ConfigStore` | option values as text; saving as commands |
| `ConfigText`, `Scanning`, `CommandShapes`, `CopiedCommands`, `ConfigRoundTrip`, `ConfigParser` | the text of a configuration file |
| `OpenEnds`, `TornFiles` | exactly when a configuration file does not survive being rewritten |
| `Keymaps`, `KeymapStore`, `SystemKeymaps`, `Keystrokes`, `KeymapFiles` | key bindings, and their commands in the text |
| `Sessions` | options and key bindings changed and saved together |
| `Bookmarks`, `BookmarkSteps`, `BookmarkOrder`, `BookmarkWhole`, `BookmarkRows`, `BookmarkCycles`, `BookmarkManager` | moving bookmarks |
| `ListboxItems`, `ListboxWalk` | walking a listbox |
| `Menus`, `TextLayout`, `Descriptions`, `Cookies`, `Basics` | the smaller parts |

## Where the code does not do what one would expect

Each of these has an exact condition over all inputs, and most an example:

- A memory cache size of 4 GiB or another multiple of 1024 whose value is beyond the range of `int` is written with a
  unit and comes back as `INT_MAX` (`OptionText.LargeSizeClipped`, exact condition in `OptionText.NumRoundTrip`).
- What saving appends to a configuration file is read, whatever the old file and the comments are, exactly if the
  rewritten file, with the comments before the first appended command, does not end in a command that only the end of the
  text ended, as an unclosed quote or a command word alone (`OpenEnds.AppendedIsRead`, `TornFiles.SavedTailIsRead`).  So
  it always is if the rewritten file has no such end, and only then if no quote is in those comments
  (`OpenEnds.CommentsMatter`).  A quote in them, as in the descriptions that are written by default, can close the open
  quote (`OpenEnds.QuoteInComment`); behind an open line the appended command is read exactly if the line ends within the
  comments (`OpenEnds.OpenLineIsClosed`).  Without quotes nothing of what is appended is read, and changes are lost
  (`TornFiles.UnclosedQuoteSwallows`, `TornFiles.ChangeIsLost`).
- A `set` command whose string is directly followed by a name character becomes, when its option is deleted, an `unset`
  command for another name, and exactly then (`TornFiles.DeletedSetReads`, `TornFiles.UnsetRunsOn`); an `unset` command
  of a number that becomes a `set` command is lost exactly if neither white space, a comment nor the end follows
  (`TornFiles.RestatedReads`).
- A string continued over a line end is blanked in the buffer while it is read (`OptionText.ContinuationNotKept`).  So a
  copied `include` command no longer names the same file exactly if the name is continued (`TornFiles.ContinuedInclude`),
  and a `bind` command no longer binds the same keystroke of the same keymap to its action exactly if the keymap, the
  keystroke or an action that is not written anew is continued (`TornFiles.ContinuedBind`).  A file that says nothing
  about options and bindings changes exactly if a string in it is continued (`ConfigRoundTrip.NothingToRewrite`).
- Saving in style 0, which only alters the old file, makes every change count as saved, also of options that are not in
  the file: saving the changed options later does not append them (`ConfigSave.AlteredChangeForgotten`).  What style 0
  gives back has an exact condition, like the other styles (`ConfigSave.SavedOptionLoads`).
- A key binding of the configuration file that is deleted comes back at the next start (`Keymaps.DeletedBindingReturns`);
  a default binding that the file repeats and that is deleted comes back after a save in style 2
  (`KeymapStores.MarkedDefaultForgotten`); `KeymapStores.EveryKeymapReloads` has the exact condition for every style.
- With a system configuration, or bind commands in included files, which count as default bindings: binding a key back to
  its built-in action against them is not saved (`Keymaps.SystemRebindingWins`), a keystroke that the user's file
  binds before it includes a file that binds it otherwise keeps the included action, and saving in style 2 loses what
  included files bound (`SystemKeymaps.IncludedBindingLost`).  `SystemKeymaps.EverySystemKeymapReloads` has the exact condition for every run,
  and `SystemKeymaps.SystemReloads` without flags for runs that do not use style 2.
- The collector charges entries in use against the limit, so that it can delete an entry that would have fitted
  (`GarbagePlan.UsedEntriesAreCharged`): what is charged in the end is exactly the unused data that is kept and the used
  data that was passed while it fitted (`GarbagePlan.PlanGreedy`).
- Shortening a fragment does not give back what was charged for it (`FragmentEdits.DroppedExactly`).
- The code says that a marked folder is moved as a whole.  With something marked in it, it is exactly if the selected
  bookmark does not come after it and if bookmarks are not put behind a folder around it while a marked bookmark stands
  before that folder, or before one that is around both (`BookmarkWhole.MovedWhole`; the smallest examples are
  `BookmarkOrder.FolderInFront` and `BookmarkOrder.FolderAround`).  Else what is marked in it is moved out
  (`BookmarkOrder.MarkedInsideComesOut`).
- Moved bookmarks do not end in the order in which they are come to.  Those of one list stand one directly behind the
  other, in the order of that list (`BookmarkRows.MovedInRows`), but what is marked in a folder comes behind what is marked
  after the folder (`BookmarkRows.InnerComesBehind`).
- Moving the selection past the end of a list that does not fill its window makes the recorded offset one too large, and
  a window of one row jumps to the end (`ListboxWalks.StaysInOrder`, an exact condition).
- When the top item of a list is hidden, going on selects the next shown item as well but keeps the offset, which then is
  right exactly if it was 0 (`ListboxWalks.Listbox.SelMove`).
- Checking the selection of a menu by scrolling no steps drops a selection that cannot be selected instead of correcting
  it (`Menus.NoStepsDrop`); steps from no selection can end with none (`Menus.TwoStepsFromNone`, exact condition in
  `Menus.NoneSelects`).
- Cutting the text of a scrolled window behind its last line can change its lines: inside of a word
  (`TextLayout.CutWordMoves`), or behind an empty line (`TextLayout.EmptyLineLost`); `TextLayout.WindowShows` says exactly when.

## Model

| member | source | states |
|---|---|---|
| `CacheStore.Cache.AddFragment` | src/cache/cache.c:398-492 | Storing data gives exactly the old bytes overlaid with the new ones, cut at their end if and only if they were written in place or disagree with a later fragment; length, result, charged size and identifier likewise, and each fragment with the room of its buffer; the invariant of the whole cache is kept |
| `CacheStore.Cache.Place` | src/cache/cache.c:419-484 | The three ways of putting the data: over the touched fragment, into its spare room, or into a new fragment behind the shortened one |
| `CacheStore.Cache.RemoveOverlaps` | src/cache/cache.c:346-396 | Whatever the new fragment overlaps is taken over: no byte changes, the list is ordered again, and the result says whether any overlapped byte differed, over all fragments |
| `CacheEntries.CacheEntry.Absorb` | src/cache/cache.c:355-385 | One overlapping fragment is compared with, copied behind and unlinked from the real buffers |
| `FragmentEdits.WrittenReads` | src/cache/cache.c:398-492 | After a write a reader finds the new bytes in their place, the old ones below, and above the old ones or, after a cut, nothing |
| `FragmentEdits.PlacedCases` | src/cache/cache.c:419-484 | The list after placing the data, in each of the three cases, from where the search stops |
| `FragmentEdits.CachePadFits` | src/cache/cache.c:291 | The room of a new fragment is the next multiple of 0x4000 above its length, and no other |
| `FragmentEdits.FreshRoom` | src/cache/cache.c:428-434 | When a later write that touches such a fragment goes in place, in numbers: exactly if the last byte comes into no later block of 0x4000 than the first byte behind the fragment when it was made |
| `Merging.PlacedBytes` | src/cache/cache.c:419-484 | Placing the data, before overlaps are removed, already stands for the overlaid bytes |
| `Merging.PlacedMergeable` | src/cache/cache.c:419-484 | Only the new fragment may then overlap others, and only behind it |
| `Merging.PlacedCuts` | src/cache/cache.c:486-489 | The fragments compared are exactly the later ones of the original list |
| `Merging.MergeKeepsBytes` | src/cache/cache.c:346-396 | Taking over overlapped fragments, any number of them, changes no byte |
| `Merging.MergeComparedAll` | src/cache/cache.c:355-381 | Stopping at the first difference finds one exactly if there is one among all overlapped fragments |
| `Merging.MergeStateDone` | src/cache/cache.c:346-396 | When the loop ends the list is well formed, stands for the same bytes, and all overlaps have been compared |
| `FragmentEdits.DroppedExactly` | src/cache/cache.c:428-446 | The charged size drifts from the stored length exactly when a write outgrows the buffer of the fragment it touches and starts before the end of it |
| `CacheStore.Cache.TruncateEntry` | src/cache/cache.c:594-637 | The bytes below the offset stay, the others go; the length, the mark for incompleteness and both counters follow |
| `FragmentEdits.CutPart` | src/cache/cache.c:613-630 | Shortening the fragment at the offset and dropping the later ones leaves just the bytes below it |
| `FragmentLists.CutAtIs` | src/cache/cache.c:605-636 | The list after truncating, told by the fragment at which it is cut; only a final cut gives back the spare room |
| `CacheStore.Cache.DeleteFragment` | src/cache/cache.c:580-592 | A fragment and all later ones go, with what was charged for them |
| `CacheStore.Cache.FreeEntryTo` | src/cache/cache.c:639-662 | Exactly the bytes below the offset are forgotten |
| `CacheStore.Cache.GetCacheFragment` | src/cache/cache.c:505-578 | Joining fragments changes no byte and no charge; the result is null exactly when nothing is stored at 0, and else holds the longest prefix without a gap |
| `FragmentEdits.PrefixBeforeGap` | src/cache/cache.c:518-548 | The fragments before the first gap hold the longest prefix of the bytes |
| `CacheStore.Cache.BeforeGap` | src/cache/cache.c:518-536 | The search ends at the first gap and never meets overlapping fragments |
| `FragmentLists.GapIs` | src/cache/cache.c:518-536 | There is only one place that is the first gap |
| `CacheStore.Cache.DeleteEntryContent` | src/cache/cache.c:664-682 | The entry is empty and nothing is charged for it |
| `CacheStore.Cache.EnlargeEntry` | src/cache/cache.c:276-288 | Both counters change together and neither becomes negative |
| `CacheStore.Cache.FindInCache` | src/cache/cache.c:116-138 | The first valid entry for the address, moved to the front with the others in their order, or null exactly if there is none |
| `CacheStore.Cache.GetCacheEntry` | src/cache/cache.c:140-179 | The entry that is found, in front; or a new empty one in front of what the collector, which runs first, has kept |
| `CacheStore.Cache.DeleteCacheEntry` | src/cache/cache.c:719-726 | One entry goes with what it was charged, the others stay in order |
| `CacheStore.Cache.NormalizeCacheEntry` | src/cache/cache.c:729-740 | A filled entry is cut at its final length and is complete |
| `CacheStore.Cache.GarbageCollection` | src/cache/cache.c:815-971 | The four passes keep exactly the entries of the plan, in order and unchanged, with the counters right and no mark left; nothing is deleted exactly if the unused data is no more than the user allows, or, if all is to go, if nothing is unused; what is left is within the bounds in numbers |
| `CacheStore.Cache.CountUnused` | src/cache/cache.c:850-875 | The first pass finds the unused data, and that the cache size is the sum of the entries |
| `CacheStore.Cache.MarkOldest` | src/cache/cache.c:878-921 | The second pass stops at the cut-off and has marked exactly the unused entries behind it |
| `GarbagePlan.CutoffIs` | src/cache/cache.c:878-921 | There is only one place where the second pass can stop |
| `CacheStore.Cache.LetOffNewest` | src/cache/cache.c:928-950 | The third pass lets off exactly the entries that still fit |
| `CacheStore.Cache.DeleteMarked` | src/cache/cache.c:953-960 | The last pass deletes exactly the marked entries, and no mark is left |
| `GarbagePlan.LetOffGreedy` | src/cache/cache.c:928-950 | What the third pass does not let off is unused and does not fit on top of all that is charged in the end |
| `GarbagePlan.PlanBounds` | src/cache/cache.c:815-971 | Unused data that survives is at most what the user allows, at most 90 % of it once anything was marked, and none when all is to go |
| `GarbagePlan.PlanDeletes` | src/cache/cache.c:878-960 | Only unused entries go, none newer than the cut-off, and none without data unless all is to go |
| `GarbagePlan.CollectsWhen` | src/cache/cache.c:847-875 | The plan deletes nothing exactly if the unused data is no more than the user allows, or, if all is to go, if all entries are in use |
| `GarbagePlan.CutoffDeleted` | src/cache/cache.c:878-921 | Else the entry at which the second pass stops is deleted: the first with which the unused data is more than 90 % of what is allowed |
| `GarbagePlan.PlanGreedy` | src/cache/cache.c:928-960 | What is charged in the end is the unused data kept and the used data of the scanned tail that was charged, an equality; and a deleted entry does not fit on top of that |
| `GarbagePlan.SurvivorsCharged` | src/cache/cache.c:928-950 | The third pass charges exactly what survives: the unused entries it lets off, and the used ones that it passed while they fitted |
| `GarbagePlan.UsedEntriesAreCharged` | src/cache/cache.c:928-950 | With an entry in use in the tail an entry is deleted that would have fitted |
| `OptionText.SkipAgrees` | src/config/conf.c:138-161 | Skipping a string ends where reading it ends, after as many lines, closed or not |
| `OptionText.SkipQuoted` | src/config/conf.c:138-161 | The skipping loop stops where a string that is read would end |
| `OptionText.StrRoundTrip` | src/config/opttypes.c:199-206 | Reading a written string gives it back and stops right after it, whatever follows |
| `OptionText.StrRd` | src/config/opttypes.c:285-338 | Reading in place from a buffer: value, end, line and the blanks left in the buffer |
| `OptionText.ContinuationNotKept` | src/config/opttypes.c:312-319 | Read again from the buffer that reading left, a string ends at the same place; it is the same exactly if it was not continued over a line end, and else longer |
| `OptionText.NumRoundTrip` | src/util/conv.c:149-174 | A written number is read back exactly if it has no unit or its value is within the range of int |
| `OptionText.StrtolxOfWritten` | src/util/conv.c:408-437 | What reading a written number gives, for every number |
| `OptionText.StrtolxReads` | src/util/conv.c:408-437 | What reading any number gives, with white space, a sign, zeros and a unit in either case: the number times the unit, clipped to the range of int, or 0 with its unit left behind when it is out of the range of long |
| `OptionText.StrtolxOfNone` | src/util/conv.c:408-437 | Where no digit follows the white space and the sign, 0 is read, and a unit only at the start of the text |
| `OptionText.LargeSizeClipped` | src/util/conv.c:408-437 | 4 GiB is written as 4096M and read as INT_MAX |
| `OptionText.ValueRoundTrip` | src/config/opttypes.c:199-365 | Writer and reader of an option agree exactly on the values that read back |
| `OptionText.LongStringCut` | src/config/opttypes.c:358-365 | A string beyond the limit of its option is read back as its longest part within the limit |
| `ConfigSave.MirrorOption` | src/config/conf.c:370-391 | The loop invariant of saving: for an option mentioned so far, the flag is clear exactly when loading the rewritten prefix gives its value |
| `ConfigSave.ScanOption` | src/config/conf.c:360-369 | The same for an included file, which is watched but not rewritten |
| `ConfigSave.SavedOptionLoads` | src/config/conf.c:1177-1293 | Saving and loading gives an option back exactly under a condition on the file and the flags, for every file, style and state |
| `ConfigSave.AlteredOptionLoads` | src/config/conf.c:1233-1248 | The condition when the old file is only altered: a deleted option is unset in it, a live one is left without its flag by going over it, or is not mentioned and as at the start |
| `ConfigSave.AlteredChangeForgotten` | src/config/conf.c:1319-1327 | A changed option that is not in the file, saved in style 0 and then in style 3, is not in the file still |
| `ConfigSave.EverySaveRestores` | src/config/options.h:34-68 | Over every run of changing, deleting and saving in all four styles: after each save that is written and appends options, loading the file gives every option back; in style 3 if no save was in style 0 before |
| `ConfigSave.RunKeepsSync` | src/config/options.h:34-68 | The invariant of every run without a save in style 0: untouched options are what loading the file gives |
| `ConfigSave.RunKeepsAlive` | src/config/options.h:34-68 | The invariant of every run: a live option did not start out deleted, and no included file unsets it |
| `ConfigSave.ActKeepsSync` | src/config/options.c:1290-1297 | Every step keeps untouched options in agreement with the file |
| `ConfigStores.ConfigStore.WriteConfigFile` | src/config/conf.c:1177-1356 | The whole of saving, step by step, is the step of the run |
| `ConfigStores.ConfigStore.MirrorFile` | src/config/conf.c:707-779 | Going over the old file gives the rewritten commands and the flags |
| `ConfigStores.ConfigStore.PrepareMustSaveFlags` | src/config/options.c:1102-1121 | The flags before the old file is read |
| `ConfigStores.ConfigStore.AppendOptions` | src/config/options.c:1158-1247 | What is appended is what still carries the flag, in order |
| `ConfigStores.ConfigStore.UntouchOptions` | src/config/options.c:1125-1137 | Saving clears what says that options were changed |
| `ConfigText.CommandItem` | src/config/conf.c:655-690 | A command at the start of a text, of any of the five kinds or none: what it says, how far it goes, where its value or action is, and what reading leaves of it; the length lies within the text and is not zero |
| `CopiedCommands.CommandCopied` | src/config/conf.c:655-690 | A command of any kind that is copied reads the same in its new surroundings, with the same length, unless only the end of the text ended it |
| `ConfigRoundTrip.BindWith` | src/config/conf.c:493-581 | Whatever is put where the action of a bind command was is read as its action |
| `ConfigRoundTrip.BindLineReads` | src/config/kbdbind.c:983-1008 | A line that saving writes for a binding is read as that binding, whatever keystroke it has and whatever follows |
| `ConfigRoundTrip.PieceReads` | src/config/conf.c:370-391 | A command, rewritten or copied, says what the options and bindings say now, ends where it was written to end, and is clean again; what must follow it depends only on what it may become |
| `ConfigRoundTrip.MirrorReads` | src/config/conf.c:707-779 | The rewritten text is cut into commands at the same places and says the rewritten commands, bind commands included |
| `ConfigRoundTrip.NothingToRewrite` | src/config/conf.c:707-779 | A text that says nothing about the options and bindings comes out as long as it is, and unchanged exactly if reading it blanks nothing |
| `ConfigRoundTrip.SavedTextReads` | src/config/conf.c:1177-1293 | The text that is written reads as exactly the commands that were to be saved, and binds what the old text did, to the actions of now, and what was appended, in all four styles; and it is clean again |
| `ConfigRoundTrip.SavedTextLoads` | src/config/conf.c:1177-1293 | Saving as text and loading gives an option back under the same exact condition |
| `ConfigRoundTrip.RunTextReads` | src/config/options.h:34-68 | Every run on the text, with its own comments, preamble and key bindings for each save, is a run on its commands |
| `ConfigRoundTrip.EverySavedTextRestores` | src/config/options.h:34-68 | The theorem on whole runs, for the text of the file, with its key bindings; each save may write other comments |
| `OpenEnds.AppendedIsRead` | src/config/conf.c:707-779 | For any text and anything that is appended on a new line, with any comments: the first appended command is read as a command exactly if the text with the comments before that command has no open end; and then the whole says what both parts say |
| `OpenEnds.CommentsMatter` | src/config/conf.c:985-994 | A text without an open end has none with the comments either, and says the same with them; with comments that have no quote, the converse holds too |
| `OpenEnds.OpenRunsOn` | src/config/conf.c:655-690 | A command that only the end of the text ended runs on into the first command that is appended, whichever of its places the end was at, if no quote comes before that command |
| `OpenEnds.OpenLineIsClosed` | src/config/conf.c:190-200 | Behind any line that is no command and has an open quote, with any comments after it: the first appended command is read exactly if the line ends before it |
| `OpenEnds.QuoteInComment` | src/config/options.inc:61-65 | A quote in a comment closes the open quote of the line before, and the appended command is read |
| `TornFiles.SavedTailIsRead` | src/config/conf.c:1177-1293 | The same as of any appended text for what saving writes, whatever the old file is and whatever comments are written |
| `TornFiles.UnclosedQuoteSwallows` | src/config/conf.c:190-200 | If the rewriting of the old file, whatever it is, ends in a line with an open quote and nothing that is appended has a quote, then the new file says and binds just what that rewriting does |
| `TornFiles.ChangeIsLost` | src/config/conf.c:190-200 | A saved text with a changed option whose change is lost |
| `TornFiles.UnsetRunsOn` | src/config/conf.c:415-440 | A rewritten unset is read as one for its option exactly if no name character follows |
| `TornFiles.DeletedSetReads` | src/config/conf.c:374-380 | Any set command for a deleted option, with anything behind it: its rewriting unsets the option exactly if no name character comes directly behind the value |
| `TornFiles.RestatedReads` | src/config/conf.c:466-478 | A set command that an unset command becomes is read as it was written exactly if its option is a string, or white space, a comment or the end follows |
| `TornFiles.ContinuedInclude` | src/config/conf.c:587-632 | An include command says the same after saving exactly if its file name is not continued over a line end |
| `TornFiles.ContinuedBind` | src/config/conf.c:493-581 | A bind command, whatever its three strings are and what follows: after saving it says what it must exactly if neither keymap nor keystroke is continued over a line end, nor an action that is not written anew |
| `ConfigParsers.ConfigParser.ParseConfigFile` | src/config/conf.c:707-779 | The scanner ends on every text; it mirrors every character it does not rewrite once and in order, as reading leaves it in the buffer, and leaves the flags of the command level |
| `ConfigParsers.ConfigParser.ParseConfigCommand` | src/config/conf.c:655-690 | Each command is handled as the item at the start of the rest says, and nothing is mirrored twice or left out |
| `ConfigParsers.ConfigParser.ParseValue` | src/config/conf.c:260-395 | The value is read from the buffer, where strings are blanked, and replaced by the current one, or skipped |
| `ConfigParsers.ConfigParser.ParseBind` | src/config/conf.c:493-581 | A bind command is read, with its three strings blanked in the buffer, and its action replaced by the current one; after an error the position goes back as in the source |
| `ConfigParsers.ConfigParser.ParseUnset` | src/config/conf.c:415-491 | An unset command stays, or becomes the current setting |
| `ConfigParsers.ConfigParser.SkipWhite` | src/config/conf.c:112-136 | White space and comments are skipped to the next command |
| `ConfigParsers.ConfigParser.SkipToUnquotedNewlineOrComment` | src/config/conf.c:190-200 | After an error the line is skipped, quoted strings as a whole |
| `Keymaps.SavedKeystrokeLoads` | src/config/kbdbind.c:983-1028 | Loading the saved bindings gives a keystroke its action back exactly under a condition on file, flags and start, for all bindings |
| `Keymaps.TailLast` | src/config/kbdbind.c:983-1028 | What is appended about a keystroke: its action, unless the binding is default or marked |
| `Keymaps.MarkedMentions` | src/config/kbdbind.c:960-981 | Exactly the bindings of keystrokes in the file are marked |
| `Keymaps.KeptReloads` | src/config/kbdbind.c:853-872 | For a kept keymap and every saving style: exactly if the keystroke is still bound, when the file that is read binds it, and else if its binding is default or, where bindings are appended, carries no old mark |
| `Keymaps.FreedKept` | src/config/kbdbind.c:139-165 | Freeing a default binding rebinds it to no action and keeps the invariant of the keymap |
| `Keymaps.AddedKept` | src/config/kbdbind.c:100-137 | So does adding one: a keystroke has one binding, default keystrokes stay bound, and the flag marks exactly the default pairs |
| `Keymaps.LoadedKept` | src/config/kbdbind.c:935-958 | So does loading a file |
| `Keymaps.SavedKept` | src/config/kbdbind.c:1010-1028 | So does saving, in every style; it changes no action, and unless the file is replaced it leaves marks only on keystrokes of the new file |
| `Keymaps.DeletedBindingReturns` | src/config/conf.c:567-579 | A deleted binding that the file sets is bound again by the saved file |
| `Keymaps.SystemRebindingWins` | src/config/kbdbind.c:935-958 | A built-in binding restored against the system configuration is not saved |
| `KeymapStores.EveryKeymapReloads` | src/config/kbdbind.c:1010-1028 | The same exact condition over every run of binding, removing, saving in any style, also without success, and restarting, without a system configuration |
| `KeymapStores.OneWayReloads` | src/config/conf.c:1102-1104 | Runs that always save in style 2 lose nothing; runs that never do lose a keystroke exactly when the file binds it and it was removed, or in style 0 when it is neither in the file nor default |
| `KeymapStores.MarkedDefaultForgotten` | src/config/kbdbind.c:1019-1024 | A default binding that the file repeats, saved, removed and saved in style 2, comes back |
| `SystemKeymaps.SavedLinesReload` | src/config/conf.c:616-626 | With any system configuration and any bind commands in included files: loading the saved bindings gives a keystroke its action back exactly if the last command about it is one of the user's file and it is still bound, or its command is appended, or an included file or the start makes it do what it does |
| `SystemKeymaps.EverySystemKeymapReloads` | src/config/conf.c:858-864 | The same exact condition over every run of binding, removing, saving in any style, also without success, and restarting |
| `SystemKeymaps.SystemReloads` | src/config/kbdbind.c:935-958 | Runs that never use style 2, without flags: a keystroke is lost exactly if it was removed though something binds it, or is bound to its built-in action and something binds it otherwise, or the file binds it and then an included file otherwise, or style 0 does not write it |
| `SystemKeymaps.NextFits` | src/config/kbdbind.c:935-958 | What every step of such a run keeps: built-in bindings are flagged, other flagged ones are what the start gives unless the user's file binds the keystroke last, and marks are on keystrokes of the file |
| `SystemKeymaps.WithoutSystem` | src/config/conf.c:858-864 | Without a system configuration and included commands the condition is that of `Keymaps.Returns` |
| `SystemKeymaps.IncludedBindingLost` | src/config/conf.c:1203-1207 | A save in style 2 loses the binding of an included file |
| `KeymapFiles.SavedTextBinds` | src/config/conf.c:563-578 | The bind commands in the saved text mean exactly what saving the keymap was to write |
| `KeymapFiles.SavedTextReloads` | src/config/conf.c:1177-1293 | So loading the saved text gives a keystroke its action back exactly under the condition for the keymap |
| `Sessions.KeysNowOf` | src/config/kbdbind.c:960-1028 | What the keymap gives for the bind commands of any file, and what it appends, is what saving it needs |
| `Sessions.MoveKeeps` | src/config/conf.c:1177-1293 | Every step of a session does to the options and to the keymap what it does to each alone, and keeps the text clean and its bind commands understood |
| `Sessions.RunKeeps` | src/config/conf.c:1177-1293 | So a session is a run of the options and a run of the keymap on the same text |
| `Sessions.EverySessionReloads` | src/config/conf.c:1177-1356 | Over every session of changing options and key bindings and saving both in any styles, each save with its own comments: saving once more and starting again gives an option back exactly under the condition for options, and a keystroke its action exactly under the condition for keymaps |
| `KeymapStores.FreshKept` | src/config/kbdbind.c:853-872 | The bindings after a start satisfy the invariant of the keymap |
| `KeymapStores.Keymap.DeleteKeybinding` | src/config/kbdbind.c:69-96 | Deleting unlinks the first binding of the keystroke, and tells whether it was a default one |
| `KeymapStores.Keymap.AddKeybinding` | src/config/kbdbind.c:100-137 | Adding replaces it, with the right flags |
| `KeymapStores.Keymap.MirrorBinds` | src/config/kbdbind.c:960-981 | Bind commands of the file are rewritten and their bindings marked |
| `KeymapStores.Keymap.BindConfigString` | src/config/kbdbind.c:1010-1028 | What is appended is neither default nor in the file, and marks of the former are cleared |
| `KeymapStores.Keymap.Save` | src/config/kbdbind.c:983-1028 | Both together, in every style and also when writing fails, keep the keymap and its actions |
| `Keystrokes.PrintedParses` | src/config/kbdbind.c:427-524 | A printed keystroke is read back exactly if it is one that can be read at all |
| `Keystrokes.ParsedCanonical` | src/config/kbdbind.c:405-473 | Whatever text a keystroke is read from, printing and reading gives it back |
| `Keystrokes.UpperIs` | src/config/kbdbind.c:479-484 | A letter with the control modifier becomes the same letter in upper case |
| `Keystrokes.SavedKeystrokeReturns` | src/config/kbdbind.c:489-524 | So it does from the quoted and escaped text in the file |
| `Keystrokes.ParseKeystroke` | src/config/kbdbind.c:427-473 | The scanning loop reads modifiers in any order and case, and then the key |
| `Keystrokes.AddKeystrokeToString` | src/config/kbdbind.c:489-524 | The printing loop |
| `BookmarkManagers.BookmarkManager.DoMoveBookmark` | src/bookmarks/dialogs.c:471-559 | Moving ends, though the lists change under the loop; both forests stay consistent and alike; moved nodes were at or below the list, are unmarked and directly at the target; all others keep place and order; every marked node that is not inside another marked one is moved; what is marked in a marked folder comes out where the traversal comes to the folder again, and stays where it does not; and what is moved from one list stands in a row; and it tells of a cycle exactly if it comes to the marked folder that must stay |
| `BookmarkManagers.BookmarkManager.VisitBookmark` | src/bookmarks/dialogs.c:484-555 | One turn moves only the visited bookmark or ones below it, and all that can be reached there; and if nothing above the folder that must stay is to be moved, it tells of a cycle exactly if that folder is marked and come to |
| `BookmarkManagers.BookmarkManager.MoveOne` | src/bookmarks/dialogs.c:494-550 | Unlinking and relinking one bookmark and its item, with all depths below it |
| `BookmarkManagers.BookmarkManager.UpdateDepths` | src/bookmarks/dialogs.c:449-458 | Every item below is set to its depth, no other changes |
| `BookmarkManagers.BookmarkManager.PushMoveButton` | src/bookmarks/dialogs.c:561-623 | The marked ancestor of the destination, if there is one, is found and stays; the rest is moved as above; that a folder was not moved into itself is told exactly if there is one |
| `BookmarkSteps.PlacedMoves` | src/bookmarks/dialogs.c:516-540 | Moving one marked node keeps the forests consistent and puts it at the target, and the next destination is settled |
| `BookmarkSteps.PlacedLeveled` | src/bookmarks/dialogs.c:535-540 | Afterwards every node is one level below its root, so no node is below itself |
| `BookmarkSteps.MovesThen` | src/bookmarks/dialogs.c:471-559 | Moves inside of a folder after moves in its list are moves in the list |
| `BookmarkSteps.PendingStep` | src/bookmarks/dialogs.c:484-555 | What is still to be moved is always at or below a node that is still to be visited |
| `Bookmarks.OrderStays` | src/bookmarks/dialogs.c:484-555 | Lists that differ only in moved nodes have the others in the same order, so the saved next node is still ahead |
| `BookmarkCycles.ToldStep` | src/bookmarks/dialogs.c:488-490 | A turn keeps what is told of the folder that must stay: exactly if it is marked and the node of the list that it is, or is below, has been visited |
| `BookmarkSteps.WithinBefore` | src/bookmarks/dialogs.c:471-559 | What is below a folder after moves was at or below the list before |
| `BookmarkSteps.MovedAll` | src/bookmarks/dialogs.c:471-559 | The result for each bookmark: same set, right list, right depth, moved exactly where it must be |
| `BookmarkSteps.PlacedForest` | src/bookmarks/dialogs.c:488-493 | Moving a node leaves a forest exactly if its new place is not in or below it |
| `BookmarkOrder.PromisedStep` | src/bookmarks/dialogs.c:484-555 | A turn keeps the promise for what is marked in a marked folder: it is out; or the folder is ahead, and so is the destination, or it is around the folder and moves on before; or it can be reached and is ahead |
| `BookmarkOrder.MarkedInsideComesOut` | src/bookmarks/dialogs.c:544-548 | A marked node in a marked folder, with nothing marked between or above, leaves the folder if the traversal comes to the folder again |
| `BookmarkWhole.StayingStep` | src/bookmarks/dialogs.c:484-555 | A turn keeps what says that a node below the folder stays: the folder is ahead, and the destination neither is nor comes to be; or the folder is where the traversal does not come |
| `BookmarkWhole.MovedWhole` | src/bookmarks/dialogs.c:544-548 | For every marked folder with nothing marked above it, wherever the selected bookmark is: everything below it keeps its place exactly if nothing below it is marked, or the selected bookmark does not come after it and is not a folder around it that bookmarks are put behind and that another marked bookmark, in a list on the way to it, comes before |
| `BookmarkWhole.MovesOnIsInFront` | src/bookmarks/dialogs.c:484-555 | Looking for such a bookmark from the top down, list by list, finds one exactly if there is one |
| `BookmarkOrder.FolderInFront` | src/bookmarks/dialogs.c:544-548 | The smallest case of a folder that is not moved as a whole because the destination comes after it |
| `BookmarkOrder.FolderAround` | src/bookmarks/dialogs.c:544-548 | The smallest case where the destination is around the folder: any traversal that keeps the promises ends with the inner bookmark at the top |
| `BookmarkRows.MovedInRows` | src/bookmarks/dialogs.c:471-559 | The marked bookmarks of a list have all stayed, all being in marked folders, or stand at the target one directly behind the other in the order of their list; those of the top list begin directly behind the selected bookmark, or in front of everything in the selected folder |
| `BookmarkRows.PlacedNext` | src/bookmarks/dialogs.c:523-534 | Putting a bookmark at its place parts no others but those between which it is put |
| `BookmarkRows.LinedStep` | src/bookmarks/dialogs.c:484-555 | A turn keeps what makes the rows: of the list being gone through, a first part has been moved and stands in a row that ends where bookmarks are put; of every other list, all or nothing |
| `BookmarkRows.InnerComesBehind` | src/bookmarks/dialogs.c:552-555 | The smallest case where bookmarks do not end in the order in which they are come to |
| `Bookmarks.DepthBounded` | src/bookmarks/dialogs.c:471-559 | No forest is deeper than it has nodes, which is why the recursion ends |
| `ListboxWalks.Traverse` | src/bfu/listbox.c:121-260 | A walk by any offset, from a shown or hidden item, ends at the one item that is so many rows away, or at the end of the box; what calc_dist and test_search count on the way, exactly |
| `ListboxWalks.StepDown` | src/bfu/listbox.c:169-212 | A step down, with its climb and fall back, goes to the next item in order or stops exactly at the last |
| `ListboxWalks.StepUp` | src/bfu/listbox.c:214-246 | A step up goes to the item before, and stops exactly when there is none before that |
| `ListboxWalks.RowHolds` | src/bfu/listbox.c:72-120 | An item is in the row that its predecessors in the folded order say |
| `ListboxWalks.SameRow` | src/bfu/listbox.c:121-260 | A row holds one item, so a walk and the walk back end where the first began |
| `ListboxWalks.LandedOnce` | src/bfu/listbox.c:121-260 | There is only one item that a walk may end at |
| `ListboxWalks.EndsInRow` | src/bfu/listbox.c:300-325 | From shown items the selection ends in the row asked for, or the first or last, and the offset is right exactly under the condition for the window |
| `ListboxWalks.EndsOnce` | src/bfu/listbox.c:276-325 | There is only one state in which moving the selection may end |
| `ListboxWalks.BeginsOnce` | src/bfu/listbox.c:276-325 | There is only one top item and one selected item from which such a move goes on |
| `ListboxItems.AllJoined` | src/bfu/listbox.c:72-120 | What is before an item and what is from it on make up the whole list |
| `ListboxItems.BlockOpen` | src/bfu/listbox.c:229-236 | The last item of an open folder is right before what follows the folder |
| `ListboxWalks.Listbox.SelMove` | src/bfu/listbox.c:276-325 | From any state it ends in just one; from one that is in order, from the beginning, or with a hidden top item: the row of the selected item, and exactly when the recorded offset is right |
| `ListboxWalks.Listbox.ItemOffset` | src/bfu/listbox.c:341-355 | The offset of a shown item is its row |
| `ListboxWalks.Listbox.Select` | src/bfu/listbox.c:357-366 | Selecting a shown item selects just that; the window stays in order exactly under the condition for moving there, so always if it has more than one row |
| `Menus.Menu.ScrollMenu` | src/bfu/menu.c:289-358 | The nested loops end for every menu, selection, step count and mode, at the selection of the specification, which is none or can be selected, with the menu moved no further than it must |
| `Menus.WrapSelects` | src/bfu/menu.c:289-358 | Going around: the item up to which there are as many selectable ones as steps, else the selected one or none; with one step that is the nearest |
| `Menus.AheadAround` | src/bfu/menu.c:316-349 | Wrapping, the walk passes every other item once around |
| `Menus.NoWrapLoses` | src/bfu/menu.c:289-358 | Without wrapping, from a selected item: which item is selected, and exactly when none is |
| `Menus.NoStepsDrop` | src/bfu/menu.c:308-314 | Scrolling by nothing drops what cannot be selected |
| `Menus.TwoStepsFromNone` | src/bfu/menu.c:316-349 | Two steps from no selection that end with none |
| `Menus.NoneSelects` | src/bfu/menu.c:289-358 | From no selection, any number of steps in either direction, wrapping or not: what is selected, and exactly when nothing is |
| `Menus.Menu.SetMenuSelection` | src/bfu/menu.c:360-381 | The selection is in the box, with the margin around it unless the menu ends there, and the menu has moved no further than it must |
| `TextLayout.SplitLine` | src/bfu/text.c:40-150 | The loop finds the length of the first line, and as many cells |
| `TextLayout.SplitWidest` | src/bfu/text.c:40-150 | The line is the longest that ends at a break and fits; a word that does not fit is cut after the last punctuation or at the width |
| `TextLayout.LinesCover` | src/bfu/text.c:157-214 | Lines and what is between them make up the text; between two lines at most one white-space character is dropped |
| `TextLayout.LinesFit` | src/bfu/text.c:217-269 | No line is wider than allowed or contains a line end, except one that is just that |
| `TextLayout.ScrolledLines` | src/bfu/text.c:217-269 | Formatting from the start of a line gives that line and the later ones |
| `TextLayout.ScrolledDraws` | src/bfu/text.c:217-269 | Drawing the text from the start of a line draws that line and the later ones, as in the whole text |
| `TextLayout.WindowExactly` | src/bfu/text.c:292-359 | From the start of a line, cut where the code cuts: the text has just the lines of the window, the last with at most one white-space character more, exactly unless the cut is inside of a word that then fits on the line before, or behind an empty line |
| `TextLayout.WindowShows` | src/bfu/text.c:331-345 | The same for every window of a text that has been split into lines |
| `TextLayout.WindowDraws` | src/bfu/text.c:292-359 | What is drawn of a window that is not disturbed: its lines, each on its row |
| `TextLayout.SplitOfCut` | src/bfu/text.c:40-150 | The first line of a text cut anywhere: all of it if it fits and has no line end, and else that of the whole text |
| `TextLayout.EmptyLineLost` | src/bfu/text.c:337-342 | A window whose last line is empty and that shows nothing of it |
| `TextLayout.CutWordMoves` | src/bfu/text.c:331-345 | A text cut inside of a word can have other lines |
| `TextLayout.FormatText` | src/bfu/text.c:217-269 | What is drawn where: each line once, on its row and within the width |
| `TextLayout.ShiftAligns` | src/bfu/text.c:258-264 | A line stands at its margin, or in the middle up to one cell |
| `TextLayout.TextWidget.SplitLines` | src/bfu/text.c:157-214 | The starts of the lines and the width of the widest |
| `Descriptions.WrapOptionDesc` | src/config/conf.c:896-937 | The loop emits the wrapped lines |
| `Descriptions.WrappedKeeps` | src/config/conf.c:896-937 | Nothing is lost: without indentation the output is the text with some spaces turned into line ends |
| `Descriptions.WrappedFits` | src/config/conf.c:896-937 | Every line fits or has no space |
| `Descriptions.ScanFinds` | src/config/conf.c:905-922 | A line ends at the first line end, or at the last space that is not too far, or at the first |
| `Cookies.CompareTells` | src/cookies/cookies.c:143-157 | The comparisons tell order and equality of names, with prefixes first |
| `Cookies.SameIs` | src/cookies/cookies.c:143-157 | Two names are the same exactly if their characters are, up to the case of letters |
| `Cookies.CookieJar.GetCookieServer` | src/cookies/cookies.c:136-188 | The server of that name is found exactly if there is one, and locked; a new one goes where the list stays sorted, and its item likewise |
| `Cookies.InsertedSorted` | src/cookies/cookies.c:175-187 | Putting it in front of the first server that comes after it keeps the order strict |
| `Cookies.CookieJar.DoneCookieServer` | src/cookies/cookies.c:190-200 | A server goes exactly with its last lock |
| `Cookies.CookieJar.DeleteCookie` | src/cookies/cookies.c:202-225 | The cookie goes, and exactly the servers stay that have cookies or are locked |
| `Cookies.CookieJar.InitCookie` | src/cookies/cookies.c:314-341 | A cookie takes over the lock of its caller |
| `Cookies.CookieJar.AcceptCookie` | src/cookies/cookies.c:465-504 | The new cookie is the first; of the others just those of the same name and domain are freed, unless the file is being loaded; the rest stay in order, and just the servers that are still needed |

## Left out

- Allocation failure and the allocator of fragments: allocation succeeds, and only the capacity of a buffer is kept.
- Sizes are unbounded integers; an overflow of `int` or `off_t`, as of the new length of a fragment, is not modelled.
- Address comparison and proxies in the cache are one number per address; expiry, redirects, integrity digests and the
  shrinking of other caches are not part of this model.
- Whether a cache entry is in use is a flag of the entry.
- Options of domains: a `set_domain` command is read as one for an option that is not known, and copied.  Aliases,
  autocreated and template options, and files that include themselves are not modelled either.
- Option types other than numbers and strings: Boolean options are numbers; languages, codepages and colours have names
  that are looked up in tables.
- ConfigRoundTrip.EverySavedTextRestores: speaks of runs that start from a clean file: no name character directly follows
  the value of an option that is deleted in the run; white space, a comment or the end follows an unset number; no copied
  string is continued over a line end; and no command is ended by the end of the text only.  Clean files stay clean; what
  happens to others is said exactly in `OpenEnds` and `TornFiles`.
- Comments and indentation that saving writes, and their translation, are parameters (`Layout`) of each save, and so is
  what the keymaps have to save (`Keys`); `KeymapFiles` says what that is for one keymap, and `Sessions` computes it.
- Included files are given as commands by name, for options; their bind commands, which saving does not look at, are in
  `SystemKeymaps`.  Error messages and line numbers in them are not modelled.
- Keymaps.SavedKeystrokeLoads: does not model bindings to functions of scripts, or a bind command for an action that does
  not exist.
- KeymapStores.EveryKeymapReloads: does not model a system configuration and included bind commands;
  `SystemKeymaps.EverySystemKeymapReloads` does, and `SystemKeymaps.WithoutSystem` connects the conditions.
- Sessions.EverySessionReloads: follows one keymap, without a system configuration and included bind commands, on clean
  files; what other keymaps save is given with each save.
- KeymapFiles.SavedTextBinds: does not model bind commands for actions that do not exist.
- The table of default bindings has each keystroke once and none without an action.
- BookmarkManagers.BookmarkManager.PushMoveButton: does not model a marked destination or more than one marked ancestor
  of it.  The code then may put a folder into itself; `BookmarkSteps.PlacedForest` says when a move does.
- BookmarkManagers.BookmarkManager.DoMoveBookmark: likewise for a destination that is marked or inside of what can be moved.
- BookmarkManagers.BookmarkManager.Relink: does not model the next and previous pointers; a list is a sequence, found by
  the root of a node, as the invariant says it can be.
- Moving the top of open bookmark dialogs, events, redrawing and saving the bookmarks.
- ListboxWalks.Traverse: does not model callbacks that free items or turn the walk around.
- Hierarchies of items are given as lists by parent with the levels; next and previous are found in the lists.
- UTF-8 in text, menus and keystrokes; horizontal menus keep `first`, and drawing is not modelled.
- TextLayout.FormatText: does not model drawing; a call to draw is a value.
- The choice of the window in `dlg_format_text` other than where the text is cut.
- Parsing of cookie headers, domain security, domains for which there are cookies, and the cookie file.
- Timers, terminals, dialogs, mouse and keyboard dispatch, scripting and networking.
