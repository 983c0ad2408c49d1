# What a share scan keeps: a verification project

The scanner walks a remote file tree and prints it, one line for a directory's path and one for an
entry. The print is saved. The next scan reads the save, walks the new tree in step with the old one,
and prints a patch followed by the whole new tree. The spider applies the patch lines to two tables,
`paths` and `files`, or loads the print from scratch when the patch cannot be trusted. Many parts have
to agree for the tables to stay right: old and new positions, ids above all old ones, renumbering at
the end of a directory or of the patch, inserts that are held back, cascading deletes, a save file
that no transaction protects, and several spiders at once. This project models those parts and proves
that they do agree.

## How it is laid out

Pure functions say what is meant; the methods beside them do it as the program does, with loops and
state, and are proved to do the same.

- Trees and lines: `Names`, `Trees`. A dentry tree, its ids, positions, sizes, and what is printed of it.
- Scanning: `Scan` (the recursive scan), `Cycles` (shares in which links lead back up, the recursion
  check, and the finite tree that it lets through), `Fingerprints` (what the digest of a listing tells),
  `Walks` (a walker over such a share, sorting of a listing), `Readdir` (`dt_readdir`), `FullWalk`
  (`dt_walk` over a share), `TreeWalk` (`dt_walk` over a tree in memory), `Traces` (what a walker is asked
  to do, and how deep it gets).
- Comparing: `Diff` (the recursive comparison), `Deltas` (its outcome and the patch lines),
  `DiffLists` (the two list merges), `DiffWalk` and `DiffRun` (the walk in step with the old tree),
  `Reprint`, `Renaming`, `Rescan`.
- Reading a save: `Text`, `Restore`, `Cuts` (saves that were cut short), `DtRead`. The table of open
  directories is `Cuckoo`, over `Places` (where a key goes) and `Displacement` (what an insertion does
  with the keys, and when it ends); `Jamming` tells which files get stuck in it. The digest is `Md5`,
  over `Words` (rotating and mixing), with `KnownDigest` for a value of RFC 1321. `DtDiff` puts the
  scanner's second mode together; `Printing` says what comes out when the old tree's root has an unusual
  name or none, and `NamelessRoot` when that ends the program.
- The database: `Store` (tables, statements, reading of a line), `Image` and `Paths` (a full load),
  `Renumber`, `PatchEntries`, `Listings`, `Middle`, `PatchRun`, `PatchTheorem` (a patch), `Dbinit`
  (`push_path_files` with cursors), `Agreement` (the tables agree; `path_goup`), `Duplicates` (prints that
  violate a key), `Maps`.
- The spider: `LineFields` (taking a line apart), `Cache` and `Quietness` (statements that are held back),
  `ScanShare` (both modes over the cache), `Handshake` (save file, digest, lock, crashes, foreign files,
  several spiders), `Recovery` (the clock, the lock, and the scan after a violated constraint), `Steps` (the
  loops do what the steps of the handshake say), `StuckSaves` (a save that stops all scans).
- FTP dates: `Calendar`.
- Worked examples: `Samples` (one small share, its print, a patch and its tables, character by character).
- Shared helpers: `Wrappers`, `Basics`.

The proof of a patch runs along the comparison's outcome, a `Delta`: which subdirectories went, came or
stayed. `Middle` describes the tables after the patch lines, while some directories still wait for
their renumbering; renumbering any of them settles it and nothing else.

## What is assumed

Names contain no slash, no newline and no zero character, and are distinct within their kind in a
directory; a share does not change during one scan; directories are listed with size 0; ids and counts
stay below the limits of `dt.h`; going to a parent directory succeeds; allocation succeeds; printf prints
a null pointer for a string as `(null)`, and any other access through one ends the program. The digest is
assumed not to collide on the contents that come up in a run; nothing else is assumed of it.

## Three things worth knowing about the code

- Not every truncated save is refused by the reader. Of the beginnings of a save with `n` lines in front
  of the print and `m` lines in all, it accepts the first `k` lines exactly if `k` is `n + 1`, or at least
  `m - 1`, or the share has no subdirectories and `k` is above `n` (`Cuts.AcceptedCuts`,
  `Handshake.CutSave`). The first gives an empty share, a missing last line gives the whole tree under a
  root without size, item count and name, and the third as many of the files as there are lines.
- A save without its last line is harmful. The name of its root is a null pointer, and the path of an old
  directory that is gone cannot be printed without looking at it. Of all beginnings of a save this one
  alone makes the scanner die, and it does so exactly when some directory of the saved tree is not shown
  by the share (`Handshake.CutKills`, `NamelessRoot.FatalIff`; `StuckSaves.GoneDirectoryKills` is an
  instance). The save stays, so that every scan fails as long as that directory is absent and nobody takes
  the save away (`StuckSaves.StuckForGood`), and writing a save only up to its last line is enough to get
  there (`StuckSaves.ShortRunSticks`). The committed tables stay what they were. If nothing is gone but
  the root's size has changed, the line of the root comes out as that of a file named `(null)`.
- `RAISE check_violation` in `push_path_files` cannot be reached as long as the new positions of a
  directory are non-negative and differ from each other (`Dbinit.NeverRaises`).

## Model

| member | source | states |
|---|---|---|
| Names.JoinInjective | scanners/libuguu/dt.c:336-344 | two directories never print the same path: uniqueness of the path text is uniqueness of the list of names |
| Names.LessIsEarlier | scanners/libuguu/dt.c:50-54 | a name comes before another exactly if its character is the smaller one where they first differ, or if it is a proper beginning of the other |
| Walks.OrderedUnique | scanners/libuguu/dt.c:59-88 | entries of distinct names have one sorted order, whatever order they came in |
| Walks.ListSortDirs | scanners/libuguu/dt.c:59-88 | any subdirectories come out in the order of the characters of their names, the smallest first, one of each name, with positions from 0 and consecutive ids, or id 0 when ids are decided later |
| Walks.ListSortFiles | scanners/libuguu/dt.c:59-88 | any files come out in the order of the characters of their names, all of them, each with its size, with consecutive positions from the one given |
| FullWalk.CallSumFiles | scanners/libuguu/dt.c:107-116 | the loop prints one line for each file and returns the sum of their sizes |
| FullWalk.CallSumDirs | scanners/libuguu/dt.c:94-116 | so does the loop over subdirectories |
| FullWalk.SumFiles | scanners/libuguu/dt.c:118-126 | the loop that prints nothing sums the same |
| FullWalk.SumDirs | scanners/libuguu/dt.c:118-126 | and over subdirectories |
| Trees.FilesTotalSums | scanners/libuguu/dt.c:94-126 | the sum of no sizes is 0, of one that size, and that of two lists the sum of both |
| Scan.SizesOfSums | scanners/libuguu/dt.c:94-126 | the same of the sizes of subdirectories |
| Trees.TotalOfSums | scanners/libuguu/dt.c:94-126 | and of the totals of subtrees |
| Trees.TotalIsOfAllFiles | scanners/libuguu/dt.c:94-126 | the total of a tree is the sum over the list of all files at any depth |
| Walks.Walker.GoChild | scanners/libuguu/dt.h:57-73 | may only be asked for when the current directory has been read, and for a name that was read there; a refusal leaves the walker where it is; over a share whose links may lead anywhere |
| Walks.Walker.GoParent | scanners/libuguu/dt.h:57-73 | may never be asked for at the root of the share |
| Readdir.ListingHash | scanners/libuguu/dt.c:201-223 | the digest of a listing is that of the bytes of its names and sizes, directories first |
| Fingerprints.ListingsTell | scanners/libuguu/dt.c:201-223 | two listings are fed as the same bytes exactly if they have the same names and sizes in the same order, a subdirectory being not told from a file of size 0 |
| Readdir.CheckLink | scanners/libuguu/dt.c:209-245 | the listing is emptied exactly when the levels above say so, and what is kept is what is shown of the share |
| Readdir.ReadDir | scanners/libuguu/dt.c:248-294 | the listing does not depend on the order in which the share returns its entries; directories are numbered before files; a directory that looks like a link to one above is empty |
| FullWalk.Context.OnEnter | scanners/libuguu/dt.c:432-455 | reading and printing a directory leaves exactly the rest of the scan to be printed and walked |
| FullWalk.Context.OnLeave | scanners/libuguu/dt.c:472-483 | the lines of the children and the sum of their sizes complete the directory |
| FullWalk.Context.NextChild | scanners/libuguu/dt.c:296-327 | children that cannot be entered are passed as empty directories, and the walk goes to the first that can |
| FullWalk.Context.GoSiblingOrParent | scanners/libuguu/dt.c:296-315 | going on after a directory loses no sibling and ends up above when there is none |
| FullWalk.Context.Walk | scanners/libuguu/dt.c:387-411 | over any share, links upwards included, the loop ends; it prints the lines of the recursive scan, gives the same tree and ids, asks the walker for a depth-first traversal, and leaves it where it was |
| FullWalk.Reverse | scanners/libuguu/dt.c:572-607 | a first scan prints the tree of the share |
| FullWalk.AddTree | scanners/libuguu/dt.c:717-745 | a new subtree is printed as added with the next free ids, by a nested walk that returns |
| Scan.FullScanCanonical | scanners/libuguu/dt.c:572-607 | a scanned tree is sorted and numbered without gaps at every level, its ids are unique, and every size is the sum of the file sizes below |
| TreeWalk.Walk | scanners/libuguu/dt.c:387-411 | over a tree in memory the same loop prints every directory once, opening and closing lines in place |
| TreeWalk.ReverseP | scanners/libuguu/dt.c:609-630 | reprinting a tree gives its print |
| TreeWalk.DeleteTree | scanners/libuguu/dt.c:694-715 | a subtree that is gone is printed by the paths of all its directories and one entry line |
| Traces.TraceNested | scanners/libuguu/dt.h:57-73 | enters and leaves of a full walk are nested, each done from the directory it must be done from, by names that were read there before, and never lead above the start |
| Traces.DiffTraceNested | scanners/libuguu/dt.h:57-73 | the same for a walk in step with an old tree, nested walks of new subtrees included |
| Traces.EachReadOnce | scanners/libuguu/dt.h:65-73 | every directory that can be entered is read exactly once, by a first scan and by a comparison with any old tree |
| Traces.WalkDepth | scanners/libuguu/dt.c:225-245 | with q different listings, no directory that a first scan or a comparison reads lies deeper than q^5 + 5, whatever its links |
| Cycles.RecursiveLink | scanners/libuguu/dt.c:209-245 | the nested loops find a match exactly if some directory above repeats the listings that end here, up to the threshold |
| Cycles.RecursiveIsRepeats | scanners/libuguu/dt.c:225-245 | the check finds a link exactly if the last n digests, for some n, are also the n digests that end at a level above, and the listings of those last n levels have 5 items or more together |
| Cycles.ShownWhole | scanners/libuguu/dt.c:225-294 | a directory in which no run of listings repeats in this way, at any depth, is shown with all its entries: no ordinary directory is taken for a link |
| Cycles.DepthBound | scanners/libuguu/dt.c:225-245 | levels that pass the check, with q different digests among them, are fewer than q^5 + 5 |
| Cycles.EnterDepth | scanners/libuguu/dt.c:225-245 | what is shown of a share with q different listings is at most q^5 + 5 directories deep |
| Cycles.EnterProper | scanners/libuguu/dt.c:287-294 | what is shown of any share, cyclic or not, is a finite tree of sorted listings |
| DiffLists.Once.Print | scanners/libuguu/dt.c:360-372 | the line that marks a directory as modified is printed once |
| DiffLists.ListDiffChilds | scanners/libuguu/dt.c:749-796 | the loops print gone and new subtrees in the order of the merge, leave the old children that stay and the new children with their ids, and walk only new subtrees; without a name of the old root the program dies at the first old directory that is gone |
| DiffLists.ListDiff | scanners/libuguu/dt.c:651-692 | the loops print exactly the files that went, came or changed their size, under old and new positions |
| DiffLists.KeptInStep | scanners/libuguu/dt.c:747-796 | what is left of the old list are the new children that are not new subtrees: same names, same ids, same order |
| DiffRun.Context.OnEnter | scanners/libuguu/dt.c:804-810 | entering a directory in both trees prints what the patch says of it before its subdirectories, and keeps the trees in step |
| DiffRun.Context.OnLeave | scanners/libuguu/dt.c:811-820 | a new size or count is printed under the old position |
| DiffRun.Context.GoKept | scanners/libuguu/dt.c:834-850 | a child that stays is entered in both trees, or emptied in place when it cannot be entered |
| DiffRun.Context.GoSiblingOrParent | scanners/libuguu/dt.c:859-897 | old and new directory stay the same path and id when the walk moves on or up |
| DiffRun.Context.Walk | scanners/libuguu/dt.c:387-411 | over any share, links upwards included, the walk in step with an old tree ends, prints exactly the patch, and arrives at the new tree; or the program dies at the first line about a directory that is gone |
| DtDiff.DtDiff | scanners/libuguu/dt.c:909-961 | from the text of any file: header, patch and new tree when it can be read, the print of a first scan when it cannot; and exactly when the program dies on the way |
| Samples.SampleScan | scanners/libuguu/dt.c:572-607 | the tree of a share with a file and two directories: ids, positions, counts and sizes |
| Samples.SampleText | scanners/libuguu/dt.c:336-385 | its print, character by character |
| Samples.SampleDelta | scanners/libuguu/dt.c:749-897 | what a later scan finds: a file that has grown, a directory that is gone and one that is new |
| Samples.SamplePatch | scanners/libuguu/dt.c:651-897 | the lines of the patch between the two |
| Samples.Marks | scanners/libuguu/dt.c:346-385 | a patch line is the plain line behind its sign and a space |
| Samples.EntryText | scanners/libuguu/dt.c:374-385 | the six fields of an entry and its name, in order, in decimal, with single spaces |
| Samples.SampleTables | bin/dbinit.py:118-143 | the rows of the sample, column by column |
| Samples.OddLines | scanners/libuguu/dtread.c:53-167 | lines that no scan prints are refused, skipped or taken as the program takes them |
| Samples.ShortEntry | scanners/libuguu/dtread.c:74-110 | an entry needs the space in front of its name, but no name |
| Samples.NullText | scanners/libuguu/dt.c:374-385 | a changed old root that has no name and no type comes out as a file called (null) |
| NamelessRoot.FatalIff | scanners/libuguu/dt.c:336-344 | a scan in step with an old tree dies exactly when the old root has no name and some directory of the old tree is not shown by the share |
| Printing.ShownAsAsked | scanners/libuguu/dt.c:336-358 | under an old root of the empty name, the paths of old directories come out as they are in the tree |
| Diff.DiffSound | scanners/libuguu/dt.c:749-897 | for every old tree and every listing: directories that stay keep name and id, new ids lie above all old ones, no id or path stands for two directories, the new tree is canonical with true sizes |
| Reprint.ReprintIsScan | misc/save/README:43-48 | the tree printed after a patch is the one a first scan would print, directory ids aside |
| Renaming.ReprintRenamesScan | misc/save/README:43-48 | and the ids differ by a one-to-one renaming |
| Reprint.UnchangedShare | scanners/libuguu/dt.c:909-961 | a share that has not changed yields an empty patch and the same print, ids included |
| Rescan.DiffGood | scanners/libuguu/dt.c:909-961 | compared with any tree of unique known ids, the tree that a scan that comes to its end prints is canonical with unique ids and true sizes |
| Rescan.AnyDiffGood | scanners/libuguu/dt.c:909-961 | compared with any tree at all, it has no fault but perhaps that two directories share an id |
| Rescan.TameTree | scanners/libuguu/dtread.c:169-229 | whatever beginning of a print is read as a tree has unique ids, none above the largest one returned |
| Text.TellsFormat | scanners/libuguu/dtread.c:43-110 | a printed line is taken apart into the numbers and the name it was printed from, spaces in the name included |
| Restore.ReadsPrint | scanners/libuguu/dtread.c:169-229 | reading a print, with a patch in front or not, gives back the same tree and its largest id |
| Restore.ReadsText | scanners/libuguu/dtread.c:169-229 | the same down to the characters of the file |
| Restore.TableHoldsWaiting | scanners/libuguu/dtread.c:132-155 | after any lines whatever, the table holds exactly the directories opened and not linked to a parent since |
| Cuts.AcceptedCuts | scanners/libuguu/dtread.c:205-217 | the exact condition under which a truncated save is accepted, and the root that each accepted one gives |
| Handshake.CutSave | scanners/libuguu/dtread.c:205-217 | the same of the lines of the file, header included |
| DtRead.Reader.ReadLine | scanners/libuguu/dtread.c:43-167 | one line changes the table of open directories as specified, fails exactly where it should, and gets stuck exactly where its insertion or deletion does |
| DtRead.ReadFile | scanners/libuguu/dtread.c:169-229 | the loop over characters returns the tree that the complete lines describe, its largest id, and the digest of exactly those lines; it gets stuck exactly on the files whose lines do so in the table |
| Jamming.JamsWithLess | scanners/libuguu/dtread.c:169-229 | a file that gets stuck with many rehashes allowed does so with fewer, so that what is allowed decides only whether a file is read, not what is read |
| Jamming.NarrowNeverJams | scanners/libuguu/dtread.c:169-229 | no file gets stuck in which never more than two directories wait at a time |
| Steps.SmallShareReads | scanners/libuguu/dtread.c:169-229 | nor does the save of any share with at most one subdirectory |
| Places.IndexBelow | scanners/libuguu/cuckoo.c:21-24 | an index of `log` bits fits the table |
| Places.ProductIs | scanners/libuguu/cuckoo.c:21-24 | what is multiplied is the product of multiplier and key, less a multiple of 2^32 |
| Places.IndexIsTop | scanners/libuguu/cuckoo.c:21-24 | it is the product of 32 bits without its low bits |
| Cuckoo.Table.constructor | scanners/libuguu/cuckoo.c:33-61 | a new table is empty, of the given size |
| Cuckoo.Table.SetSeed | scanners/libuguu/cuckoo.c:14-31 | both multipliers come from the seed and are odd 32-bit words |
| Places.OddProducts | scanners/libuguu/cuckoo.c:21-31 | with such a multiplier no two 32-bit keys have the same product; they share an index only because low bits are dropped |
| Cuckoo.Table.Lookup | scanners/libuguu/cuckoo.c:70-81 | the data of a key that is there, nothing for any other |
| Cuckoo.Table.Present | scanners/libuguu/cuckoo.c:84-95 | true exactly for the keys that are there |
| Cuckoo.Table.Displace | scanners/libuguu/cuckoo.c:153-172 | a displacement chain adds the new binding, or all but one cell; one is left over exactly if the walk of displacements meets no free place in 6 steps for each bit of the table's size |
| Displacement.LeftOver | scanners/libuguu/cuckoo.c:153-172 | n rounds leave a key over exactly if there is a chain of 2n displacements, in the first and in the second table in turn, none of which meets a free place |
| Displacement.InsertedFirst | scanners/libuguu/cuckoo.c:153-159 | a key whose own place is free is put there, and nothing else happens |
| Displacement.InsertedSecond | scanners/libuguu/cuckoo.c:153-172 | if the one who has its place finds the other place free, the two go there, and nothing else happens |
| Displacement.InsertedFew | scanners/libuguu/cuckoo.c:150-177 | into a table of at most one entry any other key goes, whatever the multipliers are, the table growing or not |
| Displacement.DeletedFew | scanners/libuguu/cuckoo.c:180-198 | a deletion that leaves at most one entry is carried out |
| Displacement.InsertedWithMore | scanners/libuguu/cuckoo.c:133-177 | how many rehashes are allowed makes a difference only where they do not suffice |
| Cuckoo.Table.MoveTo | scanners/libuguu/cuckoo.c:98-111 | moving into a table of sufficient size keeps every binding and never grows it |
| Cuckoo.Table.Rehash | scanners/libuguu/cuckoo.c:114-130 | a rehash keeps every binding |
| Cuckoo.Table.Insert | scanners/libuguu/cuckoo.c:133-177 | a new key adds one binding, key 0 and present keys are rejected without a change; the table grows when full and stays as small as its entries allow; the insertion is carried out whenever the key's own place is free, or the other place of the one who has it, or there is at most one entry, and stops at 29 bits when full |
| Cuckoo.Table.Delete | scanners/libuguu/cuckoo.c:180-198 | exactly the key goes; the table shrinks to as small as its entries allow |
| Cuckoo.SizedIsDigits | scanners/libuguu/cuckoo.c:150-196 | the size kept by insertions and deletions is the number of binary digits of the count |
| Md5.TablesAgree | scanners/libuguu/umd5.c:37-49 | the word and shift each macro takes are those of the tables in section 3.4 of RFC 1321 |
| Words.RolValue | scanners/libuguu/umd5.c:51-54 | rotating by s bits makes v * 2^s mod 2^32 + v / 2^(32 - s) of the number v that the bits stand for, for all s below 32 |
| Words.ChoiceF | scanners/libuguu/umd5.c:37 | on any bits F is its second argument where the first has ones and the third where it has zeros |
| Words.ChoiceG | scanners/libuguu/umd5.c:38 | G is its first argument where the third has ones and the second where it has zeros |
| Words.ChoiceH | scanners/libuguu/umd5.c:39 | H is its third argument where the first two agree and its complement where they differ |
| Words.ChoiceI | scanners/libuguu/umd5.c:40 | I is the complement of its second argument where the first has ones or the third zeros, and that argument elsewhere |
| KnownDigest.EmptyDigest | scanners/libuguu/umd5.c:14-188 | the digest of the empty message is the one of section A.5 of RFC 1321, by way of all 64 operations |
| Handshake.EmptyHex | bin/spider.py:244-247 | written in hexadecimal it is d41d8cd98f00b204e9800998ecf8427e |
| Handshake.HexDigitIs | scanners/libuguu/dt.c:899-907 | hexadecimal digits are 0 to 9 and a to f, in lower case |
| Md5.ReadWrite | scanners/libuguu/umd5.c:56-70 | the bytes written are the base 256 digits of the word, lowest first, and are read back |
| Md5.TwoWords | scanners/libuguu/umd5.c:168-171 | a 64-bit number that is written as two words lies in memory digit by digit to the base 256 |
| Md5.Round | scanners/libuguu/umd5.c:82-105 | each loop does the sixteen operations of its round |
| Md5.Context.UpdateBlock | scanners/libuguu/umd5.c:72-111 | a block is compressed as in section 3.4 of RFC 1321 |
| Md5.Context.Update | scanners/libuguu/umd5.c:124-151 | the state depends on the bytes fed so far and not on how they were cut into calls |
| Md5.PaddingFits | scanners/libuguu/umd5.c:153-173 | padding takes 9 to 72 bytes, ends on a block boundary, and is the shortest that does |
| Md5.Pad | scanners/libuguu/umd5.c:153-173 | the loops build the padding of sections 3.1 and 3.2 of RFC 1321 |
| Md5.Context.Finish | scanners/libuguu/umd5.c:153-173 | finishing feeds the padding |
| Md5.Context.Value | scanners/libuguu/umd5.c:175-183 | the value is the digest of what was fed before finishing |
| Paths.LoadGivesImage | bin/spider.py:263-267 | reading a print as additions gives exactly the rows of its tree, and its size |
| Renumber.PushListing | bin/dbinit.py:211-258 | the survivors keep their order and take exactly the positions left free; positions end up as the scan numbered them, back references included |
| PatchRun.DeltaRun | bin/spider.py:109-181 | the lines of one directory's delta turn its old rows into its new ones, save for the directories that wait for renumbering |
| PatchTheorem.PatchGivesImage | bin/spider.py:255-261 | patching never fails, and in whatever order the remaining directories are renumbered the tables become those of the new tree |
| PatchTheorem.PatchRefinesReload | bin/spider.py:248-268 | for every old and every new tree, patching gives the same tables as loading the reprint from scratch |
| Dbinit.NeverRaises | bin/dbinit.py:231-239 | the check violation cannot come up when new positions are distinct and non-negative |
| Dbinit.PlacesApart | bin/dbinit.py:225-251 | the places given to old rows rise and avoid every new position |
| Dbinit.Database.Renumber | bin/dbinit.py:225-251 | the cursor loop moves every old row and back reference to its place, or raises |
| Dbinit.Database.PushPathFiles | bin/dbinit.py:211-258 | on the flat table under file ids, the procedure does what renumbering says of the tables |
| Agreement.ImageAgrees | bin/dbinit.py:118-143 | every `paths` row but the root's points at the one `files` row of its directory, with its size and name; `items` counts the rows |
| Agreement.PathGoup | bin/dbinit.py:184-209 | the k-th ancestor and the position below it; an exception exactly when there is none or no such path |
| Cache.SendFirst | bin/spider.py:74-92 | a statement that does not touch the directories concerned can be sent before the inserts that wait |
| Cache.PsycoCache.Append | bin/spider.py:74-81 | the tables are, with what is held back, what they would be if everything were sent at once; up to 1024 statements are held back |
| Cache.PsycoCache.FAppend | bin/spider.py:82-85 | the same when an insert is held back, of which there are up to 1024 |
| Cache.PsycoCache.FCommit | bin/spider.py:86-92 | nothing is held back any more |
| Quietness.PatchQuiet | bin/spider.py:159-169 | no line of a patch comes back to a directory that an earlier line has added |
| Quietness.PrintQuiet | bin/spider.py:263-267 | nor does a line of a print |
| Quietness.DeltaPatch | scanners/libuguu/dtread.c:158-161 | every patch line is marked, so that readers of the print skip it |
| ScanShare.LineReader.ScanLinePatch | bin/spider.py:109-181 | one line through the cache has the effect of its statements run at once |
| LineFields.TakesApartFormat | bin/spider.py:109-146 | splitting a printed patch line, with the maximum number of splits, gives back its fields, spaces in names and paths included |
| LineFields.TakesApartPrint | bin/spider.py:263-267 | so does splitting a line of a print with a plus put in front |
| ScanShare.LineReader.PushAll | bin/spider.py:259-261 | what is left is renumbered in some order of the buffer, and any order gives the same tables |
| ScanShare.PatchTables | bin/spider.py:248-268 | patching mode through the cache turns the old tree's tables into the new tree's |
| ScanShare.LoadTables | bin/spider.py:262-268 | full mode through the cache gives the tree's tables |
| Handshake.SaveReadsBack | scanners/libuguu/dtread.c:169-229 | a complete save is read back as the tree that was printed |
| Handshake.ScanGood | scanners/libuguu/dt.c:944-951 | whatever beginning of a save the scanner finds, it dies or what it prints can be loaded |
| Handshake.AnyScan | scanners/libuguu/dt.c:944-951 | whatever file it finds, it dies or what it prints has no fault but perhaps a shared id |
| Handshake.CutKills | scanners/libuguu/dt.c:694-715 | the exact condition under which a beginning of a save makes the scanner die |
| StuckSaves.GoneDirectoryKills | scanners/libuguu/dt.c:767-786 | a share whose only subdirectory is gone, and a save without its last line, end the scanner |
| StuckSaves.StuckForGood | bin/spider.py:231-238 | from such a save on all scans fail, whoever makes them, as long as the directory is absent and the save stays |
| StuckSaves.ShortRunSticks | bin/spider.py:270-288 | a first scan whose save is not written to the end, and that is committed all the same, gets any share with a subdirectory there |
| Steps.RunTheScanner | scanners/libuguu/dt.c:909-961 | header, lines and death of the loops of the scanner are those of the handshake's scan step, for any save or none, unless the save is one that gets stuck in the reader's table |
| Handshake.FirstLineIsHeader | bin/spider.py:244-247 | the first line of an output is the committed digest exactly when the output is a patch with that header |
| Steps.UpdateTables | bin/spider.py:235-268 | mode, tables and size that the loops of the spider arrive at are those of the handshake's apply step, for the order in which the buffer is iterated, when no two directories of the print share an id |
| Handshake.StepKeeps | bin/spider.py:183-288 | every step of every spider, crash, failed scan, deletion, recovery and foreign file keeps the invariant |
| Handshake.AlwaysFaithful | bin/spider.py:243-288 | over all runs, whatever files anybody puts in the place of the save, the committed tables are those of the tree whose output's digest is committed, and the share's size is the sum of its file sizes |
| Handshake.PatchesMatch | bin/spider.py:244-258 | a patch is committed only when it was made against the tree that the database holds |
| Handshake.OneAtATime | bin/spider.py:187-196 | no two spiders are between lock and commit |
| Handshake.UpdateFails | bin/spider.py:339-349 | over all runs, an update violates a constraint exactly when it loads a print in which two directories share an id |
| Handshake.UpdatesSucceed | bin/spider.py:339-349 | no update violates a constraint unless somebody has put a foreign file in the place of the save |
| Recovery.TimeBetweenScans | bin/spider.py:315-332 | between two scans that are begun, whoever begins them, the time set for the second has come |
| Recovery.TimeAfterCommit | bin/spider.py:281-332 | and so it has between the commit of a scan and the next one |
| Recovery.LockIsHeld | bin/spider.py:187-196 | who has the lock is between lock and commit: no commit, crash, failed scan or failed update leaves one behind |
| Recovery.SaveRotates | bin/spider.py:270-280 | the save of the last scan is kept beside the new one |
| Recovery.SavesPutAside | bin/spider.py:339-349 | after a violated constraint neither save is left in its place |
| Recovery.ScanWithoutSave | bin/spider.py:235-288 | without a save and with nobody in the way a scan is a first scan, its update violates no constraint, and tree, tables, digest, size and save become its own |
| Recovery.RecoversFully | bin/spider.py:235-349 | so the scan after a violated constraint sets things right |
| Duplicates.LoadsUnique | bin/dbinit.py:118-143 | a print in which two directories share an id violates the key of `paths` |
| Handshake.AlwaysAgrees | bin/dbinit.py:118-143 | over all runs the two tables agree with each other |
| Calendar.Totai | scanners/curlftpscan/ftpparse.c:27-45 | 86400 times the number of days since 1970-01-01 of a date, and for which dates before March of the year 0 it is a day more |
| Calendar.CurrentYear | scanners/curlftpscan/ftpparse.c:66-95 | the year in which a time falls |
| Calendar.YearOfDate | scanners/curlftpscan/ftpparse.c:75-92 | a date lies in its own year, so that the two invert each other |
| Calendar.KnownDays | scanners/curlftpscan/ftpparse.c:27-45 | the numbers of the epoch, of leap days and of others, and that 1900 and 2100 have no 29th of February |
| Calendar.GuessTai | scanners/curlftpscan/ftpparse.c:101-113 | the loop ends within three tries, less than 350 days ago and at most 16 days ahead |

## Left out

- Cuckoo.Table.Insert: the program rehashes as often as a key is left over; the model stops when that has happened `fuel` times in a row, and then promises a valid table only. Which insertions this concerns is `Displacement.LeftOver` and `Jamming.Jams`, functions of the keys alone; that the program comes to an end on all of them is not proved. Stopping by the assertion on the table's size has the same outcome.
- Places.IndexBelow: keys are numbers of any size; the ids that the program uses as keys stay below 32 bits.
- Cuckoo.Table.Lookup: key 0, which marks free cells and is never asked for, is excluded.
- Cuckoo.Table.Delete: key 0 and a table of size 1 are excluded; the program's shift by log - 1 is undefined there.
- Cuckoo.Table.Replace: data that the program changes through a pointer obtained from the table is changed in the table's cell; one cell refers to one datum.
- Words.RolValue: the number of a word is the sum over its bits; that it is what Dafny's conversion of a bit-vector gives is not stated.
- Text.TellsFormat: text that no scanner prints (signs, leading blanks, numbers beyond 32 bits) is not followed into `sscanf`.
- FullWalk.Context.Walk: dentries are values in a stack of frames, not heap nodes linked by pointers; freeing of lists is not modelled. A failing return to the parent directory, which ends the program, does not occur.
- Readdir.ReadDir: the limits on ids and on the entries of a directory, and two directories or files of one name in a listing, are excluded by assumption. A directory that cannot be read, or whose listing breaks off, shows what it shows.
- DtDiff.DtDiff: in the model the new root has the old root's name until the walk ends, in the program the empty name from the start; no path of a new directory is formed from it in either. What a scanner that dies has printed before is not followed further: the spider discards it.
- DtRead.Reader.ReadLine: as for `Text.TellsFormat`, numbers are read as they are printed.
- DtRead.ReadFile: the same.
- Steps.UpdateTables: how the exception of a violated key travels through the cache is not modelled; that it is raised is `Handshake.UpdateFails`.
- LineFields.TakesApartFormat: `int` reads digits only, as they are printed; the replacement of text that is not UTF-8 is not modelled.
- DiffLists.ListDiff: the three loops of the program are one loop with the same steps.
- Store.Exec: one tree only, so that `tree_id` is not a column; text search columns, file types, `created` and UTF-8 fallback are no part of a row. A second row at one position of a listing counts as an error although the schema allows it.
- Dbinit.Database.Insert: two rows of `newfiles` at the same position are excluded.
- Handshake.AlwaysFaithful: one share; others use other rows and files. Contents are sequences of complete lines, which is all that either side reads. A share whose row is deleted is excluded, and so are files that change while they are being read.
- Calendar.GuessTai: the 29th of February, which not every year has, and times before the year 2 are excluded; `base` is 0 and `now` a parameter.
- Walkers of the protocols, the rest of `ftpparse`, `dt_full`'s format, logging, name resolution, the limit on scanner output beyond its being a failed scan, web views and search.
