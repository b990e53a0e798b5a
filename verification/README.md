# Proofs about the course programs

Dafny models of the programs in this repository whose correctness rests on an invariant, with
proofs that the invariant holds and of what follows from it. `dafny verify dfyconfig.toml` checks
everything.

## What is modelled

**The hash database** (`apue.3e/db/db.c`). A key/value store over two byte files: a free-list
pointer, the chain heads and variable-length ASCII records in one, newline-terminated data in the
other. The model has four layers.

- `Decimal`, `IndexFormat`: numbers in fixed-width fields, and the text of a record with the
  parser that reads it, over all byte strings.
- `IndexFile`, `Extents`: a file as a gapless sequence of records, and data extents that do not
  overlap. Each write is shown to change the one piece it is meant for.
- `Chains`, `Operations`, `FileOrder`: which list every record is on. The lists are sequences of
  offsets, so that walks end although reused records make offsets go up and down along a chain.
- `Database`, `Runs`: the handle as a class with the library's fields, whose methods update the
  bytes of the two files in place, and whole runs against a map from keys to data.

A second model of the same library has any number of processes take steps of one system call
each, a granted lock among them, on the pointers, records and data of the two files.
`Concurrency` is the processes, `Interleaving` what each of them knows while others go on, `Safety`
what each step keeps, and `Protocol` what holds of all runs: contents agree with the operations in
the order in which they gave up their locks, and no deadlock can be reached. The state of the
locks is a function of where the processes are. `SystemCalls` brings the model down to bytes:
each step is at most one write to each file, after which the bytes say what the state says, by the
lemmas of the sequential layers, and what a process reads there is what its step takes from the
state; `Protocol.RunOnFiles` puts this together for whole runs. `Progress` bounds the steps that
one call takes.

**The other programs**, one module each: `Rot13` (copying with asynchronous I/O against the plain
loop), `TreeWalk` (`ftw8.c`: descending a hierarchy with one shared path buffer), `ScanBuffer` and
`InodeCount` (scanner and counter thread with a ring buffer), `MemStream` (`fmemopen`), `NodePool`
(a linked list in shared memory), `SelectServer` (a server waiting with `select`), `Feedback` (a
server that prunes its history) and `Alternation` (parent and child taking turns over pipes).
Sizes and counts that are constants in C (chains, buffers, slots, nodes, loops) are parameters.
`Common` has the declarations that several of them share.

What comes from outside is a parameter: the order in which asynchronous operations complete, the
schedule of processes and threads, what `select` and `accept` return, the clock, what `lstat` and
`opendir` say. Strings are sequences of characters; the hash reads them as signed bytes and wraps
at 64 bits.

## What the code does not do

Some statements one would like to make are not true of the code, or not without a condition.
`Shortcomings` runs the inputs that show it.

- A key that contains `:` can be stored, but its record can never be read again
  (`IndexFormat.ReadableIffNoSeparator`): every call that comes to it on a chain ends its process
  (`Database.WalkDies`; `Shortcomings.SeparatorKeyUnreadable`), and so does a scan
  (`FileOrder.Clean`). Without such a key no walk dies (`Database.WalkLives`).
- `db_store` ends the process when the data is too short or too long, or when a record that has to
  be appended is too long or too short or starts beyond what a seven-digit pointer can say;
  `Database.StoreDies` is the exact condition. A record with an empty key can be too short: an
  offset and a length of one digit each leave a body of five characters, less than the least
  legal length of six (`Database.EmptyKeyDies`). `Runs.Affordable` is a condition a caller can
  check before a run.
- A replacement whose new record cannot be appended has deleted the old one by then: the key is
  lost (`Database.MapAfterDeath`; `Shortcomings.LongKeyLost`).
- `db_nextrec` passes over a live record whose key is all blanks, although `db_fetch` finds it
  (`FileOrder.ScanIsContents`; `Shortcomings.BlankKeyUnseen`). In the same way a blank key is no
  sign that a record is free (`Operations.Partition`).
- A write-only memory stream that is full has lost its last character to the terminating NUL
  (`MemStream.Stream.Holds`; `Shortcomings.LastCharacterLost`).
- An unreadable directory is reported under its path with a slash added (`TreeWalk.Visit`;
  `Shortcomings.SlashAdded`).
- When the inode table is full, later inodes are counted each time they are met
  (`InodeCount.Recounted` is the amount, `InodeCount.RepeatsKnown` says exactly when it is
  nothing; `Shortcomings.CountedTwice`).
- A feedback message that finds the array full is dropped from the windows but counted in the
  totals; `Feedback.Fits` says exactly when none is (`Shortcomings.BurstDoesNotFit`).
- With an odd number of rounds the shared counter ends one higher than the number, because parent
  and child run equally many rounds (`Alternation.Over`; `Shortcomings.OddCounter`).

## Model

| member | source | states |
|---|---|---|
| Runs.Run | Programmazione di Sistema/SNP2024/apue.3e/db/db.c:233-746 | Whatever handles the calls of fetch, store and delete go through: each fetch answers the data or nothing, each delete 0 or -1, each insert of a key that is there 1, each replacement of one that is not -1, each unknown flag -1 and every other store 0, and the map changes exactly with those that answer 0, up to the end of the run or to a call that ends its process; with keys of 1 to 1010 characters without ':', data of 1 to 1023 and 1035 and 1024 bytes to spare for each call no call dies; one that does leaves the map as it was or without its key |
| Runs.RunFresh | Programmazione di Sistema/SNP2024/apue.3e/db/db.c:84-746 | On a newly created database the same answers, from an empty map on, and the counters account for every live, free and existing record |
| Runs.Perform | Programmazione di Sistema/SNP2024/apue.3e/db/db.c:233-746 | One call: its answer and what becomes of the map, for each operation and flag; it dies exactly when its walk comes to a record that cannot be read or a store meets the stated condition, and what is left then is the old map or the old map without the key |
| Runs.PerformSafely | Programmazione di Sistema/SNP2024/apue.3e/db/db.c:407-746 | With legal lengths, no key in the database that contains the separator and room for one more record a call returns |
| Runs.StepIs | Programmazione di Sistema/SNP2024/apue.3e/db/db.c:233-746 | The answer and the new map of each operation of the abstract database, in full |
| Runs.RunIs | Programmazione di Sistema/SNP2024/apue.3e/db/db.c:233-746 | Answer n of a run and the map after it, from the map before it |
| Runs.AffordableIs | Programmazione di Sistema/SNP2024/apue.3e/db/db.c:567-600 | The condition a caller can check, in numbers |
| Runs.AffordableIsSafe | Programmazione di Sistema/SNP2024/apue.3e/db/db.c:407-746 | What a caller can check before a run, legal lengths and room for one record per call, makes every call of the run safe |
| Runs.OtherKeysKept | Programmazione di Sistema/SNP2024/apue.3e/db/db.c:440-746 | A call on one key leaves every other key present or absent as it was, with its value |
| Protocol.RunsAreSafe | Programmazione di Sistema/SNP2024/apue.3e/db/db.c:233-805 | Every run of any number of processes, interleaved at system calls, keeps the invariant: lists, exclusive locks, contents that agree with the completed operations; and in the files as they are, also while a deletion is under way, pointers are in range and data extents apart |
| Protocol.RunOnFiles | Programmazione di Sistema/SNP2024/apue.3e/db/db.c:233-805 | Every run is a run on bytes: from the files that db_open creates, each step of each process is at most one write to each file, after which the bytes hold the pointers, records and data of the state |
| SystemCalls.StepOnFiles | Programmazione di Sistema/SNP2024/apue.3e/db/db.c:463-805 | One step writes at most once to each file, and the files then hold the new state |
| SystemCalls.StepKeepsFiles | Programmazione di Sistema/SNP2024/apue.3e/db/db.c:463-805 | Every step keeps pointers in range and data extents inside the file and apart |
| SystemCalls.IndexStep | Programmazione di Sistema/SNP2024/apue.3e/db/db.c:567-631 | The one write of a step to the index file leaves every other pointer and record as the state has it |
| SystemCalls.DataStep | Programmazione di Sistema/SNP2024/apue.3e/db/db.c:531-560 | The one write of a step to the data file leaves every other extent as the state has it |
| SystemCalls.DataExtents | Programmazione di Sistema/SNP2024/apue.3e/db/db.c:424-435 | The data file of a state has every record's extent in place, apart from all others, and holding its value |
| SystemCalls.ReadsFindTheState | Programmazione di Sistema/SNP2024/apue.3e/db/db.c:323-435 | The bytes of the files of a state read as its pointers, records and data |
| SystemCalls.WalkReads | Programmazione di Sistema/SNP2024/apue.3e/db/db.c:290-296 | A walk along a chain ends its process exactly when the parser refuses the bytes it reads; a walk along the free list never does |
| Safety.StepKeepsInv | Programmazione di Sistema/SNP2024/apue.3e/db/db.c:233-805 | Each single step, local or writing, of any process keeps the invariant on which the locks rest: lists, agreement with the log, what each process knows |
| Protocol.LocksExclude | Programmazione di Sistema/SNP2024/apue.3e/db/db.c:277-282 | Two processes are never both at the free list, both at the end of the data file or both at the end of the index file, and two past the lock of one chain are both fetching |
| Protocol.FirstFitOrNone | Programmazione di Sistema/SNP2024/apue.3e/db/db.c:770-796 | A process takes the first free record with the lengths it wants, and goes on to append only if there is none |
| Protocol.InPlaceOrDeleted | Programmazione di Sistema/SNP2024/apue.3e/db/db.c:712-738 | Data of the same length are written over the old, a store deletes a record only for data of another length, and a record is freed after its data have become blanks |
| Progress.DiesWhen | Programmazione di Sistema/SNP2024/apue.3e/db/db.c:407-408 | A step ends its process exactly at a chain record whose key has a ':', at a record to be appended of less than 6 or more than 1024 characters, or at an offset beyond seven digits |
| Protocol.NoDeadlock | Programmazione di Sistema/SNP2024/apue.3e/db/db.c:277-803 | While some call is under way, some process can take a step |
| Progress.OwnStepsBounded | Programmazione di Sistema/SNP2024/apue.3e/db/db.c:233-805 | Whatever other processes do meanwhile, the number of steps a call takes itself is bounded by its rank at the start and the lengths of the lists it begins to walk along |
| Progress.WalksOnce | Programmazione di Sistema/SNP2024/apue.3e/db/db.c:290-296 | A call begins a walk along its chain at most once, and one along the free list at most once |
| Progress.CallIsShort | Programmazione di Sistema/SNP2024/apue.3e/db/db.c:233-805 | While no list is longer than n a call takes at most 19 + 3n steps itself, whatever the others do |
| Progress.OwnRank | Programmazione di Sistema/SNP2024/apue.3e/db/db.c:233-805 | Each step of a call brings it nearer to its end; only beginning a walk adds the length of the list |
| Progress.OthersRank | Programmazione di Sistema/SNP2024/apue.3e/db/db.c:277-281 | No step of another process puts a call farther from its end, because its lists are locked |
| Progress.ListsKept | Programmazione di Sistema/SNP2024/apue.3e/db/db.c:277-281 | A step changes only lists that its process has locked for writing |
| Protocol.WaitsUpwards | Programmazione di Sistema/SNP2024/apue.3e/db/db.c:277-803 | Every lock held by a waiting process ranks below the one it waits for: chain locks below free-list and append locks |
| Protocol.Blocker | Programmazione di Sistema/SNP2024/apue.3e/db/db.c:277-803 | A process that cannot proceed is waiting for a lock that some other process holds, and one that fetches never waits for another that fetches |
| Protocol.UnlockedChainShowsLog | Programmazione di Sistema/SNP2024/apue.3e/db/db.c:277-281 | A chain that no writer has locked holds, for each key that belongs on it, a record with the data the completed operations left, or none, in the order in which they gave up their locks, and each got the answer of that order |
| Protocol.LogIs | Programmazione di Sistema/SNP2024/apue.3e/db/db.c:233-746 | Event by event: what each completed call answered and made of the map, and that one that died has at most removed its key |
| Protocol.QuietPartition | Programmazione di Sistema/SNP2024/apue.3e/db/db.c:463-805 | With no call under way each record is on exactly one list, or is one that a process had in its hands when it died |
| Protocol.StepHandsOver | Programmazione di Sistema/SNP2024/apue.3e/db/db.c:463-805 | A step moves a record off the lists only into the hands of the process that takes it, and leaves the other processes' records alone |
| Operations.Partition | Programmazione di Sistema/SNP2024/apue.3e/db/db.c:289-300 | At rest every index record is on one list, once: the free list or the chain of its key's hash; it is free exactly when its key is blank and it is not itself stored under that key |
| Operations.DeleteCorrect | Programmazione di Sistema/SNP2024/apue.3e/db/db.c:463-525 | Blanking a record and the three pointer writes of a deletion keep layout, extents and lists, and drop exactly that key from the contents |
| Operations.AppendKey | Programmazione di Sistema/SNP2024/apue.3e/db/db.c:680-687 | A record added at the end of the file and linked at the head of its chain adds exactly that key; nothing else in the index changes |
| Operations.ReuseKey | Programmazione di Sistema/SNP2024/apue.3e/db/db.c:695-697 | A free record of the same sizes, rewritten in place and linked, keeps layout and extents and adds exactly that key |
| Operations.OverwriteKey | Programmazione di Sistema/SNP2024/apue.3e/db/db.c:736 | Data of the same length written over the old changes that key's value and no other |
| Database.DB.Create | Programmazione di Sistema/SNP2024/apue.3e/db/db.c:134-164 | A new index file is nhash + 1 fields of six blanks and a 0 and a newline; it encodes an empty database with a free list and nhash chains, all empty |
| Database.DB.Open | Programmazione di Sistema/SNP2024/apue.3e/db/db.c:84-165 | Another handle on an existing database starts rewound and valid |
| Database.DB.EmptyTable | Programmazione di Sistema/SNP2024/apue.3e/db/db.c:152-157 | The header is nhash + 1 pointer fields of value 0 |
| Database.DB.ReadPtr | Programmazione di Sistema/SNP2024/apue.3e/db/db.c:323-335 | Reads the value of any pointer field, which is in range |
| Database.DB.ReadIdx | Programmazione di Sistema/SNP2024/apue.3e/db/db.c:343-418 | Wherever the position is, the result is what the bytes say; at a record of a well-formed file it is that record, and the process dies exactly when its key contains the separator; the end of the file is told exactly |
| Database.DB.SplitBuffer | Programmazione di Sistema/SNP2024/apue.3e/db/db.c:392-416 | The in-place splitting at the separators succeeds and gives fields exactly as the parser of the format does, on any bytes |
| Database.DB.ReadDat | Programmazione di Sistema/SNP2024/apue.3e/db/db.c:424-435 | Reads the text of an extent up to its newline or a NUL, or dies when the extent is not in the file or does not end in a newline |
| Database.DB.WritePtr | Programmazione di Sistema/SNP2024/apue.3e/db/db.c:618-631 | Writes one pointer field, refusing one over PTR_MAX, and keeps the file well formed |
| Database.DB.WriteDat | Programmazione di Sistema/SNP2024/apue.3e/db/db.c:531-560 | Writes data and newline in place or at the end, and notes offset and length |
| Database.DB.WriteIdx | Programmazione di Sistema/SNP2024/apue.3e/db/db.c:567-612 | Writes one record, in place or at the end, keeps the file well formed; fails exactly when the pointer is out of range or the formatted record has an illegal length |
| Database.DB.HashKey | Programmazione di Sistema/SNP2024/apue.3e/db/db.c:306-317 | The loop computes the hash of the specification |
| Database.DB.FindAndLock | Programmazione di Sistema/SNP2024/apue.3e/db/db.c:259-301 | The chain walk ends, finds the record exactly when the key is in the database, and leaves the buffers and the predecessor's offset for it; it dies exactly when it comes to a record whose key contains the separator |
| Database.WalkLives | Programmazione di Sistema/SNP2024/apue.3e/db/db.c:290-296 | No walk dies in a database without a key that contains the separator |
| Database.DB.Fetch | Programmazione di Sistema/SNP2024/apue.3e/db/db.c:233-253 | Returns the abstract map's value or nothing; the files do not change; dies exactly when its walk does |
| Database.DB.Delete | Programmazione di Sistema/SNP2024/apue.3e/db/db.c:440-456 | Removes the key from the map, returns 0 or -1 by whether it was there, leaves both files as long as they were; dies, changing nothing, exactly when its walk does |
| Database.DB.DoDelete | Programmazione di Sistema/SNP2024/apue.3e/db/db.c:463-525 | Turns key and data into blanks, moves the record to the front of the free list and off its chain; lengths of records and files stay |
| Database.DB.FindFree | Programmazione di Sistema/SNP2024/apue.3e/db/db.c:752-805 | Takes the first free record of both sizes off the free list, or reports -1 exactly when there is none and then changes nothing |
| Database.DB.AppendRecord | Programmazione di Sistema/SNP2024/apue.3e/db/db.c:680-687 | Appends data and record and links it at the head of the chain; succeeds exactly when the record fits the format and the offset a pointer |
| Database.DB.ReuseRecord | Programmazione di Sistema/SNP2024/apue.3e/db/db.c:695-697 | Fills a taken free record with the new key and data and links it; neither file grows |
| Database.DB.AddRecord | Programmazione di Sistema/SNP2024/apue.3e/db/db.c:673-697 | A record of fitting lengths is taken from the free list exactly when there is one, and otherwise one is appended, exactly when that is possible |
| Database.DB.Insert | Programmazione di Sistema/SNP2024/apue.3e/db/db.c:661-699 | A new key goes to a free record when one fits, and then neither file grows; otherwise both grow by the new record; it fails exactly when neither is possible |
| Database.DB.DeleteAndAppend | Programmazione di Sistema/SNP2024/apue.3e/db/db.c:712-730 | Replacement by data of another length: the old record becomes free, a new one is appended, the map gets the new value; when the new one cannot be appended the key is gone |
| Database.DB.OverwriteInPlace | Programmazione di Sistema/SNP2024/apue.3e/db/db.c:736 | Data of the same length is written in place: only that key's value changes |
| Database.DB.Replace | Programmazione di Sistema/SNP2024/apue.3e/db/db.c:707-738 | An existing key gets the new value, in place exactly when the data have the old length, else by deletion and append, and then both files grow; when the append is refused the key is gone |
| Database.DB.Store | Programmazione di Sistema/SNP2024/apue.3e/db/db.c:637-746 | Returns 1 exactly for an insert of a key that is there, -1 exactly for a replacement of one that is not or an unknown flag, else 0, and the map gets the data exactly with 0; ends the process exactly under the stated condition, and then the map is the old one or, for a replacement, lacks the key; neither file grows for a new key that fits a free record or for data of the old length; counters stay in step with the records |
| Database.StoreIs | Programmazione di Sistema/SNP2024/apue.3e/db/db.c:661-740 | The codes and the effect of the abstract store |
| Database.StoreFlags | Programmazione di Sistema/SNP2024/apue.3e/db/apue_db.h:17-19 | The values of the three flags |
| Database.FreeFitsIs | Programmazione di Sistema/SNP2024/apue.3e/db/db.c:770-776 | What it is for a free record to fit: key and data have the lengths wanted |
| Database.RoomToAppend | Programmazione di Sistema/SNP2024/apue.3e/db/db.c:567-600 | A key of 1 to 1010 characters can always be appended while both files are within the largest offset |
| Database.EmptyKeyDies | Programmazione di Sistema/SNP2024/apue.3e/db/db.c:577-582 | A concrete store that ends the process although its data has a legal length: empty key, first record of the file |
| Database.DB.Rewind | Programmazione di Sistema/SNP2024/apue.3e/db/db.c:812-827 | Puts the position on the first record, behind the pointer fields and the newline |
| Database.DB.NextRec | Programmazione di Sistema/SNP2024/apue.3e/db/db.c:835-875 | From any position of the file: the result and the new position are what the bytes from there on say, records with blank keys being passed over, and the counter counts what is returned |
| FileOrder.NextOnBoundary | Programmazione di Sistema/SNP2024/apue.3e/db/db.c:835-875 | At a record boundary those bytes give the next record in file order whose key is not all blanks, nothing when none is ahead, and death when that record cannot be read |
| Database.DB.SkipBlanks | Programmazione di Sistema/SNP2024/apue.3e/db/db.c:861-864 | The loop over the key finds out whether it is all blanks |
| Database.DB.Scan | Programmazione di Sistema/SNP2024/apue.3e/db/db.c:812-875 | Rewind and repeated nextrec return keys of the database that are not all blanks, each once and with its data, in file order: all of them unless one contains ':', where the process may die |
| FileOrder.ScanIsContents | Programmazione di Sistema/SNP2024/apue.3e/db/db.c:812-875 | A scan that meets no such key returns each key of the database with a character other than the blank exactly once, with its value, and no deleted record |
| FileOrder.ScanMeetsAll | Programmazione di Sistema/SNP2024/apue.3e/db/db.c:835-875 | Going from record to record meets every record of the file once, in increasing offsets, and ends at the end of the file |
| Database.DB.BlankData | Programmazione di Sistema/SNP2024/apue.3e/db/db.c:473-475 | The data buffer becomes as many blanks as the data is long |
| Database.DB.BlankKey | Programmazione di Sistema/SNP2024/apue.3e/db/db.c:476-478 | The key in the buffer becomes blanks, up to its NUL |
| IndexFormat.ReadableIffNoSeparator | Programmazione di Sistema/SNP2024/apue.3e/db/db.c:389-418 | A record written can be read back exactly when its key has no separator |
| IndexFormat.BodyRoundTrip | Programmazione di Sistema/SNP2024/apue.3e/db/db.c:392-417 | Parsing a formatted body gives back key, data offset and data length |
| IndexFormat.RecordRoundTrip | Programmazione di Sistema/SNP2024/apue.3e/db/db.c:343-418 | Reading the bytes of a record just written gives back pointer, key, offset and length |
| IndexFormat.PointerRoundTrip | Programmazione di Sistema/SNP2024/apue.3e/db/db.c:323-335 | Reading a pointer field just written gives back the pointer |
| IndexFormat.PrefixWidths | Programmazione di Sistema/SNP2024/apue.3e/db/db.c:587-591 | Pointer and length fields are exactly seven and four characters for all values in use |
| IndexFormat.TooManySeparators | Programmazione di Sistema/SNP2024/apue.3e/db/db.c:407-408 | A key that contains a separator makes the record unreadable |
| IndexFormat.FieldsAreRead | Programmazione di Sistema/SNP2024/apue.3e/db/db.c:392-417 | Any line of key, offset and length with numbers in range is read as these, whatever wrote it |
| IndexFormat.ReadHasFields | Programmazione di Sistema/SNP2024/apue.3e/db/db.c:392-417 | Any line that is read has these three fields: nothing else passes the sanity checks |
| IndexFormat.RecordIs | Programmazione di Sistema/SNP2024/apue.3e/db/db.c:369-393 | Which bytes at a position are read as a record |
| IndexFormat.Formatted | Programmazione di Sistema/SNP2024/apue.3e/db/db.c:577-583 | A record is pointer and length in seven and four characters, key, colon, offset, colon, length and newline |
| IndexFormat.Sample | Programmazione di Sistema/SNP2024/apue.3e/db/db.c:577-583 | One record, byte by byte |
| IndexFormat.Limits | Programmazione di Sistema/SNP2024/apue.3e/db/apue_db.h:24-27 | The sizes and limits of the format |
| IndexFormat.HashIsSum | Programmazione di Sistema/SNP2024/apue.3e/db/db.c:306-317 | The hash is the sum of the characters, from 128 on taken as negative, times their positions from 1, modulo 2^64 and then the number of chains |
| Decimal.AtolOfPadded | Programmazione di Sistema/SNP2024/apue.3e/db/db.c:323-335 | atol() of a number printed right-adjusted in a field is the number |
| Decimal.DigitsIs | Programmazione di Sistema/SNP2024/apue.3e/db/db.c:577-583 | The text of a number, digit by digit |
| Decimal.PaddedIs | Programmazione di Sistema/SNP2024/apue.3e/db/db.c:582-583 | A field is blanks and then the number |
| Decimal.AtolDigit | Programmazione di Sistema/SNP2024/apue.3e/db/db.c:413-415 | One more digit multiplies by ten and adds its value |
| Decimal.AtolIs | Programmazione di Sistema/SNP2024/apue.3e/db/db.c:413-415 | A sign is taken, and the first character that is no digit ends the number |
| Decimal.BlanksInFront | Programmazione di Sistema/SNP2024/apue.3e/db/db.c:332-333 | White space in front of a number makes no difference |
| IndexFile.RewriteCorrect | Programmazione di Sistema/SNP2024/apue.3e/db/db.c:567-612 | Rewriting a record with one of the same size keeps the file a gapless sequence of records and changes no other |
| IndexFile.AppendCorrect | Programmazione di Sistema/SNP2024/apue.3e/db/db.c:567-612 | A record written at the end keeps the old ones and the gapless layout |
| IndexFile.WritePtrCorrect | Programmazione di Sistema/SNP2024/apue.3e/db/db.c:618-631 | Writing a pointer field changes that field only |
| IndexFile.ReadCorrect | Programmazione di Sistema/SNP2024/apue.3e/db/db.c:323-335 | The bytes of a pointer field read as its value |
| IndexFile.ReadSteps | Programmazione di Sistema/SNP2024/apue.3e/db/db.c:343-418 | The bytes at a record give prefix, length and body of that record, all within the file |
| IndexFile.EndOfFile | Programmazione di Sistema/SNP2024/apue.3e/db/db.c:369-372 | At the offset of a record a whole record is there to read, and at the end of the file there is no prefix left |
| IndexFile.FreshCorrect | Programmazione di Sistema/SNP2024/apue.3e/db/db.c:134-160 | The bytes db_open writes are an index file without records |
| IndexFile.FieldsApart | Programmazione di Sistema/SNP2024/apue.3e/db/db.c:618-631 | No two pointer fields overlap |
| Chains.UnlinkShaped | Programmazione di Sistema/SNP2024/apue.3e/db/db.c:516-522 | Writing a record's successor into its predecessor takes it off its list and no other record off any |
| Chains.PushShaped | Programmazione di Sistema/SNP2024/apue.3e/db/db.c:683-697 | Pointing a head at a record that points to the old first puts it in front, on that list only |
| Chains.KeyOnChain | Programmazione di Sistema/SNP2024/apue.3e/db/db.c:259-301 | A key that is in the database is on the chain of its hash, and a key found on that chain is in the database |
| Chains.FreshShaped | Programmazione di Sistema/SNP2024/apue.3e/db/db.c:143-160 | A new file has an empty free list and empty chains |
| Extents.Overwrite | Programmazione di Sistema/SNP2024/apue.3e/db/db.c:531-560 | Writing data of the same length over an extent leaves all other data as it was |
| Extents.Append | Programmazione di Sistema/SNP2024/apue.3e/db/db.c:531-560 | Data added at the end is disjoint from all the old extents and leaves them alone |
| Rot13.Asynchronous | Programmazione di Sistema/SNP2024/apue.3e/advio/rot13c2.c:49-138 | For every order of completions: it finishes exactly when two operations per block have completed, and then each letter of the output is the one 13 places on from that of the input, in its own case and around the end of the alphabet, and every other byte is that of the input |
| Rot13.Sequential | Programmazione di Sistema/SNP2024/apue.3e/advio/rot13a.c:37-46 | The plain loop writes, for each letter, the one 13 places on, in its own case and around the end of the alphabet, and every other byte as it is |
| Rot13.TranslateBuffer | Programmazione di Sistema/SNP2024/apue.3e/advio/rot13a.c:38-39 | The loop over a block does so in place |
| Rot13.BothWays | Programmazione di Sistema/SNP2024/apue.3e/advio/rot13c2.c:57-138 | The asynchronous copy, once finished, is the sequential one |
| Rot13.TranslatedTwice | Programmazione di Sistema/SNP2024/apue.3e/advio/rot13a.c:9-23 | Translating twice restores the input |
| Rot13.TranslateIs | Programmazione di Sistema/SNP2024/apue.3e/advio/rot13a.c:9-23 | Where each letter goes; other bytes stay |
| Rot13.CopyLoop | Programmazione di Sistema/SNP2024/apue.3e/advio/rot13c2.c:57-138 | The loop over the buffers, by the completions it still needs |
| Rot13.BlocksIs | Programmazione di Sistema/SNP2024/apue.3e/advio/rot13c2.c:57-138 | The number of blocks is the size over the block size, rounded up |
| Rot13.StartRead | Programmazione di Sistema/SNP2024/apue.3e/advio/rot13c2.c:60-78 | Starting a read keeps every block before off in flight or written, and the blocks in flight disjoint |
| Rot13.ReadToWrite | Programmazione di Sistema/SNP2024/apue.3e/advio/rot13c2.c:80-106 | So does turning a completed read into a write of the translated block |
| Rot13.WriteDone | Programmazione di Sistema/SNP2024/apue.3e/advio/rot13c2.c:108-128 | So does a completed write, whose block is then written in the output |
| TreeWalk.Walk | Programmazione di Sistema/SNP2024/apue.3e/filedir/ftw8.c:56-121 | The calls made are a prefix of the preorder of the hierarchy that ends with the first answer that is not 0, and all of it when there is none; then every event of every entry not named '.' or '..' is among them; each call says of its path what lstat and opendir say |
| TreeWalk.VisitIsPreorder | Programmazione di Sistema/SNP2024/apue.3e/filedir/ftw8.c:77-121 | The walk that stops at the first nonzero answer makes the calls of the preorder up to there, and returns that answer |
| TreeWalk.EntryByEntry | Programmazione di Sistema/SNP2024/apue.3e/filedir/ftw8.c:108-115 | The entries of a directory are reported in order, each as a hierarchy of its own; only those named '.' and '..' are left out |
| TreeWalk.EntryInside | Programmazione di Sistema/SNP2024/apue.3e/filedir/ftw8.c:93-116 | The report on an entry is one stretch of that on its directory, after the directory itself |
| TreeWalk.EventsOf | Programmazione di Sistema/SNP2024/apue.3e/filedir/ftw8.c:93-116 | The events of a directory are its own and those of its entries, and no others |
| TreeWalk.AllTrue | Programmazione di Sistema/SNP2024/apue.3e/filedir/ftw8.c:84-106 | Every event tells what lstat and opendir say of its path |
| TreeWalk.Walker.DoPath | Programmazione di Sistema/SNP2024/apue.3e/filedir/ftw8.c:77-121 | With one shared buffer, grown at any depth, a call makes the calls of the subtree and hands the caller's path back; every write stays inside the buffer |
| TreeWalk.Walker.Descend | Programmazione di Sistema/SNP2024/apue.3e/filedir/ftw8.c:102-116 | Below a directory the calls are those of its entries in turn, or one for an unreadable directory, and the caller's path is still in the buffer |
| TreeWalk.Walker.ReadDirectory | Programmazione di Sistema/SNP2024/apue.3e/filedir/ftw8.c:108-116 | Each name is put after the same prefix in turn, whatever the calls below have done to the buffer |
| TreeWalk.Walker.Grow | Programmazione di Sistema/SNP2024/apue.3e/filedir/ftw8.c:97-101 | The doubled buffer holds the same path and has room for one more name |
| TreeWalk.Tally.MyFunc | Programmazione di Sistema/SNP2024/apue.3e/filedir/ftw8.c:124-152 | The callback counts a file in the one counter of its type and always answers 0 |
| TreeWalk.Count | Programmazione di Sistema/SNP2024/apue.3e/filedir/ftw8.c:14-42 | Each counter is the number of files of its type in the hierarchy, entries whose names begin with a dot included, '.' and '..' not |
| TreeWalk.EntryCounted | Programmazione di Sistema/SNP2024/apue.3e/filedir/ftw8.c:124-152 | Whatever is counted in an entry is counted in its directory |
| ScanBuffer.EveryRun | esami/SNP58_scanner_directory/code.c:106-158 | In every interleaving, spurious wake-ups included: consumed and buffered nodes are the produced ones in order, never more than n in the buffer; the threads are never both in their critical sections nor asleep together; the scanner sleeps only on a full buffer, the counter only on an empty one before the end; the counter ends only after everything was consumed |
| ScanBuffer.MoveKeepsInv | esami/SNP58_scanner_directory/code.c:106-158 | Every step of either thread keeps the invariant, in which no thread sleeps on a condition that holds |
| ScanBuffer.NeverStuck | esami/SNP58_scanner_directory/code.c:106-158 | Until both threads are done one of them can move without a spurious wake-up |
| ScanBuffer.StepsRunOut | esami/SNP58_scanner_directory/code.c:106-158 | Every step of a thread makes the remaining work smaller |
| ScanBuffer.FairRunEnds | esami/SNP58_scanner_directory/code.c:106-158 | Without spurious wake-ups, as many rounds in which both threads have a turn as there was work end with both threads done and every node consumed |
| ScanBuffer.EnoughMoves | esami/SNP58_scanner_directory/code.c:106-158 | Without spurious wake-ups both threads are done, and every node consumed, as soon as they have moved as often as there was work |
| ScanBuffer.StopsExactly | esami/SNP58_scanner_directory/code.c:126-150 | The counter is told to stop exactly when the scan has finished and nothing is left |
| ScanBuffer.Ring.Add | esami/SNP58_scanner_directory/code.c:114-117 | The node goes to the end of the queue the ring holds |
| ScanBuffer.Ring.Get | esami/SNP58_scanner_directory/code.c:136-149 | The first node of the queue is taken, or nothing when the queue is empty |
| InodeCount.CounterThread | esami/SNP58_scanner_directory/code.c:231-263 | The total is the sizes first delivered of the distinct inodes, plus what is counted again for lack of table space; it is exactly those sizes if and only if no inode of positive size that found no place comes again; the table holds the first of them |
| InodeCount.InodeTracker.IsVisited | esami/SNP58_scanner_directory/code.c:81-103 | Tells whether the inode is in the table and adds it if it is new and there is room |
| InodeCount.TableIsPrefix | esami/SNP58_scanner_directory/code.c:94-98 | The table holds the first distinct inodes delivered, as many as fit |
| InodeCount.OneMore | esami/SNP58_scanner_directory/code.c:81-103 | What one more node adds to the distinct inodes, to the total meant, to what is counted again and to the skipped |
| InodeCount.DistinctIs | esami/SNP58_scanner_directory/code.c:87-92 | The distinct inodes are those delivered |
| InodeCount.NothingRecounted | esami/SNP58_scanner_directory/code.c:241-255 | With room for every inode nothing is counted twice |
| InodeCount.RecountedNothingIff | esami/SNP58_scanner_directory/code.c:94-98 | Nothing is counted twice exactly when no inode of positive size is delivered again that is not among the first distinct ones that fill the table |
| InodeCount.DistinctNoRepeat | esami/SNP58_scanner_directory/code.c:94-98 | No inode is recorded twice |
| MemStream.Open | Programmazione di Sistema/SNP2024/apue.3e/exercises/fmemopen.c:36-94 | Fails exactly for size 0, an illegal type, or no buffer without both reading and writing; else gives the initial position and size of each mode, position 0 whenever the buffer is the stream's own |
| MemStream.TypeToFlags | Programmazione di Sistema/SNP2024/apue.3e/exercises/fmemopen.c:96-138 | Exactly the strings of one letter r, w or a followed by + and b are legal; r or + asks for reading, w or + for writing, a for appending, w for truncation |
| MemStream.FindEnd | Programmazione di Sistema/SNP2024/apue.3e/exercises/fmemopen.c:140-151 | The position of the first NUL, or the size |
| MemStream.Stream.Read | Programmazione di Sistema/SNP2024/apue.3e/exercises/fmemopen.c:153-171 | Reads from the position as many characters as there are and moves behind them, or fails when the stream is not open for reading |
| MemStream.Stream.Write | Programmazione di Sistema/SNP2024/apue.3e/exercises/fmemopen.c:173-204 | Position, sizes, result and the whole buffer after a write: the data at the position or the end, a NUL after a grown end in read-and-write modes, and in write-only modes the terminating NUL, over the last character if the buffer is full |
| MemStream.Stream.WriteMore | Programmazione di Sistema/SNP2024/apue.3e/exercises/fmemopen.c:173-204 | One more write to a write-only stream extends the text the buffer holds, cut and terminated by NUL |
| MemStream.Stream.Seek | Programmazione di Sistema/SNP2024/apue.3e/exercises/fmemopen.c:206-229 | Moves to an offset from the start, the position or the end, up to the virtual size, and refuses others |
| MemStream.Stream.Run | Programmazione di Sistema/SNP2024/apue.3e/exercises/fmemopen.c:153-229 | Any mixture of reads, writes and seeks on a read-and-write stream gives the results and the contents of a file of limited size; position, virtual size and real size stay in order |
| MemStream.TwoReads | Programmazione di Sistema/SNP2024/apue.3e/exercises/fmemopen.c:153-171 | Two reads in a row give what one read of both lengths gives, and leave the same file |
| MemStream.WriteSeekRead | Programmazione di Sistema/SNP2024/apue.3e/exercises/fmemopen.c:153-229 | A write, a seek back over it and a read give the characters written, as many as fit |
| MemStream.Stream.WriteAll | Programmazione di Sistema/SNP2024/apue.3e/exercises/fmemopen.c:173-204 | After writes without seeks a write-only buffer holds the concatenation of what was there and what was written, cut to the buffer and terminated by NUL |
| NodePool.TwoProcesses | esami/linked_list_memoria_condivisa/linked_list_memoria_condivisa.c:129-299 | For every order in which the semaphore lets two processes through, each turn is the next operation of its process and has the result of one bounded stack, and values put in are those taken out and those left |
| NodePool.Conserved | esami/linked_list_memoria_condivisa/linked_list_memoria_condivisa.c:174-245 | Over any run, what was inserted is what was popped and what is still there |
| NodePool.LastFirst | esami/linked_list_memoria_condivisa/linked_list_memoria_condivisa.c:174-245 | Values inserted come out last first, as many as there are nodes |
| NodePool.StackStepIs | esami/linked_list_memoria_condivisa/linked_list_memoria_condivisa.c:174-299 | What each operation answers and leaves |
| NodePool.Pool.Perform | esami/linked_list_memoria_condivisa/linked_list_memoria_condivisa.c:174-299 | Each operation on the pool does so; the count is the number of values |
| NodePool.FullIffNoneFree | esami/linked_list_memoria_condivisa/linked_list_memoria_condivisa.c:129-143 | The chain has as many nodes as the pool exactly when no node is free |
| NodePool.Pool.constructor | esami/linked_list_memoria_condivisa/linked_list_memoria_condivisa.c:546-555 | The initial pool is an empty list of free nodes |
| NodePool.Pool.Allocate | esami/linked_list_memoria_condivisa/linked_list_memoria_condivisa.c:129-143 | Takes the first free node, or reports -1 exactly when there is none |
| NodePool.Pool.Free | esami/linked_list_memoria_condivisa/linked_list_memoria_condivisa.c:150-158 | Resets one node and no other |
| NodePool.Pool.Insert | esami/linked_list_memoria_condivisa/linked_list_memoria_condivisa.c:174-200 | Puts the value first, and fails exactly when the pool is full |
| NodePool.Pool.Pop | esami/linked_list_memoria_condivisa/linked_list_memoria_condivisa.c:214-244 | Takes the first value, or reports the empty list |
| NodePool.Pool.Print | esami/linked_list_memoria_condivisa/linked_list_memoria_condivisa.c:274-299 | Follows the offsets through the whole list, in order, and ends |
| NodePool.Pushed | esami/linked_list_memoria_condivisa/linked_list_memoria_condivisa.c:187-194 | A free node linked before the head keeps nodes on the chain distinct and exactly the ones in use |
| NodePool.PoppedOff | esami/linked_list_memoria_condivisa/linked_list_memoria_condivisa.c:225-235 | So does freeing the head after moving to its successor |
| SelectServer.Server.ServeClients | Programmazione di Sistema/SNP2024/NetworkingCodeExamples/11-Select/SelectServer.c:243-270 | The scan without a bound on its index stays inside the table, serves the ready clients in the order of the table and removes those that have closed |
| SelectServer.Server.Handle | Programmazione di Sistema/SNP2024/NetworkingCodeExamples/11-Select/SelectServer.c:185-272 | One round keeps the monitored set equal to sockets and clients and max above it, serves each ready client once, drops those that have closed, and adds the accepted connection exactly when the first socket is ready and fewer clients than slots are connected |
| SelectServer.Server.Run | Programmazione di Sistema/SNP2024/NetworkingCodeExamples/11-Select/SelectServer.c:185-274 | So does any sequence of rounds |
| SelectServer.RunClientsIs | Programmazione di Sistema/SNP2024/NetworkingCodeExamples/11-Select/SelectServer.c:185-274 | The clients after each round, from those before it |
| SelectServer.NextClientsIs | Programmazione di Sistema/SNP2024/NetworkingCodeExamples/11-Select/SelectServer.c:213-270 | Who comes and who stays in one round |
| SelectServer.InTableOrder | Programmazione di Sistema/SNP2024/NetworkingCodeExamples/11-Select/SelectServer.c:243-270 | The ready clients are served in the order of the table |
| SelectServer.ScanNext | Programmazione di Sistema/SNP2024/NetworkingCodeExamples/11-Select/SelectServer.c:245-270 | While ready clients are left to meet there is a slot left, and scanning it leaves one fewer or as many |
| SelectServer.EachOnce | Programmazione di Sistema/SNP2024/NetworkingCodeExamples/11-Select/SelectServer.c:245-270 | Serving in the order of the table serves each ready client once |
| SelectServer.FullTable | Programmazione di Sistema/SNP2024/NetworkingCodeExamples/11-Select/SelectServer.c:39-54 | The table is full exactly when it holds as many clients as slots |
| SelectServer.Remaining | Programmazione di Sistema/SNP2024/NetworkingCodeExamples/11-Select/SelectServer.c:207-241 | After the listening sockets the count of ready descriptors is the number of ready clients |
| SelectServer.Server.AddClient | Programmazione di Sistema/SNP2024/NetworkingCodeExamples/11-Select/SelectServer.c:39-54 | A new client gets the first free slot, exactly when fewer clients than slots are connected |
| SelectServer.Server.HandleNewConn | Programmazione di Sistema/SNP2024/NetworkingCodeExamples/11-Select/SelectServer.c:64-89 | An accepted connection is watched exactly when it got a slot, and max stays above it |
| SelectServer.Server.Listen | Programmazione di Sistema/SNP2024/NetworkingCodeExamples/11-Select/SelectServer.c:213-241 | The count left over is the number of ready clients, the new one not among them |
| SelectServer.Server.constructor | Programmazione di Sistema/SNP2024/NetworkingCodeExamples/11-Select/SelectServer.c:150-181 | Initially the two sockets are watched and the table is empty |
| Feedback.Server.Session | esami/TCP_UDP/SNP57_udp_select_multicast/server.c:216-262 | Over a whole session counter k of A, R, I, N, C, B counts the messages with that letter, and its windows those stored in the last five minutes and the last, although the array is pruned; no message is dropped exactly when each finds room |
| Feedback.Server.Prune | esami/TCP_UDP/SNP57_udp_select_multicast/server.c:97-109 | Compaction in place keeps the recent messages in order, and the pruned array still stands for the whole history |
| Feedback.Server.Refresh | esami/TCP_UDP/SNP57_udp_select_multicast/server.c:70-94 | The window counts are those of everything ever stored, letter by letter |
| Feedback.Server.Receive | esami/TCP_UDP/SNP57_udp_select_multicast/server.c:239-255 | The total of its letter grows by one, other letters change nothing; after it the array is full exactly when as many messages of the last five minutes as it holds have been stored |
| Feedback.RecentTwice | esami/TCP_UDP/SNP57_udp_select_multicast/server.c:97-109 | Pruning again with a later limit is pruning once with it |
| Feedback.IndexIs | esami/TCP_UDP/SNP57_udp_select_multicast/server.c:47-57 | Which letter each counter is for |
| Feedback.TotalIs | esami/TCP_UDP/SNP57_udp_select_multicast/server.c:239-242 | The totals, turn by turn |
| Feedback.FitsIs | esami/TCP_UDP/SNP57_udp_select_multicast/server.c:244-249 | Nothing is dropped exactly when each message comes while the load is below the number of places |
| Feedback.LoadIs | esami/TCP_UDP/SNP57_udp_select_multicast/server.c:97-109 | The load after a message: those up to it that were not older than five minutes then |
| Feedback.Prunes | esami/TCP_UDP/SNP57_udp_select_multicast/server.c:97-109 | A pruned array stands for the full history for every later limit |
| Alternation.EveryRun | Programmazione di Sistema/SNP2024/apue.3e/ipc1/devzero.c:28-49 | For every number of rounds and every schedule: one byte at most is under way, the two never update at once, no process reads a wrong value or byte, update k finds the value k |
| Alternation.StepKeepsInv | Programmazione di Sistema/SNP2024/apue.3e/ipc1/tellwait.c:12-48 | Each write, blocking read and half of an update keeps the invariant |
| Alternation.OneAtATime | Programmazione di Sistema/SNP2024/apue.3e/ipc1/devzero.c:33-48 | Never can both processes move; neither can exactly when both loops have finished, with the counter at the number of updates |
| Alternation.StepsRunOut | Programmazione di Sistema/SNP2024/apue.3e/ipc1/devzero.c:33-48 | Every step makes the remaining work smaller |
| Alternation.FairScheduleEnds | Programmazione di Sistema/SNP2024/apue.3e/ipc1/devzero.c:33-48 | As many rounds in which parent and child each have a turn as there was work end both loops |
| Alternation.EnoughMoves | Programmazione di Sistema/SNP2024/apue.3e/ipc1/devzero.c:33-48 | Both loops are over as soon as a schedule has let the two move as often as there was work, with the counter at the number of rounds, one higher if that is odd |
| Shortcomings.BlankKeyUnseen | Programmazione di Sistema/SNP2024/apue.3e/db/db.c:861-864 | A stored key of one blank is fetched, and a scan of the same database is empty |
| Shortcomings.SeparatorKeyUnreadable | Programmazione di Sistema/SNP2024/apue.3e/db/db.c:407-408 | Storing a key with ':' returns 0 and fetching it ends the process |
| Shortcomings.SeparatorDies | Programmazione di Sistema/SNP2024/apue.3e/db/db.c:407-408 | Looking up any key of the database that contains the separator ends the process |
| Shortcomings.LongKeyLost | Programmazione di Sistema/SNP2024/apue.3e/db/db.c:712-730 | A replacement ends the process in the append and has lost the key |
| Shortcomings.CountedTwice | esami/SNP58_scanner_directory/code.c:94-98 | With room for one inode the second is counted at each delivery |
| Shortcomings.BurstDoesNotFit | esami/TCP_UDP/SNP57_udp_select_multicast/server.c:245-254 | One message more than the array holds, all at one time, and the last one is not stored |
| Shortcomings.LastCharacterLost | Programmazione di Sistema/SNP2024/apue.3e/exercises/fmemopen.c:196-202 | Two characters written to a buffer of two leave one and a NUL |
| Shortcomings.SlashAdded | Programmazione di Sistema/SNP2024/apue.3e/filedir/ftw8.c:105-106 | The report on an unreadable directory has a path with a slash added |
| Shortcomings.OddCounter | Programmazione di Sistema/SNP2024/apue.3e/ipc1/devzero.c:33-48 | With an odd number of rounds the counter ends one higher |

## Left out

- Database, C types: counters and file offsets are unbounded integers, so wrap-around of `long` is not modelled; the hash does wrap at 64 bits.
- Database, buffers: the library formats an index record into a buffer of 1026 bytes before it checks the length (db.c:577-581), so a record of more than 1025 characters is outside what C defines; the model refuses it as the check would. Records that are just too long, as in `Shortcomings.LongKeyLost`, fit the buffer.
- Database, `_db_writeidx` given its own buffer as key: the source prints a buffer into itself; the model copies the key first.
- Database, opening: file names, modes, `malloc`, closing and freeing a handle, and the lock and size check that decide whether `db_open` writes the header.
- Database, failing system calls: `err_dump` after a failed read, write or lock is not modelled, only the checks on values.
- Runs.RunFresh: counts are for one handle; with several, each handle's counters see its own calls only, and what no call changes is the difference (`LiveDrift`, `FreeDrift`, `TotalDrift`).
- Database.DB.Scan: nextrec locks the free list only, so a scan beside a writer may return what no order of operations explains; the claims are for a scan with no other call in between.
- Protocol.RunsAreSafe: a step reads or writes one pointer, record or datum at once; `readv` and `writev` of one record are one step, as the locks allow nobody else to look at it. Calls that return or end before the first lock (an unknown flag, data of an illegal length) take no step, and scans are no part of the interleaving.
- Progress.OwnStepsBounded: a call's own steps are bounded, its waiting is not: locks are granted in any order, so a process can be passed over for ever.
- Protocol, ScanBuffer.EveryRun, Alternation.EveryRun: processes and threads are state machines on values, since methods of a Dafny class cannot interleave; the sequential parts they are made of are classes (`Database.DB`, `ScanBuffer.Ring`).
- Rot13.Asynchronous: each read returns the whole block and each write writes it; the error branches of `aio_error` and `aio_return`, short transfers and `aio_fsync` are not modelled. The loop that translates a block is a function here and a loop in `Rot13.TranslateBuffer`.
- TreeWalk.Walk: the hierarchy does not change during the walk and has finite depth; `stat` data besides the type, `closedir` and failing `realloc` are left out. `TreeWalk.Count` applies the callback's counting after the walk, which its constant answer cannot influence.
- ScanBuffer.EveryRun: the directory traversal that produces the nodes and the console output; nodes carry inode and size only. The tracker's own mutex is used by one thread only and is left out.
- MemStream.Open: `funopen`, closing and freeing, failing `malloc`, and the `int` variables into which sizes are narrowed; the type string is without its terminating NUL.
- NodePool.Pool.Pop: -1 stands for both an empty list and a stored -1 in the source; the model has a result of its own for the empty list.
- NodePool.TwoProcesses: the semaphore makes operations follow one another; waiting for it is not modelled.
- SelectServer.Server.Handle: reading from and answering clients, and the limit FD_SETSIZE on descriptors.
- Feedback.Server.Session: sockets, the display and signals; a message cut short is not modelled.
- Alternation.EveryRun: failing reads and writes on the pipes, and the memory mapping.
- The remaining programs of the repository (sockets, daemons, menus, small examples of fork, pipe and threads) have no property that a reader would not see in their text, or rest on libraries outside the repository.
