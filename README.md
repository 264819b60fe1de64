# EncryptionApplication: the file-transform engine of `MainWindowViewModel`

The application "locks" and "unlocks" every file under a folder with a binary
key file. `MainWindowViewModel` holds the run state (`Ready`, `InProgress`,
`Cancelled`), the block size `_bufferSize`, the processor count and the log
text `ErrorMessage`. Its commands `EncryptFiles` and `DecryptFiles` do the
following on a thread of their own:

- check the key file and the folder;
- list the folder's files breadth-first;
- run `TransformFile` on each file, which rewrites the file block by block
  through a `.tmp` file;
- log progress as they go;
- finish with a DONE line or a CANCELLED line.

`CancelProcess` sets the state to `Cancelled`, and the run polls the state.

The project models that class in Dafny, one module per layer:

| module | file | models |
|---|---|---|
| `Bytes` | `bytes.dfy` | C# `byte` arithmetic: XOR, and `+=`/`-=` wrapping modulo 256 |
| `FisherYates` | `fisher_yates.dfy` | `shuffle` and `reverseShuffle` over a byte array, with a seeded generator |
| `Cipher` | `cipher.dfy` | `EncodeTransform` and `DecodeTransform`: the key's seed schedule, the shuffles, the key stream XOR and add |
| `FileRewrite` | `filerewrite.dfy` | `TransformFile`: block reads into one reused buffer, the temporary file, delete-and-move or discard |
| `Scanner` | `scanner.dfy` | the breadth-first listing of subfolders and files |
| `ViewModel` | `viewmodel.dfy` | the class: its fields, the `ProcessorCount` setter, `CancelProcess`, and `EncryptFiles`/`DecryptFiles` as one `Run` method taking a direction |

Each loop in the source that updates state is a method with a `while`
loop. The two `foreach` loops that only gather listings into a list are the
exception: `Scanner.Scan` and `Scanner.ScannedFiles` state them as sequence
concatenation, and the `while` loop around them (`Scanner.ScanFolder`) is
proved equal to those functions. The methods over
arrays (`shuffle`, `reverseShuffle`, the two transforms) work in place on
`array<Byte>`. Each method is proved equal to a function on sequences. The
source's promises are then proved about those functions:

- decoding undoes encoding, block by block and file by file;
- the shuffles permute;
- the listing contains each reachable folder exactly once;
- the block size is stable across consecutive runs with the same key in one
  instance;
- the processor count stays in range.

Conventions of the model:

- **File system.** The file system is a `map<Path, seq<Byte>>`. The folder
  tree is a map from a folder to its listing, which gives its subfolders and
  its files in `Directory.GetDirectories`/`GetFiles` order.
- **Cancellation.** A cancel is an input. `cancelAt` is the number of reads
  of `AppState` that still see the run in progress before the first read
  that sees it cancelled. Every `switch (AppState)` and `if (AppState ...)`
  in the run counts as one read, and so does each loop pass in
  `TransformFile`. An uncancelled run makes `ViewModel.SweepReads` reads
  before its closing `switch`: per file, one `switch`, one per block, one
  after the copy loop and one before recording.
- **Exceptions.** An exception on the run's thread ends the process. The
  run then ends as `Died`, with the file system as it was at the throw. The
  model covers these exceptions:
  - a negative block size, at `new byte[blockSize]`;
  - a listed file that has vanished, at `File.OpenRead`, which leaves the
    freshly created `.tmp` file behind;
  - a processor count of 0, at `ParallelOptions.MaxDegreeOfParallelism`;
  - an empty key.
- **The generator.** `System.Random` is a parameter `rng`, the raw samples of
  a generator created with a given seed. `Next(n)` scales a sample below
  `n`.

The key's seed schedule: the seed is shifted by `sizeof(char) * 8 - 1`,
which is 15, and it is assigned after the shuffle at a group end. So the
shuffle at key index `j` uses `key[j-1] << 15`, or 0 when `j` is 0
(`Cipher.SeedSchedule`).

### Behaviour of the code as written that the proofs expose

- **Block-size growth wraps.** A key of at least `_bufferSize` bytes sets the
  block size to `(int)(length * length)`. From the initial 128 KiB every such
  growth wraps (`ViewModel.GrownBufferSizeWraps`). A key of exactly 131072
  bytes gives block size 0, and then every file is emptied
  (`ViewModel.ZeroBlockEmpties`). A key of 139023 bytes gives a negative size,
  and the run dies at its first file (`ViewModel.GrownBufferSizeExamples`).
- **Block size carried between runs.** `_bufferSize` lives as long as the
  view-model and never shrinks back. The block size of a run therefore
  depends on the keys of earlier runs in the same instance. After a run with
  a 200000-byte key, a 16-byte key gets block size 1345294336, where a fresh
  instance uses 131072 (`ViewModel.GrownBufferSizeHistory`). A file over
  128 KiB encrypted in the first instance and decrypted in a fresh one is
  cut into different blocks, and the decryption corrupts it.
- **Single core.** On a single-core machine the initial processor count is
  `Floor(1 * 0.75) = 0`. The setter never stores that value, and
  `Parallel.ForEach` rejects it, so the run dies before any file
  (`ViewModel.SingleCoreDefault`, `ViewModel.MainWindowViewModel.RunFiles`).
- **Stuck state.** A missing key file or folder returns from the thread with
  the state left `InProgress`. Every later command is then ignored
  (`Stuck`/`Ignored` in `ViewModel.MainWindowViewModel.Run`). `CancelProcess`
  while `Ready` has the same effect through `Cancelled`.
- **Temporary files.** The temporary file `x.tmp` is created over whatever was
  there. A file listed together with its own temporary name is destroyed: the
  rewrite of `a` deletes `a.tmp`, and the call on `a.tmp` then throws and
  leaves an empty `a.tmp.tmp` (`ViewModel.TempNameCollision`).
- **Unrecorded rewrites.** A cancel can fall between the end of a file's
  rewrite and the check that records it. That file is then transformed but
  missing from the list of modified files
  (`ViewModel.SweptUnrecorded`, `ViewModel.Stopped`).

## Model

| member | source | states |
|---|---|---|
| Bytes.XorByte | EncryptionApplication.App/ViewModels/MainWindowViewModel.cs:178 | each bit of the result is set exactly when the data byte's bit and the key byte's bit differ |
| Bytes.AddByte | EncryptionApplication.App/ViewModels/MainWindowViewModel.cs:186 | the sum of the two bytes, less 256 when it passes 255 |
| Bytes.SubByte | EncryptionApplication.App/ViewModels/MainWindowViewModel.cs:199 | the difference of the two bytes, plus 256 when it falls below 0 |
| Bytes.XorByteTwice | EncryptionApplication.App/ViewModels/MainWindowViewModel.cs:178-207 | XOR with the same key byte twice gives the byte back, so the decode XOR undoes the encode XOR |
| Bytes.SubUndoesAdd | EncryptionApplication.App/ViewModels/MainWindowViewModel.cs:186-199 | the wrapping byte subtraction undoes the wrapping byte addition |
| Bytes.AddUndoesSub | EncryptionApplication.App/ViewModels/MainWindowViewModel.cs:186-199 | the wrapping byte addition undoes the wrapping byte subtraction |
| FisherYates.Next | EncryptionApplication.App/ViewModels/MainWindowViewModel.cs:99 | `Random.Next(bound)` stays below its exclusive bound |
| FisherYates.SwapTarget | EncryptionApplication.App/ViewModels/MainWindowViewModel.cs:99 | the swap partner `i + Next(count - i)` lies in `[i, count)`, so the swap never leaves the window |
| FisherYates.SwapBytes | EncryptionApplication.App/ViewModels/MainWindowViewModel.cs:100-102 | exchanging `data[i]` and `data[r]` leaves `Swap` of the old window and the rest of the array untouched; `reverseShuffle` makes the same exchange |
| FisherYates.SwapTwice | EncryptionApplication.App/ViewModels/MainWindowViewModel.cs:100-102 | a swap is its own inverse |
| FisherYates.Shuffle | EncryptionApplication.App/ViewModels/MainWindowViewModel.cs:91-104 | after the in-place loop the first `dataCount` bytes are `Shuffled` of the old ones, and the rest of the array is untouched |
| FisherYates.DrawSwapTargets | EncryptionApplication.App/ViewModels/MainWindowViewModel.cs:108-112 | the list `reverseShuffle` draws equals the swap partners `shuffle` uses with the same seed |
| FisherYates.ReverseShuffle | EncryptionApplication.App/ViewModels/MainWindowViewModel.cs:106-121 | after replaying the swaps from the last down, the window is `Unshuffled` of the old one, and the rest is untouched |
| FisherYates.BackwardUndoesForward | EncryptionApplication.App/ViewModels/MainWindowViewModel.cs:114-120 | replaying swaps in reverse order undoes them |
| FisherYates.UnshuffleShuffle | EncryptionApplication.App/ViewModels/MainWindowViewModel.cs:91-121 | `reverseShuffle` with the same seed restores what `shuffle` scrambled |
| FisherYates.ShuffleUnshuffle | EncryptionApplication.App/ViewModels/MainWindowViewModel.cs:91-121 | `shuffle` restores what `reverseShuffle` scrambled |
| FisherYates.ShuffledPermutes | EncryptionApplication.App/ViewModels/MainWindowViewModel.cs:91-104 | a shuffle keeps the multiset of bytes |
| Cipher.GroupSeed | EncryptionApplication.App/ViewModels/MainWindowViewModel.cs:170 | `key[index] << 15` is a non-negative 32-bit seed |
| Cipher.SeedSchedule | EncryptionApplication.App/ViewModels/MainWindowViewModel.cs:162-171 | a non-empty key yields one seed per 4-byte group, the last group possibly partial; the seed at group end `j` is the one assigned at index `j-1` |
| Cipher.ShuffledUpToSchedule | EncryptionApplication.App/ViewModels/MainWindowViewModel.cs:162-171 | the shuffles the encode loop performs up to any index are the shuffles by the seeds collected so far, in key order |
| Cipher.ShuffleByKey | EncryptionApplication.App/ViewModels/MainWindowViewModel.cs:162-171 | the encode loop over the key shuffles the window by every seed of the schedule in order |
| Cipher.CollectSeeds | EncryptionApplication.App/ViewModels/MainWindowViewModel.cs:210-220 | the decode loop collects exactly the seeds the encode loop shuffles with |
| Cipher.ReverseShuffleAll | EncryptionApplication.App/ViewModels/MainWindowViewModel.cs:222-223 | the seeds are unshuffled from the last to the first |
| Cipher.XorKeyStream | EncryptionApplication.App/ViewModels/MainWindowViewModel.cs:173-179 | each byte is XORed with the key byte at its index modulo the key length |
| Cipher.AddKeyStream | EncryptionApplication.App/ViewModels/MainWindowViewModel.cs:181-187 | each byte gets the cycling key byte added, wrapping modulo 256 |
| Cipher.SubtractKeyStream | EncryptionApplication.App/ViewModels/MainWindowViewModel.cs:194-200 | each byte has the cycling key byte subtracted, wrapping modulo 256 |
| Cipher.KeyCycles | EncryptionApplication.App/ViewModels/MainWindowViewModel.cs:175-176 | the key index restarts at 0 after the last key byte, so the stream has period `|key|` |
| Cipher.KeyXorTwice | EncryptionApplication.App/ViewModels/MainWindowViewModel.cs:173-208 | the key stream XOR is its own inverse |
| Cipher.KeySubUndoesKeyAdd | EncryptionApplication.App/ViewModels/MainWindowViewModel.cs:181-200 | subtracting the key stream undoes adding it |
| Cipher.KeyAddUndoesKeySub | EncryptionApplication.App/ViewModels/MainWindowViewModel.cs:181-200 | adding the key stream undoes subtracting it |
| Cipher.UnshuffledAllUndoes | EncryptionApplication.App/ViewModels/MainWindowViewModel.cs:162-223 | unshuffling by the seed list in reverse undoes shuffling by it in order |
| Cipher.ShuffledAllUndoes | EncryptionApplication.App/ViewModels/MainWindowViewModel.cs:162-223 | shuffling by the seed list undoes unshuffling by it |
| Cipher.ShuffledAllPermutes | EncryptionApplication.App/ViewModels/MainWindowViewModel.cs:162-171 | shuffling by any seed list keeps the multiset of bytes |
| Cipher.EncodeTransform | EncryptionApplication.App/ViewModels/MainWindowViewModel.cs:159-189 | the first `dataCount` bytes become `EncodeBlock` of the old ones (shuffles, then XOR, then add), and the rest is untouched |
| Cipher.DecodeTransform | EncryptionApplication.App/ViewModels/MainWindowViewModel.cs:191-225 | the first `dataCount` bytes become `DecodeBlock` of the old ones (subtract, then XOR, then unshuffle in reverse), and the rest is untouched |
| Cipher.DecodeEncode | EncryptionApplication.App/ViewModels/MainWindowViewModel.cs:159-225 | decoding an encoded block with the same key gives it back |
| Cipher.EncodeDecode | EncryptionApplication.App/ViewModels/MainWindowViewModel.cs:159-225 | encoding a decoded block with the same key gives it back |
| FileRewrite.TempName | EncryptionApplication.App/ViewModels/MainWindowViewModel.cs:126 | the temporary name extends the file's name, so it is never the file itself |
| FileRewrite.CipherInverse | EncryptionApplication.App/ViewModels/MainWindowViewModel.cs:159-225 | the transform of the opposite direction undoes the transform of either direction on every block |
| FileRewrite.ReadLength | EncryptionApplication.App/ViewModels/MainWindowViewModel.cs:136 | a read returns all that remains or a full block, whichever is less |
| FileRewrite.Read | EncryptionApplication.App/ViewModels/MainWindowViewModel.cs:136 | `sourceFile.Read` returns `ReadLength` and puts the next bytes of the file at the front of the buffer |
| FileRewrite.BlocksPartition | EncryptionApplication.App/ViewModels/MainWindowViewModel.cs:136 | the blocks read concatenate to the file; there are `ceil(length / blockSize)` of them, all full except the last, none empty |
| FileRewrite.RewrittenBlockwise | EncryptionApplication.App/ViewModels/MainWindowViewModel.cs:136-145 | the rewritten contents are the transform of each block, concatenated |
| FileRewrite.RewrittenLength | EncryptionApplication.App/ViewModels/MainWindowViewModel.cs:129-145 | with a positive block size the rewrite keeps the length; with block size 0 it is empty |
| FileRewrite.RewriteRoundTrip | EncryptionApplication.App/ViewModels/MainWindowViewModel.cs:136-145 | with the same block size, rewriting by a block transform and then by its inverse gives the contents back |
| FileRewrite.FileRoundTrip | EncryptionApplication.App/ViewModels/MainWindowViewModel.cs:124-225 | decrypting a file's encrypted contents with the same key and block size gives it back |
| FileRewrite.BlocksCounted | EncryptionApplication.App/ViewModels/MainWindowViewModel.cs:136-139 | the loop reads the state once per block |
| FileRewrite.Replace | EncryptionApplication.App/ViewModels/MainWindowViewModel.cs:148-156 | replacing removes the temporary file, keeps every other path and leaves every other file's contents alone |
| FileRewrite.DeleteThenMove | EncryptionApplication.App/ViewModels/MainWindowViewModel.cs:152-155 | deleting the original and moving the temporary file over it is the same as replacing the contents |
| FileRewrite.ReplaceRoundTrip | EncryptionApplication.App/ViewModels/MainWindowViewModel.cs:148-156 | encrypting then decrypting one file restores the file system, less any temporary file that was there |
| FileRewrite.TransformAndWrite | EncryptionApplication.App/ViewModels/MainWindowViewModel.cs:142-143 | transforming the read bytes in place and writing them appends the transformed block to the temporary file |
| FileRewrite.WriteBlock | EncryptionApplication.App/ViewModels/MainWindowViewModel.cs:136-144 | one pass moves the read position by the bytes read, keeps the written prefix consistent with the full rewrite, and uses up one block |
| FileRewrite.TransformBlocks | EncryptionApplication.App/ViewModels/MainWindowViewModel.cs:132-146 | the loop breaks if and only if the cancel falls before its last read; otherwise the temporary file holds the rewrite and the state was read once per block |
| FileRewrite.TransformFile | EncryptionApplication.App/ViewModels/MainWindowViewModel.cs:124-157 | a negative block size throws with nothing changed; a missing file throws and leaves an empty `.tmp`; a cancel seen by the loop or by the final check deletes the `.tmp` and leaves the original alone; otherwise the original is replaced by its rewrite |
| Scanner.Scan | EncryptionApplication.App/ViewModels/MainWindowViewModel.cs:303-335 | the subfolders found are distinct, all exist, and are exactly the listings of the folder and of every subfolder found, in queue order |
| Scanner.ScanClosed | EncryptionApplication.App/ViewModels/MainWindowViewModel.cs:321-335 | every subfolder of a visited folder is found, and every folder found is a subfolder of a visited folder |
| Scanner.ScanFolder | EncryptionApplication.App/ViewModels/MainWindowViewModel.cs:303-335 | the growing-list loop ends with `Scan`'s folders, and its files are the files of the folder and of each subfolder, in the same order |
| ViewModel.ToInt32 | EncryptionApplication.App/ViewModels/MainWindowViewModel.cs:283 | the `(int)` cast gives a 32-bit value congruent to its argument modulo 2^32 |
| ViewModel.ToInt32Keeps | EncryptionApplication.App/ViewModels/MainWindowViewModel.cs:283 | the cast keeps a value if and only if the value fits in an `int` |
| ViewModel.GrownBufferSize | EncryptionApplication.App/ViewModels/MainWindowViewModel.cs:281-284 | a key shorter than the block size leaves it alone; one at least as long sets it to the 32-bit value congruent to the length squared modulo 2^32 |
| ViewModel.GrownBufferSizeStable | EncryptionApplication.App/ViewModels/MainWindowViewModel.cs:281-284 | in one instance, a second run with the same key keeps the block size of the first |
| ViewModel.GrownBufferSizeHistory | EncryptionApplication.App/ViewModels/MainWindowViewModel.cs:281-284 | the block size depends on earlier runs in the instance: after a 200000-byte key a 16-byte key gets 1345294336, where a fresh instance uses 131072 |
| ViewModel.GrownBufferSizeWraps | EncryptionApplication.App/ViewModels/MainWindowViewModel.cs:281-284 | from the initial 128 KiB, a key long enough to grow the block never gets `length * length` |
| ViewModel.GrownBufferSizeExamples | EncryptionApplication.App/ViewModels/MainWindowViewModel.cs:281-284 | key lengths 131072 and 139023 give block sizes 0 and -2147441951 |
| ViewModel.DefaultProcessorCount | EncryptionApplication.App/ViewModels/MainWindowViewModel.cs:47 | the initial count is the floor of three quarters of the machine's count |
| ViewModel.ClampProcessorCount | EncryptionApplication.App/ViewModels/MainWindowViewModel.cs:51-58 | the stored count lies in `[1, ProcessorCount]` and equals the requested value when that is in range |
| ViewModel.ClampNearest | EncryptionApplication.App/ViewModels/MainWindowViewModel.cs:51-58 | the stored count is the allowed count nearest to the requested one |
| ViewModel.ClampIdempotent | EncryptionApplication.App/ViewModels/MainWindowViewModel.cs:51-58 | setting the count it already holds changes nothing |
| ViewModel.SingleCoreDefault | EncryptionApplication.App/ViewModels/MainWindowViewModel.cs:47-58 | on one core the initial count is 0, which the setter would never store |
| ViewModel.NatToStringValue | EncryptionApplication.App/ViewModels/MainWindowViewModel.cs:340 | the decimal text of a number in the log reads back as that number |
| ViewModel.StatusLineWhole | EncryptionApplication.App/ViewModels/MainWindowViewModel.cs:340 | the progress line is one whole line |
| ViewModel.StatusLineDistinct | EncryptionApplication.App/ViewModels/MainWindowViewModel.cs:340 | two progress lines that read the same show the same count, total and direction |
| ViewModel.StartedLinesWhole | EncryptionApplication.App/ViewModels/MainWindowViewModel.cs:288-290 | with texts that break lines only at their ends and names without line breaks, the start of an encryption logs three whole lines and that of a decryption two |
| ViewModel.FoundLinesWhole | EncryptionApplication.App/ViewModels/MainWindowViewModel.cs:301-318 | the two "Folder found!" lines are two whole lines |
| ViewModel.CountLineWhole | EncryptionApplication.App/ViewModels/MainWindowViewModel.cs:339 | the count of folders and files is one whole line |
| ViewModel.DoneLineWhole | EncryptionApplication.App/ViewModels/MainWindowViewModel.cs:370 | the DONE line is one whole line |
| ViewModel.CancelledLineWhole | EncryptionApplication.App/ViewModels/MainWindowViewModel.cs:381 | the CANCELLED line is one whole line |
| ViewModel.ReplaceLastLine | EncryptionApplication.App/ViewModels/MainWindowViewModel.cs:353-356 | the result keeps the message up to the old last line and ends with the new line, its length changing by the difference of the two |
| ViewModel.ReplaceLastLineKeepsPrefix | EncryptionApplication.App/ViewModels/MainWindowViewModel.cs:353-356 | removing the old progress line and appending the new one keeps everything before it |
| ViewModel.RewriteOneEffect | EncryptionApplication.App/ViewModels/MainWindowViewModel.cs:124-157 | one call throws exactly on a negative block size (nothing changed) or a missing file (an empty `.tmp` left); otherwise the file holds its rewrite, its `.tmp` name is gone and every other file is as it was |
| ViewModel.RewriteAllKeeps | EncryptionApplication.App/ViewModels/MainWindowViewModel.cs:344-364 | a sweep that throws on nothing creates no path and was given only existing files; with a negative block size the first call throws and nothing changes |
| ViewModel.RewriteAllStops | EncryptionApplication.App/ViewModels/MainWindowViewModel.cs:344-364 | once a `TransformFile` call has thrown, later files change nothing |
| ViewModel.RewriteAllPointwise | EncryptionApplication.App/ViewModels/MainWindowViewModel.cs:344-364 | over distinct, existing files with no `.tmp` beside them, a sweep never throws, keeps the set of paths, replaces each listed file by its rewrite and leaves every other file alone |
| ViewModel.RunRoundTrip | EncryptionApplication.App/ViewModels/MainWindowViewModel.cs:343-495 | a decryption sweep over the files an encryption sweep rewrote, with the same key and block size, restores the file system |
| ViewModel.ZeroBlockEmpties | EncryptionApplication.App/ViewModels/MainWindowViewModel.cs:129-155 | with block size 0 every listed file ends up empty |
| ViewModel.TempNameCollision | EncryptionApplication.App/ViewModels/MainWindowViewModel.cs:126-155 | a file listed beside its own `.tmp` name: the `.tmp` file is deleted, the next call throws, and an empty `.tmp.tmp` is left |
| ViewModel.SweepReadsGrow | EncryptionApplication.App/ViewModels/MainWindowViewModel.cs:345-366 | every file costs at least three reads of the state, so the reads of an uncancelled sweep grow strictly along the list |
| ViewModel.StoppedEntered | EncryptionApplication.App/ViewModels/MainWindowViewModel.cs:345 | after a cancel, the files handed to `TransformFile` are exactly those whose `switch` came before the cancel |
| ViewModel.StoppedAtSwitch | EncryptionApplication.App/ViewModels/MainWindowViewModel.cs:345-366 | a cancel seen at a `switch` leaves every file before it rewritten and recorded |
| ViewModel.SweptSkip | EncryptionApplication.App/ViewModels/MainWindowViewModel.cs:345-362 | a file whose `switch` comes at or after the cancel is skipped; a run cancelled there has every earlier file rewritten and recorded, and stays cancelled |
| ViewModel.SweptRecorded | EncryptionApplication.App/ViewModels/MainWindowViewModel.cs:346-358 | a file rewritten while the run stays in progress is recorded, the recorded list is the prefix of the files done, and the reads so far are those of the uncancelled sweep |
| ViewModel.SweptUnrecorded | EncryptionApplication.App/ViewModels/MainWindowViewModel.cs:346-358 | a cancel that falls at the read before recording leaves the file rewritten but unrecorded |
| ViewModel.SweptDiscarded | EncryptionApplication.App/ViewModels/MainWindowViewModel.cs:346-358 | a cancel that falls inside the file's rewrite leaves the file as it was, with only the temporary file gone |
| ViewModel.SweptCancelAtClose | EncryptionApplication.App/ViewModels/MainWindowViewModel.cs:366-376 | a cancel seen only at the closing `switch` leaves every file rewritten and recorded |
| ViewModel.RewriteNext | EncryptionApplication.App/ViewModels/MainWindowViewModel.cs:347 | one `TransformFile` call extends the sweep by that file, or, when it saw the cancel, only removes the temporary file; it reads the state once per block of the file |
| ViewModel.CancelBeforeAnyFile | EncryptionApplication.App/ViewModels/MainWindowViewModel.cs:345 | a cancel before the first read of the state touches no file, records none and ends the run cancelled |
| ViewModel.MainWindowViewModel.constructor | EncryptionApplication.App/ViewModels/MainWindowViewModel.cs:16-84 | the initial fields: block size 128 KiB, state `Ready`, processor count the floor of 0.75 times the machine's, empty paths and message |
| ViewModel.MainWindowViewModel.SetProcessorCount | EncryptionApplication.App/ViewModels/MainWindowViewModel.cs:51-58 | the setter stores the clamped value and changes nothing else |
| ViewModel.MainWindowViewModel.CancelProcess | EncryptionApplication.App/ViewModels/MainWindowViewModel.cs:238-241 | the state becomes `Cancelled` whatever it was, and nothing else changes |
| ViewModel.MainWindowViewModel.RecordCompletion | EncryptionApplication.App/ViewModels/MainWindowViewModel.cs:349-357 | the file joins the modified list, the counter goes up by one, and the last progress line is replaced by the new one |
| ViewModel.MainWindowViewModel.Run | EncryptionApplication.App/ViewModels/MainWindowViewModel.cs:244-546 | `EncryptFiles` or `DecryptFiles`, by direction: ignored unless `Ready`. A missing key file, or a missing folder, logs its error and leaves the state `InProgress`. Otherwise the block size grows with the key, the header and counts are logged, and the files found are rewritten as `RanFiles` states. That covers the whole sweep when uncancelled, a prefix when cancelled, and the files up to a throw when one happens. Barring a throw, the run finishes exactly when the cancel comes after every read an uncancelled run makes, and a cancelled run leaves the files as `Stopped` says |
| ViewModel.MainWindowViewModel.ScanAndRun | EncryptionApplication.App/ViewModels/MainWindowViewModel.cs:299-341 | the files processed are those of the breadth-first scan, after the "found" lines and the count line |
| ViewModel.MainWindowViewModel.RunFiles | EncryptionApplication.App/ViewModels/MainWindowViewModel.cs:337-387 | after the first progress line: processor count 0 or an empty key dies before any file; otherwise the files are swept. Barring a throw, the run ends DONE exactly when the cancel comes after `SweepReads` reads, and otherwise CANCELLED with the files as `Stopped` says. The log ends with the last progress line and the DONE or CANCELLED line, with the state back to `Ready` |
| ViewModel.MainWindowViewModel.FinishRun | EncryptionApplication.App/ViewModels/MainWindowViewModel.cs:366-387 | a run still in progress at the final read logs DONE, a cancelled one logs CANCELLED, and both return to `Ready` |
| ViewModel.MainWindowViewModel.ProcessFiles | EncryptionApplication.App/ViewModels/MainWindowViewModel.cs:344-364 | the loop over the files keeps `Swept`. While in progress, every file so far is rewritten and recorded and the state was read `SweepReads` times. Once cancelled, the files entered are those whose `switch` came before the cancel, and the last of them is rewritten and recorded, rewritten only, or discarded, by where the cancel fell. Or the loop stops at the first throw, whose file's `switch` came before any cancel |
| ViewModel.MainWindowViewModel.VisitFile | EncryptionApplication.App/ViewModels/MainWindowViewModel.cs:345-363 | one iteration: a file is skipped, at the cost of one read and with nothing changed, once the run is cancelled; otherwise it is transformed and recorded, at the cost of `FileReads` reads |
| ViewModel.MainWindowViewModel.TransformAndRecord | EncryptionApplication.App/ViewModels/MainWindowViewModel.cs:346-359 | `TransformFile`, then recording only if the state read after it is still in progress; the reads so far become those of the uncancelled sweep up to this file |

## Left out

- Threads and `Parallel.ForEach`: the run's thread executes in place, and the files are processed one after another in list order. With more than one worker, the order of the records and of the progress updates varies, and so do the points where a cancel can fall. The lock makes each record step atomic, which is the granularity modelled.
- `System.Random` is a parameter (`rng`). Its algorithm and the `double` rounding in `Next` are not modelled. The round trips hold for any generator that is deterministic per seed.
- The stopwatch is the parameter `elapsedMs`.
- ViewModel.GrownBufferSizeStable: the block size is the same only for consecutive runs with the same key in one instance. Across instances, or after a run with a longer key, decryption can cut a file differently from its encryption (`ViewModel.GrownBufferSizeHistory`).
- `LineWording(SourceWording)`, that the source's fixed texts break lines only at their ends, is visible in the literals but not proved. The solver does not take long string literals apart within its resource limit. The lemmas on the log's line structure take it as a hypothesis.
- ReactiveUI change notifications, the two button-enabled flags, the command bindings and the `_encryptionThread` field are left out; they affect only the window.
- ViewModel.MainWindowViewModel.FinishRun: the cancelled branch's `File.AppendAllLines` to `ModifiedFiles.txt` and its two `File.AppendText` calls are not applied to the file system. The list they write is returned as `recorded`. The model assumes these calls return normally.
- ViewModel.MainWindowViewModel.RunFiles: an empty key is modelled as an exception before the first file. In the code, the transform throws at the first non-empty block. Files before it that are empty are replaced by empty rewrites, and that file's empty `.tmp` is left behind.
- ViewModel.MainWindowViewModel.RecordCompletion: the counter is an unbounded number. The source's `uint` would wrap after 2^32 files.
- FileRewrite.Read: a read returns all that remains or a full block. Short reads, which `FileStream.Read` may return, are not modelled. Nor is what the buffer holds after the bytes read.
- FileRewrite.TransformFile: I/O errors other than a missing file (access denied, a locked file, a full disk) are not modelled. `TransformFile`'s default block size of 64000 KiB is unused, because every caller passes `_bufferSize`.
- Scanner.ScanFolder: the folder tree is assumed to be a tree (`FileTree`). Each folder is listed by one parent only, and a subfolder's path is longer than its parent's. Symbolic links or junctions that form cycles, which would make the source loop forever, are outside the model.
- The log's numbers are written as invariant-culture decimal digits. `DateTime.Now.ToLongDateString`, which the source passes to `File.AppendText`, is not modelled.
