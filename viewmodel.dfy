/** `MainWindowViewModel`: the run state, the block size, the processor
    count, and one encryption or decryption run (`EncryptFiles` and
    `DecryptFiles`, one method parameterised by direction). The run's own
    thread is executed in place, the files one after another; a cancel is
    an input, the number of reads of the run state that still see the run in
    progress before the first that sees it cancelled. */
module ViewModel {
  import opened Bytes
  import opened FisherYates
  import opened FileRewrite
  import opened Scanner

  datatype State = InProgress | Cancelled | Ready

  /** How a run ends: not started (the state was not `Ready`), stuck (a
      missing key file or folder returned early and left the state
      `InProgress`), died (an exception ended the process), finished or
      cancelled. */
  datatype RunEnd = Ignored | Stuck | Died | Finished | Aborted

  /** `_bufferSize`'s initial value, 128 KiB. */
  const DefaultBufferSize: int := 128 * 1024

  const TwoTo32: int := 0x1_0000_0000

  /** C#'s `(int)` cast of a `long`: the low 32 bits read as a two's
      complement number. */
  function ToInt32(x: int): (r: int)
    ensures -0x8000_0000 <= r < 0x8000_0000
    ensures (x - r) % TwoTo32 == 0
  {
    var low := x % TwoTo32;
    if low >= 0x8000_0000 then low - TwoTo32 else low
  }

  /** The 32-bit cast keeps exactly the values an `int` can hold. */
  lemma ToInt32Keeps(x: int)
    ensures ToInt32(x) == x <==> -0x8000_0000 <= x < 0x8000_0000
  {
  }

  /** The block size after a run has seen a key of `keyLength` bytes: a key
      at least as long as the current size sets it to `(int)(length *
      length)`. */
  function GrownBufferSize(bufferSize: int, keyLength: nat): (r: int)
    ensures keyLength < bufferSize ==> r == bufferSize
    ensures keyLength >= bufferSize ==>
      -0x8000_0000 <= r < 0x8000_0000 && (keyLength * keyLength - r) % TwoTo32 == 0
  {
    if keyLength >= bufferSize then ToInt32(keyLength * keyLength) else bufferSize
  }

  /** In one instance, a second run with the same key uses the block size
      of the first, so decrypting right after encrypting with that key cuts
      the files the same way. */
  lemma GrownBufferSizeStable(bufferSize: int, keyLength: nat)
    ensures GrownBufferSize(GrownBufferSize(bufferSize, keyLength), keyLength)
            == GrownBufferSize(bufferSize, keyLength)
  {
  }

  /** The block size depends on the keys of earlier runs in the same
      instance, since it only ever changes when a key is at least as long:
      after a run with a 200000-byte key, a 16-byte key gets a block size of
      1345294336, where a fresh instance uses 131072 for it. */
  lemma GrownBufferSizeHistory()
    ensures GrownBufferSize(GrownBufferSize(DefaultBufferSize, 200000), 16) == 1345294336
    ensures GrownBufferSize(DefaultBufferSize, 16) == DefaultBufferSize == 131072
  {
  }

  /** From the initial block size, every growth wraps: a key of at least
      128 KiB never gets a block of its length squared. */
  lemma GrownBufferSizeWraps(keyLength: nat)
    requires keyLength >= DefaultBufferSize
    ensures GrownBufferSize(DefaultBufferSize, keyLength) != keyLength * keyLength
  {
    assert keyLength * keyLength >= DefaultBufferSize * DefaultBufferSize;
    ToInt32Keeps(keyLength * keyLength);
  }

  /** A key of exactly 128 KiB gives a block size of 0, and one of 139023
      bytes a negative block size. */
  lemma GrownBufferSizeExamples()
    ensures GrownBufferSize(DefaultBufferSize, 131072) == 0
    ensures GrownBufferSize(DefaultBufferSize, 139023) == -2147441951
  {
  }

  /** `Math.Floor(Environment.ProcessorCount * 0.75)`, the initial processor
      count (the product is exact in a `double`). */
  function DefaultProcessorCount(hardwareThreads: nat): (r: nat)
    ensures 4 * r <= 3 * hardwareThreads < 4 * (r + 1)
  {
    (3 * hardwareThreads) / 4
  }

  /** The `ProcessorCount` setter's rule: a value above the machine's
      processor count becomes that count, one below 1 becomes 1. */
  function ClampProcessorCount(value: int, hardwareThreads: int): (r: int)
    requires hardwareThreads >= 1
    ensures 1 <= r <= hardwareThreads
    ensures 1 <= value <= hardwareThreads ==> r == value
  {
    if value > hardwareThreads then hardwareThreads
    else if value < 1 then 1
    else value
  }

  /** The stored value is the allowed value nearest to the one requested. */
  lemma ClampNearest(value: int, hardwareThreads: int, c: int)
    requires hardwareThreads >= 1 && 1 <= c <= hardwareThreads
    ensures var r := ClampProcessorCount(value, hardwareThreads);
      (if r >= value then r - value else value - r) <= (if c >= value then c - value else value - c)
  {
  }

  /** Setting the count to the count it holds changes nothing. */
  lemma ClampIdempotent(value: int, hardwareThreads: int)
    requires hardwareThreads >= 1
    ensures ClampProcessorCount(ClampProcessorCount(value, hardwareThreads), hardwareThreads)
            == ClampProcessorCount(value, hardwareThreads)
  {
  }

  /** On a single-core machine the initial count is 0, a value the setter
      never stores. */
  lemma SingleCoreDefault(value: int)
    ensures DefaultProcessorCount(1) == 0
    ensures ClampProcessorCount(value, 1) != DefaultProcessorCount(1)
  {
  }

  function DigitChar(d: nat): (c: char)
    requires d < 10
    ensures '0' <= c <= '9'
  {
    ('0' as int + d) as char
  }

  predicate IsDigit(c: char)
  {
    '0' <= c <= '9'
  }

  /** A number in decimal, as string interpolation writes it: digits only. */
  function NatToString(n: nat): (s: string)
    ensures |s| >= 1
    ensures forall i :: 0 <= i < |s| ==> IsDigit(s[i])
    decreases n
  {
    if n < 10 then [DigitChar(n)] else NatToString(n / 10) + [DigitChar(n % 10)]
  }

  /** The value of a string of decimal digits. */
  function DecimalValue(s: string): nat
    decreases |s|
  {
    if s == [] then 0
    else
      var d := s[|s| - 1] as int - '0' as int;
      10 * DecimalValue(s[..|s| - 1]) + (if 0 <= d then d else 0)
  }

  /** Reading back the decimal text gives the number. */
  lemma {:induction false} NatToStringValue(n: nat)
    ensures DecimalValue(NatToString(n)) == n
    decreases n
  {
    if n >= 10 {
      var s := NatToString(n);
      assert s[..|s| - 1] == NatToString(n / 10);
      NatToStringValue(n / 10);
    }
  }

  /** A run of digits followed by text that starts with a non-digit is
      found again from the joined text. */
  lemma DigitsPrefix(x: string, y: string, r1: string, r2: string)
    requires forall i :: 0 <= i < |x| ==> IsDigit(x[i])
    requires forall i :: 0 <= i < |y| ==> IsDigit(y[i])
    requires |r1| > 0 && |r2| > 0 && !IsDigit(r1[0]) && !IsDigit(r2[0])
    requires x + r1 == y + r2
    ensures x == y && r1 == r2
  {
    var m := if |x| <= |y| then |x| else |y|;
    assert (x + r1)[m] == (y + r2)[m];
    assert x == (x + r1)[..|x|] && y == (y + r2)[..|y|];
    assert r1 == (x + r1)[|x|..] && r2 == (y + r2)[|y|..];
  }

  /** Two texts with the same beginning agree on the rest. */
  lemma DropPrefix(p: string, a: string, b: string)
    requires p + a == p + b
    ensures a == b
  {
    assert a == (p + a)[|p|..] && b == (p + b)[|p|..];
  }

  /** The number of line breaks in `s`. */
  function Breaks(s: string): nat
    decreases |s|
  {
    if s == [] then 0 else Breaks(s[..|s| - 1]) + (if s[|s| - 1] == '\n' then 1 else 0)
  }

  lemma {:induction false} BreaksAppend(a: string, b: string)
    ensures Breaks(a + b) == Breaks(a) + Breaks(b)
    decreases |b|
  {
    if b == [] {
      assert a + b == a;
    } else {
      assert (a + b)[..|a + b| - 1] == a + b[..|b| - 1];
      BreaksAppend(a, b[..|b| - 1]);
    }
  }

  lemma {:induction false} BreaksNone(s: string)
    requires '\n' !in s
    ensures Breaks(s) == 0
    decreases |s|
  {
    if s != [] {
      BreaksNone(s[..|s| - 1]);
    }
  }

  /** `s` is `n` whole lines: it ends with a line break and holds `n` of
      them. */
  predicate Lines(s: string, n: nat)
  {
    |s| > 0 && s[|s| - 1] == '\n' && Breaks(s) == n
  }

  function Verb(dir: Direction): string
  {
    match dir
    case Encode => "Encrypted!"
    case Decode => "Decrypted!"
  }

  /** The progress line, "n out of N --> Encrypted!". */
  function StatusLine(done: nat, total: nat, dir: Direction): string
  {
    NatToString(done) + " out of " + NatToString(total) + " --> " + Verb(dir) + "\n"
  }

  /** The progress line is one whole line, so the log still ends at a line
      break after it. */
  lemma StatusLineWhole(done: nat, total: nat, dir: Direction)
    ensures Lines(StatusLine(done, total, dir), 1)
  {
    var a := NatToString(done) + " out of ";
    var b := a + NatToString(total);
    var c := b + " --> ";
    var d := c + Verb(dir);
    BreaksNone(NatToString(done));
    BreaksNone(NatToString(total));
    BreaksNone(" out of ");
    BreaksNone(" --> ");
    BreaksNone(Verb(dir));
    assert Breaks("\n") == 1;
    BreaksAppend(NatToString(done), " out of ");
    BreaksAppend(a, NatToString(total));
    BreaksAppend(b, " --> ");
    BreaksAppend(c, Verb(dir));
    BreaksAppend(d, "\n");
  }

  /** The progress line read from the left: the count, then the rest. */
  lemma StatusLineParts(done: nat, total: nat, dir: Direction)
    ensures StatusLine(done, total, dir)
            == NatToString(done) + (" out of " + (NatToString(total) + (" --> " + (Verb(dir) + "\n"))))
  {
  }

  /** The progress line shows its count, total and direction: two lines
      that read the same report the same progress. */
  lemma StatusLineDistinct(done: nat, total: nat, dir: Direction, done': nat, total': nat, dir': Direction)
    requires StatusLine(done, total, dir) == StatusLine(done', total', dir')
    ensures done == done' && total == total' && dir == dir'
  {
    var verb, verb' := Verb(dir) + "\n", Verb(dir') + "\n";
    var tail, tail' := NatToString(total) + (" --> " + verb), NatToString(total') + (" --> " + verb');
    StatusLineParts(done, total, dir);
    StatusLineParts(done', total', dir');
    DigitsPrefix(NatToString(done), NatToString(done'), " out of " + tail, " out of " + tail');
    NatToStringValue(done);
    NatToStringValue(done');
    DropPrefix(" out of ", tail, tail');
    DigitsPrefix(NatToString(total), NatToString(total'), " --> " + verb, " --> " + verb');
    NatToStringValue(total);
    NatToStringValue(total');
    DropPrefix(" --> ", verb, verb');
    assert verb[0] == Verb(dir)[0] && verb'[0] == Verb(dir')[0];
  }

  /** The fixed texts the log is built from. A view-model keeps them in a
      constant field that its constructor sets to `SourceWording`; the
      operations take them from there, so their proofs handle the texts as
      given strings rather than character by character. The indirection
      models nothing in the source; it exists to keep the solver's work
      small. */
  datatype Wording = Wording(
    keyMissing: string,
    folderMissing: string,
    encryptionStarted: string,
    folderLabel: string,
    keyFound: string,
    decryptionStarted: string,
    decryptionStartedEnd: string,
    folderFound: string,
    searching: string,
    foldersAnd: string,
    filesFound: string,
    encryptedDone: string,
    decryptedDone: string,
    folderArrow: string,
    doneEnd: string,
    cancelledCheck: string,
    cancelledUnprocessed: string)

  /** The texts exactly as `EncryptFiles` and `DecryptFiles` write them. */
  const SourceWording: Wording := Wording(
    "ERROR: File containing the encryption key does not exist!\n",
    "ERROR: Folder containing the files and subfolders does not exist!\n",
    "----------------------< !!! Encryption started !!! >----------------------\n",
    "Folder: ",
    "File containing encryption key found! File: ",
    "----------------------< !!! Decryption started !!! --> Folder: ",
    " >---------------------\n",
    "Folder found! Folder: ",
    "Folder found! Searching for subfolders and files ...! Folder: ",
    " folders & ",
    " files found!\n",
    "------------< DONE: Files encrypted! Execution time: ",
    "------------< DONE: Files decrypted! Execution time: ",
    " --> Folder: ",
    " >------------\n",
    "------------< CANCELLED: Check ",
    "/ModifiedFiles.txt for unprocessed files; Execution time: ")

  /** The line structure of the fixed texts, as `SourceWording` has it:
      those that end a line hold that one line break, and the others none. */
  predicate LineWording(w: Wording)
  {
    Lines(w.keyMissing, 1) && Lines(w.folderMissing, 1) && Lines(w.encryptionStarted, 1)
    && Lines(w.decryptionStartedEnd, 1) && Lines(w.filesFound, 1) && Lines(w.doneEnd, 1)
    && '\n' !in w.folderLabel && '\n' !in w.keyFound && '\n' !in w.decryptionStarted
    && '\n' !in w.folderFound && '\n' !in w.searching && '\n' !in w.foldersAnd
    && '\n' !in w.encryptedDone && '\n' !in w.decryptedDone && '\n' !in w.folderArrow
    && '\n' !in w.cancelledCheck && '\n' !in w.cancelledUnprocessed
  }

  /** The lines written once the key file is found. */
  function StartedLines(w: Wording, dir: Direction, folder: Path, keyFile: Path): string
  {
    match dir
    case Encode => w.encryptionStarted + w.folderLabel + folder + "\n" + w.keyFound + keyFile + "\n"
    case Decode => w.decryptionStarted + folder + w.decryptionStartedEnd + w.keyFound + keyFile + "\n"
  }

  /** The lines written once the folder is found, before the scan's count. */
  function FoundLines(w: Wording, folder: Path): string
  {
    w.folderFound + folder + "\n" + w.searching + folder + "\n"
  }

  /** The count of folders and files the scan found, one line. */
  function CountLine(w: Wording, folders: nat, files: nat): string
  {
    NatToString(folders) + w.foldersAnd + NatToString(files) + w.filesFound
  }

  /** The closing line of a finished run, with the elapsed time (and, for
      a decryption, the folder). */
  function DoneLine(w: Wording, dir: Direction, folder: Path, elapsedMs: nat): string
  {
    match dir
    case Encode => w.encryptedDone + NatToString(elapsedMs) + w.doneEnd
    case Decode => w.decryptedDone + NatToString(elapsedMs) + w.folderArrow + folder + w.doneEnd
  }

  /** The closing line of a cancelled run, naming the list of modified
      files in the folder. */
  function CancelledLine(w: Wording, folder: Path, elapsedMs: nat): string
  {
    w.cancelledCheck + folder + w.cancelledUnprocessed + NatToString(elapsedMs) + w.folderArrow + folder + w.doneEnd
  }

  /** Texts that break lines only at their ends, as `SourceWording` has
      them, and names without line breaks give log entries of whole lines:
      the start of an encryption is three lines (its banner is a line of its
      own), the start of a decryption two. */
  lemma StartedLinesWhole(w: Wording, dir: Direction, folder: Path, keyFile: Path)
    requires LineWording(w) && '\n' !in folder && '\n' !in keyFile
    ensures Lines(StartedLines(w, dir, folder, keyFile), if dir == Encode then 3 else 2)
  {
    var found := w.keyFound + keyFile + "\n";
    EndLine(w.keyFound, keyFile);
    match dir
    case Encode =>
      var head := w.encryptionStarted + w.folderLabel + folder + "\n";
      EndLine(w.folderLabel, folder);
      JoinLines(w.encryptionStarted, w.folderLabel + folder + "\n", 1, 1);
      assert head == w.encryptionStarted + (w.folderLabel + folder + "\n");
      JoinLines(head, found, 2, 1);
      assert StartedLines(w, dir, folder, keyFile) == head + found;
    case Decode =>
      var head := w.decryptionStarted + folder + w.decryptionStartedEnd;
      BreaksNone(w.decryptionStarted + folder);
      JoinLines(w.decryptionStarted + folder, w.decryptionStartedEnd, 0, 1);
      JoinLines(head, found, 1, 1);
      assert StartedLines(w, dir, folder, keyFile) == head + found;
  }

  /** A text and a name, neither breaking a line, and then a line break. */
  lemma EndLine(a: string, b: string)
    requires '\n' !in a && '\n' !in b
    ensures Lines(a + b + "\n", 1)
  {
    BreaksNone(a + b);
    BreaksAppend(a + b, "\n");
    assert Breaks("\n") == 1;
  }

  /** Text with `m` line breaks followed by `n` whole lines. */
  lemma JoinLines(a: string, b: string, m: nat, n: nat)
    requires Breaks(a) == m && Lines(b, n)
    ensures Lines(a + b, m + n)
  {
    BreaksAppend(a, b);
  }

  /** The report of the folder found is two whole lines. */
  lemma FoundLinesWhole(w: Wording, folder: Path)
    requires LineWording(w) && '\n' !in folder
    ensures Lines(FoundLines(w, folder), 2)
  {
    BreaksNone(folder);
    BreaksNone(w.folderFound);
    BreaksNone(w.searching);
    assert Breaks("\n") == 1;
    var first := w.folderFound + folder + "\n";
    var second := w.searching + folder + "\n";
    BreaksAppend(w.folderFound, folder);
    BreaksAppend(w.folderFound + folder, "\n");
    BreaksAppend(w.searching, folder);
    BreaksAppend(w.searching + folder, "\n");
    assert FoundLines(w, folder) == first + second;
    BreaksAppend(first, second);
  }

  /** The count of folders and files is one whole line. */
  lemma CountLineWhole(w: Wording, folders: nat, files: nat)
    requires LineWording(w)
    ensures Lines(CountLine(w, folders, files), 1)
  {
    BreaksNone(NatToString(folders));
    BreaksNone(NatToString(files));
    BreaksNone(w.foldersAnd);
    BreaksAppend(NatToString(folders), w.foldersAnd);
    BreaksAppend(NatToString(folders) + w.foldersAnd, NatToString(files));
    BreaksAppend(NatToString(folders) + w.foldersAnd + NatToString(files), w.filesFound);
  }

  /** The DONE line is one whole line. */
  lemma DoneLineWhole(w: Wording, dir: Direction, folder: Path, elapsedMs: nat)
    requires LineWording(w) && '\n' !in folder
    ensures Lines(DoneLine(w, dir, folder, elapsedMs), 1)
  {
    var time := NatToString(elapsedMs);
    BreaksNone(time);
    match dir
    case Encode =>
      BreaksNone(w.encryptedDone);
      BreaksAppend(w.encryptedDone, time);
      BreaksAppend(w.encryptedDone + time, w.doneEnd);
    case Decode =>
      BreaksNone(w.decryptedDone);
      BreaksNone(w.folderArrow);
      BreaksNone(folder);
      BreaksAppend(w.decryptedDone, time);
      BreaksAppend(w.decryptedDone + time, w.folderArrow);
      BreaksAppend(w.decryptedDone + time + w.folderArrow, folder);
      BreaksAppend(w.decryptedDone + time + w.folderArrow + folder, w.doneEnd);
  }

  /** The CANCELLED line is one whole line. */
  lemma CancelledLineWhole(w: Wording, folder: Path, elapsedMs: nat)
    requires LineWording(w) && '\n' !in folder
    ensures Lines(CancelledLine(w, folder, elapsedMs), 1)
  {
    var time := NatToString(elapsedMs);
    BreaksNone(time);
    BreaksNone(folder);
    BreaksNone(w.cancelledCheck);
    BreaksNone(w.cancelledUnprocessed);
    BreaksNone(w.folderArrow);
    var a := w.cancelledCheck + folder;
    var b := a + w.cancelledUnprocessed;
    var c := b + time;
    var d := c + w.folderArrow;
    var e := d + folder;
    BreaksAppend(w.cancelledCheck, folder);
    BreaksAppend(a, w.cancelledUnprocessed);
    BreaksAppend(b, time);
    BreaksAppend(c, w.folderArrow);
    BreaksAppend(d, folder);
    BreaksAppend(e, w.doneEnd);
  }

  /** `message.Remove(message.Length - last.Length) + next`. */
  function ReplaceLastLine(message: string, last: string, next: string): (r: string)
    requires |message| >= |last|
    ensures |r| == |message| - |last| + |next|
    ensures forall i :: 0 <= i < |message| - |last| ==> r[i] == message[i]
    ensures r[|message| - |last|..] == next
  {
    message[..|message| - |last|] + next
  }

  /** When the message ends with the progress line, recording a file
      replaces that line and keeps everything before it. */
  lemma ReplaceLastLineKeepsPrefix(prefix: string, last: string, next: string)
    ensures ReplaceLastLine(prefix + last, last, next) == prefix + next
  {
    assert (prefix + last)[..|prefix|] == prefix;
  }

  /** The file system after rewriting some files, and whether a
      `TransformFile` call threw. */
  datatype Sweep = Sweep(fs: FileSystem, crashed: bool)

  /** One `TransformFile` call that sees no cancel. */
  function RewriteOne(fs: FileSystem, file: Path, f: BlockTransform, blockSize: int): Sweep
  {
    if blockSize < 0 then Sweep(fs, true)
    else if file !in fs then Sweep(fs[TempName(file) := []], true)
    else Sweep(Replace(fs, file, f, blockSize), false)
  }

  /** `TransformFile` on each file in turn, stopping at the first that throws. */
  function RewriteAll(fs: FileSystem, files: seq<Path>, f: BlockTransform, blockSize: int): Sweep
    decreases |files|
  {
    if files == [] then Sweep(fs, false)
    else
      var before := RewriteAll(fs, files[..|files| - 1], f, blockSize);
      if before.crashed then before else RewriteOne(before.fs, files[|files| - 1], f, blockSize)
  }

  /** What one call does: it throws on a negative block size (before
      touching anything) or on a missing file (leaving an empty temporary
      file); otherwise the file holds its rewrite, its temporary name is
      gone and every other file is as it was. */
  lemma RewriteOneEffect(fs: FileSystem, file: Path, f: BlockTransform, blockSize: int)
    ensures var r := RewriteOne(fs, file, f, blockSize);
      (r.crashed <==> blockSize < 0 || file !in fs)
      && (blockSize < 0 ==> r.fs == fs)
      && (blockSize >= 0 && file !in fs ==>
            r.fs.Keys == fs.Keys + {TempName(file)} && r.fs[TempName(file)] == []
            && forall p :: p in fs && p != TempName(file) ==> r.fs[p] == fs[p])
      && (!r.crashed ==>
            r.fs.Keys == fs.Keys - {TempName(file)} && r.fs[file] == Rewritten(f, fs[file], blockSize)
            && forall p :: p in r.fs && p != file ==> r.fs[p] == fs[p])
  {
  }

  /** A sweep that throws on nothing never creates a file, and every file
      it was given was there; with a negative block size the first call
      throws and nothing changes. */
  lemma {:induction false} RewriteAllKeeps(fs: FileSystem, files: seq<Path>, f: BlockTransform, blockSize: int)
    ensures var r := RewriteAll(fs, files, f, blockSize);
      (files != [] && blockSize < 0 ==> r == Sweep(fs, true))
      && (!r.crashed ==> r.fs.Keys <= fs.Keys && forall i :: 0 <= i < |files| ==> files[i] in fs)
    decreases |files|
  {
    if files != [] {
      var front := files[..|files| - 1];
      RewriteAllKeeps(fs, front, f, blockSize);
      var before := RewriteAll(fs, front, f, blockSize);
      if !before.crashed {
        RewriteOneEffect(before.fs, files[|files| - 1], f, blockSize);
      }
      assert forall i :: 0 <= i < |front| ==> front[i] == files[i];
    }
  }

  /** Once a call has thrown, later files change nothing. */
  lemma {:induction false} RewriteAllStops(fs: FileSystem, files: seq<Path>, n: nat, f: BlockTransform, blockSize: int)
    requires n <= |files| && RewriteAll(fs, files[..n], f, blockSize).crashed
    ensures RewriteAll(fs, files, f, blockSize) == RewriteAll(fs, files[..n], f, blockSize)
    decreases |files|
  {
    if n < |files| {
      var front := files[..|files| - 1];
      assert front[..n] == files[..n];
      RewriteAllStops(fs, front, n, f, blockSize);
    } else {
      assert files[..n] == files;
    }
  }

  /** Files that can be rewritten side by side: each listed once, each
      present, and none with a temporary file already beside it. */
  ghost predicate Separate(fs: FileSystem, files: seq<Path>)
  {
    NoDup(files) && forall i :: 0 <= i < |files| ==> files[i] in fs && TempName(files[i]) !in fs
  }

  /** Rewriting separate files replaces each of them by its rewrite and
      touches nothing else. */
  lemma {:induction false} RewriteAllPointwise(fs: FileSystem, files: seq<Path>, f: BlockTransform, blockSize: int)
    requires blockSize >= 0 && Separate(fs, files)
    ensures !RewriteAll(fs, files, f, blockSize).crashed
    ensures RewriteAll(fs, files, f, blockSize).fs.Keys == fs.Keys
    ensures forall p :: p in fs ==>
      RewriteAll(fs, files, f, blockSize).fs[p] == if p in files then Rewritten(f, fs[p], blockSize) else fs[p]
    decreases |files|
  {
    if files != [] {
      var front := files[..|files| - 1];
      var last := files[|files| - 1];
      assert Separate(fs, front) by {
        forall i | 0 <= i < |front| ensures front[i] == files[i] { }
      }
      RewriteAllPointwise(fs, front, f, blockSize);
      var mid := RewriteAll(fs, front, f, blockSize).fs;
      assert last !in front by {
        forall i | 0 <= i < |front| ensures front[i] != last {
          assert front[i] == files[i];
        }
      }
      assert files == front + [last];
      assert RewriteAll(fs, files, f, blockSize) == Sweep(Replace(mid, last, f, blockSize), false);
      ReplaceLast(fs, mid, front, last, f, blockSize);
    }
  }

  /** The last step of `RewriteAllPointwise`: replacing one more separate file. */
  lemma ReplaceLast(fs: FileSystem, mid: FileSystem, front: seq<Path>, last: Path, f: BlockTransform, blockSize: nat)
    requires last in fs && TempName(last) !in fs && last !in front && mid.Keys == fs.Keys
    requires forall p :: p in fs ==> mid[p] == if p in front then Rewritten(f, fs[p], blockSize) else fs[p]
    ensures Replace(mid, last, f, blockSize).Keys == fs.Keys
    ensures forall p :: p in fs ==>
      Replace(mid, last, f, blockSize)[p] == if p in front + [last] then Rewritten(f, fs[p], blockSize) else fs[p]
  {
    forall p | p in fs
      ensures Replace(mid, last, f, blockSize)[p] == if p in front + [last] then Rewritten(f, fs[p], blockSize) else fs[p]
    {
      assert p in front + [last] <==> p in front || p == last;
    }
  }

  /** Decrypting every file an encryption run rewrote, with the same key and
      block size, restores the file system. */
  lemma RunRoundTrip(fs: FileSystem, files: seq<Path>, dir: Direction, rng: Sampler, key: seq<Byte>, blockSize: int)
    requires |key| > 0 && blockSize > 0 && Separate(fs, files)
    ensures var once := RewriteAll(fs, files, BlockCipher(dir, rng, key), blockSize);
      RewriteAll(once.fs, files, BlockCipher(Opposite(dir), rng, key), blockSize) == Sweep(fs, false)
  {
    var f := BlockCipher(dir, rng, key);
    var g := BlockCipher(Opposite(dir), rng, key);
    RewriteAllPointwise(fs, files, f, blockSize);
    var mid := RewriteAll(fs, files, f, blockSize).fs;
    assert Separate(mid, files);
    RewriteAllPointwise(mid, files, g, blockSize);
    var back := RewriteAll(mid, files, g, blockSize).fs;
    forall p | p in fs
      ensures back[p] == fs[p]
    {
      if p in files {
        FileRoundTrip(dir, rng, key, fs[p], blockSize);
      }
    }
  }

  /** With a block size of 0 every listed file is emptied. */
  lemma ZeroBlockEmpties(fs: FileSystem, files: seq<Path>, f: BlockTransform, p: Path)
    requires Separate(fs, files) && p in files
    ensures var r := RewriteAll(fs, files, f, 0); p in r.fs && r.fs[p] == []
  {
    RewriteAllPointwise(fs, files, f, 0);
  }

  /** A file listed together with its own temporary name: rewriting the
      first deletes the second, and the call on the second throws, leaving
      an empty temporary file of its own. */
  lemma TempNameCollision(f: BlockTransform)
    ensures var fs := map["a" := [1 as Byte], "a.tmp" := [2 as Byte]];
      var r := RewriteAll(fs, ["a", "a.tmp"], f, 8);
      r.crashed && "a.tmp" !in r.fs && "a.tmp.tmp" in r.fs && r.fs["a.tmp.tmp"] == []
  {
    var fs := map["a" := [1 as Byte], "a.tmp" := [2 as Byte]];
    var files: seq<Path> := ["a", "a.tmp"];
    assert files[..1] == ["a"] && ["a"][..0] == [];
    assert TempName("a") == "a.tmp";
    assert TempName("a.tmp") == "a.tmp.tmp";
    var first := RewriteAll(fs, ["a"], f, 8);
    assert first == Sweep(Replace(fs, "a", f, 8), false);
    assert "a.tmp" !in first.fs;
  }

  /** The reads of the run state that one file costs while the run stays in
      progress: the `switch` before it, one per block read and one after the
      copy loop inside `TransformFile`, and the check before it is recorded. */
  function FileReads(fs: FileSystem, file: Path, blockSize: int): nat
  {
    3 + if blockSize >= 0 && file in fs then BlockCount(|fs[file]|, blockSize) else 0
  }

  /** The reads of the run state made by the file loop when no cancel comes:
      `FileReads` of each file, in the file system the files before it left. */
  function SweepReads(fs: FileSystem, files: seq<Path>, f: BlockTransform, blockSize: int): nat
    decreases |files|
  {
    if files == [] then 0
    else
      var front := files[..|files| - 1];
      SweepReads(fs, front, f, blockSize) + FileReads(RewriteAll(fs, front, f, blockSize).fs, files[|files| - 1], blockSize)
  }

  /** One more file adds its own reads. */
  lemma SweepReadsNext(fs: FileSystem, files: seq<Path>, f: BlockTransform, blockSize: int, i: nat)
    requires i < |files|
    ensures SweepReads(fs, files[..i + 1], f, blockSize)
            == SweepReads(fs, files[..i], f, blockSize) + FileReads(RewriteAll(fs, files[..i], f, blockSize).fs, files[i], blockSize)
  {
    assert files[..i + 1][..i] == files[..i];
  }

  /** Every file costs at least three reads, so the count grows strictly
      along the list. */
  lemma {:induction false} SweepReadsGrow(fs: FileSystem, files: seq<Path>, f: BlockTransform, blockSize: int, i: nat, j: nat)
    requires i <= j <= |files|
    ensures SweepReads(fs, files[..i], f, blockSize) + 3 * (j - i) <= SweepReads(fs, files[..j], f, blockSize)
    decreases j
  {
    if i < j {
      SweepReadsGrow(fs, files, f, blockSize, i, j - 1);
      SweepReadsNext(fs, files, f, blockSize, j - 1);
    }
  }

  /** How a run whose cancel precedes read `cancel` leaves the files,
      `entered` of them having been handed to `TransformFile`: the `switch`
      before each entered file came before the cancel and the one before
      the next file did not. If the cancel came at that next `switch` (or
      the closing one), every entered file is rewritten and recorded; if it
      came at the check before recording, the last is rewritten but not
      recorded; if it came inside the last rewrite, that file is left as it
      was and only its temporary file is gone. */
  ghost predicate Stopped(fs: FileSystem, files: seq<Path>, f: BlockTransform, blockSize: int, cancel: nat,
                          fs': FileSystem, recorded: seq<Path>, entered: nat)
  {
    entered <= |files|
    && var cost := SweepReads(fs, files[..entered], f, blockSize);
       (entered > 0 ==> SweepReads(fs, files[..entered - 1], f, blockSize) < cancel)
       && cancel <= cost
       && !RewriteAll(fs, files[..entered], f, blockSize).crashed
       && (cancel == cost ==> recorded == files[..entered] && fs' == RewriteAll(fs, files[..entered], f, blockSize).fs)
       && (cancel + 1 == cost ==>
             entered > 0 && recorded == files[..entered - 1] && fs' == RewriteAll(fs, files[..entered], f, blockSize).fs)
       && (cancel + 1 < cost ==>
             entered > 0 && recorded == files[..entered - 1]
             && fs' == RewriteAll(fs, files[..entered - 1], f, blockSize).fs - {TempName(files[entered - 1])})
  }

  /** The files entered before a cancel are exactly those whose `switch`
      came before it. */
  lemma StoppedEntered(fs: FileSystem, files: seq<Path>, f: BlockTransform, blockSize: int, cancel: nat,
                       fs': FileSystem, recorded: seq<Path>, entered: nat, k: nat)
    requires Stopped(fs, files, f, blockSize, cancel, fs', recorded, entered) && k < |files|
    ensures k < entered <==> SweepReads(fs, files[..k], f, blockSize) < cancel
  {
    if k < entered {
      SweepReadsGrow(fs, files, f, blockSize, k, entered - 1);
    } else {
      SweepReadsGrow(fs, files, f, blockSize, entered, k);
    }
  }

  /** The state of the file loop before file `i`. While the run is in
      progress, every file so far is rewritten and recorded and the state
      has been read `SweepReads` times, none of them at the cancel; once it
      is cancelled, the files stand as `Stopped` says. */
  ghost predicate Swept(fs: FileSystem, files: seq<Path>, f: BlockTransform, blockSize: int, cancelAt: Option<nat>,
                        state: State, fs': FileSystem, recorded: seq<Path>, checks: nat, entered: nat, i: nat)
  {
    entered <= i <= |files|
    && (state == InProgress ==>
          entered == i && recorded == files[..i] && checks == SweepReads(fs, files[..i], f, blockSize)
          && (cancelAt.None? || cancelAt.value >= checks)
          && !RewriteAll(fs, files[..i], f, blockSize).crashed && fs' == RewriteAll(fs, files[..i], f, blockSize).fs)
    && (state != InProgress ==>
          state == Cancelled && cancelAt.Some? && cancelAt.value < checks
          && Stopped(fs, files, f, blockSize, cancelAt.value, fs', recorded, entered))
  }

  /** Rewriting one more file extends the sweep by one call. */
  lemma RewriteAllNext(fs: FileSystem, files: seq<Path>, f: BlockTransform, blockSize: int, i: nat)
    requires i < |files| && !RewriteAll(fs, files[..i], f, blockSize).crashed
    ensures RewriteAll(fs, files[..i + 1], f, blockSize)
            == RewriteOne(RewriteAll(fs, files[..i], f, blockSize).fs, files[i], f, blockSize)
  {
    assert files[..i + 1][..i] == files[..i];
  }

  /** A run in progress whose next `switch` (or closing one) sees the
      cancel: the files so far are all rewritten and recorded. */
  lemma StoppedAtSwitch(fs: FileSystem, files: seq<Path>, f: BlockTransform, blockSize: int,
                        fs': FileSystem, recorded: seq<Path>, i: nat)
    requires i <= |files| && recorded == files[..i]
    requires !RewriteAll(fs, files[..i], f, blockSize).crashed && fs' == RewriteAll(fs, files[..i], f, blockSize).fs
    ensures Stopped(fs, files, f, blockSize, SweepReads(fs, files[..i], f, blockSize), fs', recorded, i)
  {
    if i > 0 {
      SweepReadsNext(fs, files, f, blockSize, i - 1);
    }
  }

  /** A file whose `switch` comes at or after the cancel is skipped. */
  lemma SweptSkip(fs: FileSystem, files: seq<Path>, f: BlockTransform, blockSize: int, cancelAt: Option<nat>,
                  state: State, fs': FileSystem, recorded: seq<Path>, checks: nat, entered: nat, i: nat)
    requires i < |files| && Swept(fs, files, f, blockSize, cancelAt, state, fs', recorded, checks, entered, i)
    requires cancelAt.Some? && cancelAt.value <= checks
    ensures Swept(fs, files, f, blockSize, cancelAt, Cancelled, fs', recorded, checks + 1, entered, i + 1)
  {
    if state == InProgress {
      StoppedAtSwitch(fs, files, f, blockSize, fs', recorded, i);
    }
  }

  /** A file rewritten and recorded while the run stays in progress. */
  lemma SweptRecorded(fs: FileSystem, files: seq<Path>, f: BlockTransform, blockSize: int, cancelAt: Option<nat>,
                      fs1: FileSystem, recorded: seq<Path>, checks: nat, i: nat)
    requires i < |files| && recorded == files[..i]
    requires RewriteAll(fs, files[..i + 1], f, blockSize) == Sweep(fs1, false)
    requires checks == SweepReads(fs, files[..i + 1], f, blockSize)
    requires cancelAt.None? || cancelAt.value >= checks
    ensures Swept(fs, files, f, blockSize, cancelAt, InProgress, fs1, recorded + [files[i]], checks, i + 1, i + 1)
  {
    assert recorded + [files[i]] == files[..i + 1];
  }

  /** A file rewritten, with the cancel falling at the check before it is
      recorded. */
  lemma SweptUnrecorded(fs: FileSystem, files: seq<Path>, f: BlockTransform, blockSize: int, cancelAt: Option<nat>,
                        fs1: FileSystem, recorded: seq<Path>, checks: nat, i: nat)
    requires i < |files| && recorded == files[..i]
    requires RewriteAll(fs, files[..i + 1], f, blockSize) == Sweep(fs1, false)
    requires checks == SweepReads(fs, files[..i + 1], f, blockSize)
    requires cancelAt.Some? && SweepReads(fs, files[..i], f, blockSize) < cancelAt.value && cancelAt.value + 1 == checks
    ensures Swept(fs, files, f, blockSize, cancelAt, Cancelled, fs1, recorded, checks, i + 1, i + 1)
  {
  }

  /** A file whose rewrite saw the cancel and was discarded. */
  lemma SweptDiscarded(fs: FileSystem, files: seq<Path>, f: BlockTransform, blockSize: int, cancelAt: Option<nat>,
                       fs1: FileSystem, recorded: seq<Path>, checks: nat, i: nat)
    requires i < |files| && recorded == files[..i]
    requires !RewriteAll(fs, files[..i], f, blockSize).crashed
    requires fs1 == RewriteAll(fs, files[..i], f, blockSize).fs - {TempName(files[i])}
    requires !RewriteAll(fs, files[..i + 1], f, blockSize).crashed
    requires checks == SweepReads(fs, files[..i + 1], f, blockSize)
    requires cancelAt.Some? && SweepReads(fs, files[..i], f, blockSize) < cancelAt.value && cancelAt.value + 1 < checks
    ensures Swept(fs, files, f, blockSize, cancelAt, Cancelled, fs1, recorded, checks, i + 1, i + 1)
  {
  }

  /** A run still in progress after the last file whose closing `switch`
      sees the cancel: every file is rewritten and recorded. */
  lemma SweptCancelAtClose(fs: FileSystem, files: seq<Path>, f: BlockTransform, blockSize: int,
                           fs': FileSystem, recorded: seq<Path>, checks: nat)
    requires Swept(fs, files, f, blockSize, Some(checks), InProgress, fs', recorded, checks, |files|, |files|)
    ensures Stopped(fs, files, f, blockSize, checks, fs', recorded, |files|)
  {
    StoppedAtSwitch(fs, files, f, blockSize, fs', recorded, |files|);
  }

  /** `TransformFile` on the next file while the run is in progress, in
      terms of the sweep: a call that throws or replaces the file extends
      it, and a call that sees the cancel only removes the temporary file.
      `checks` is the number of reads of the state before the call, and
      `blocks` the number of block reads the file costs. */
  method RewriteNext(fs: FileSystem, files: seq<Path>, i: nat, dir: Direction, key: seq<Byte>, blockSize: int,
                     rng: Sampler, cancelAt: Option<nat>, checks: nat, fs0: FileSystem)
    returns (fs1: FileSystem, outcome: Outcome, blocks: nat)
    requires i < |files| && |key| > 0
    requires !RewriteAll(fs, files[..i], BlockCipher(dir, rng, key), blockSize).crashed
    requires fs0 == RewriteAll(fs, files[..i], BlockCipher(dir, rng, key), blockSize).fs
    requires cancelAt.None? || cancelAt.value >= checks
    ensures blocks == (if blockSize >= 0 && files[i] in fs0 then BlockCount(|fs0[files[i]]|, blockSize) else 0)
    ensures outcome != Discarded ==>
      RewriteAll(fs, files[..i + 1], BlockCipher(dir, rng, key), blockSize) == Sweep(fs1, outcome == Crashed)
    ensures outcome == Replaced ==> cancelAt.None? || cancelAt.value > checks + blocks
    ensures outcome == Discarded ==>
      !RewriteAll(fs, files[..i + 1], BlockCipher(dir, rng, key), blockSize).crashed
      && fs1 == fs0 - {TempName(files[i])} && cancelAt.Some? && cancelAt.value <= checks + blocks
  {
    var local := if cancelAt.Some? then Some(cancelAt.value - checks) else None;
    fs1, outcome := TransformFile(fs0, files[i], dir, key, blockSize, rng, local);
    RewriteAllNext(fs, files, BlockCipher(dir, rng, key), blockSize, i);
    blocks := if blockSize >= 0 && files[i] in fs0 then BlockCount(|fs0[files[i]]|, blockSize) else 0;
  }

  /** A run that threw in `TransformFile` on file `entered - 1`, that
      file's `switch` having come before the cancel. */
  ghost predicate DiedAt(fs: FileSystem, files: seq<Path>, f: BlockTransform, blockSize: int, cancelAt: Option<nat>,
                         fs': FileSystem, entered: nat)
  {
    0 < entered <= |files|
    && (cancelAt.None? || cancelAt.value > SweepReads(fs, files[..entered - 1], f, blockSize))
    && fs' == RewriteAll(fs, files[..entered], f, blockSize).fs
    && RewriteAll(fs, files[..entered], f, blockSize).crashed
  }

  /** What the run does after the scan, given the files found, the key, the
      message so far (`prefix`, before the progress line) and the processor
      count and block size in force: an empty key or a processor count of 0
      throws before any file; otherwise the files are rewritten in order
      until the end, a throw or the cancel. The run finishes exactly when
      the cancel comes after every read of the state an uncancelled run
      makes, and the message ends with the progress line and the DONE or
      CANCELLED line. */
  ghost predicate RanFiles(dir: Direction, fs: FileSystem, files: seq<Path>, key: seq<Byte>, rng: Sampler,
                           cancelAt: Option<nat>, elapsedMs: nat, w: Wording, folder: Path, prefix: string,
                           processorCount: int, blockSize: int, state: State, message: string,
                           fs': FileSystem, recorded: seq<Path>, end: RunEnd, entered: nat)
  {
    (end == Finished || end == Aborted || end == Died)
    && (end != Died ==> state == Ready)
    && (processorCount == 0 || |key| == 0 ==> end == Died && fs' == fs && recorded == [])
    && (processorCount != 0 && |key| > 0 ==>
          var f := BlockCipher(dir, rng, key);
          (cancelAt.None? ==> fs' == RewriteAll(fs, files, f, blockSize).fs
                              && (end == Died <==> RewriteAll(fs, files, f, blockSize).crashed))
          && (end != Died ==> (end == Finished <==> cancelAt.None? || cancelAt.value > SweepReads(fs, files, f, blockSize)))
          && (end == Finished ==>
                recorded == files && !RewriteAll(fs, files, f, blockSize).crashed
                && fs' == RewriteAll(fs, files, f, blockSize).fs
                && message == prefix + StatusLine(|files|, |files|, dir) + DoneLine(w, dir, folder, elapsedMs))
          && (end == Aborted ==>
                cancelAt.Some? && Stopped(fs, files, f, blockSize, cancelAt.value, fs', recorded, entered)
                && message == prefix + StatusLine(|recorded|, |files|, dir) + CancelledLine(w, folder, elapsedMs))
          && (end == Died ==> DiedAt(fs, files, f, blockSize, cancelAt, fs', entered)))
  }

  /** A cancel before the first read of the state: no file is touched and
      the run ends cancelled. */
  lemma CancelBeforeAnyFile(dir: Direction, fs: FileSystem, files: seq<Path>, key: seq<Byte>, rng: Sampler,
                            elapsedMs: nat, w: Wording, folder: Path, prefix: string,
                            processorCount: int, blockSize: int, state: State, message: string,
                            fs': FileSystem, recorded: seq<Path>, end: RunEnd, entered: nat)
    requires processorCount != 0 && |key| > 0
    requires RanFiles(dir, fs, files, key, rng, Some(0), elapsedMs, w, folder, prefix, processorCount, blockSize,
                      state, message, fs', recorded, end, entered)
    ensures end == Aborted && fs' == fs && recorded == [] && entered == 0
  {
    assert files[..0] == [];
  }

  class MainWindowViewModel {
    /** `Environment.ProcessorCount`. */
    const hardwareThreads: int
    /** The fixed texts of the log. */
    const wording: Wording
    var bufferSize: int
    var appState: State
    var processorCount: int
    var sourceFolder: Path
    var keyFile: Path
    var errorMessage: string

    ghost predicate Valid()
      reads this
    {
      hardwareThreads >= 1 && 0 <= processorCount <= hardwareThreads
    }

    constructor(hardwareThreads: int)
      requires hardwareThreads >= 1
      ensures Valid()
      ensures this.hardwareThreads == hardwareThreads && wording == SourceWording
      ensures bufferSize == DefaultBufferSize && appState == Ready
      ensures processorCount == DefaultProcessorCount(hardwareThreads)
      ensures sourceFolder == [] && keyFile == [] && errorMessage == []
    {
      this.hardwareThreads := hardwareThreads;
      wording := SourceWording;
      bufferSize := DefaultBufferSize;
      appState := Ready;
      processorCount := DefaultProcessorCount(hardwareThreads);
      sourceFolder := [];
      keyFile := [];
      errorMessage := [];
    }

    /** The `ProcessorCount` setter. */
    method SetProcessorCount(value: int)
      requires Valid()
      modifies this
      ensures Valid()
      ensures processorCount == ClampProcessorCount(value, hardwareThreads)
      ensures bufferSize == old(bufferSize) && appState == old(appState) && sourceFolder == old(sourceFolder)
              && keyFile == old(keyFile) && errorMessage == old(errorMessage)
    {
      processorCount := ClampProcessorCount(value, hardwareThreads);
    }

    /** `CancelProcess`: whatever the state, it becomes `Cancelled`. */
    method CancelProcess()
      modifies this
      ensures appState == Cancelled
      ensures bufferSize == old(bufferSize) && processorCount == old(processorCount) && sourceFolder == old(sourceFolder)
              && keyFile == old(keyFile) && errorMessage == old(errorMessage)
    {
      appState := Cancelled;
    }

    /** The bookkeeping after a file is transformed and the run is still in
        progress: the file joins the list of modified files, the counter
        goes up by one and the progress line is replaced. */
    method RecordCompletion(file: Path, recorded: seq<Path>, done: nat, total: nat, dir: Direction)
      returns (recorded': seq<Path>, done': nat)
      requires |errorMessage| >= |StatusLine(done, total, dir)|
      modifies this
      ensures recorded' == recorded + [file] && done' == done + 1
      ensures errorMessage == ReplaceLastLine(old(errorMessage), StatusLine(done, total, dir), StatusLine(done', total, dir))
      ensures bufferSize == old(bufferSize) && processorCount == old(processorCount) && appState == old(appState)
              && sourceFolder == old(sourceFolder) && keyFile == old(keyFile)
    {
      recorded' := recorded + [file];
      var last := StatusLine(done, total, dir);
      errorMessage := errorMessage[..|errorMessage| - |last|];
      done' := done + 1;
      errorMessage := errorMessage + StatusLine(done', total, dir);
    }

    /** `EncryptFiles` (`dir == Encode`) or `DecryptFiles` (`dir ==
        Decode`), its thread run to the end in place. Nothing happens unless
        the state is `Ready`. A missing key file or folder writes an error
        and returns with the state left `InProgress`. Otherwise the folder is
        scanned, the block size grows with the key, and the files found are
        rewritten as `RanFiles` says. `recorded` is the run's list of
        modified files (on a cancel, the list appended to
        `ModifiedFiles.txt`). */
    method Run(dir: Direction, fs: FileSystem, tree: DirectoryMap, rng: Sampler, cancelAt: Option<nat>, elapsedMs: nat)
      returns (fs': FileSystem, recorded: seq<Path>, end: RunEnd, ghost entered: nat)
      requires Valid() && FileTree(tree)
      modifies this
      ensures Valid()
      ensures processorCount == old(processorCount) && sourceFolder == old(sourceFolder) && keyFile == old(keyFile)
      ensures end == Ignored <==> old(appState) != Ready
      ensures end == Ignored ==>
        fs' == fs && appState == old(appState) && errorMessage == old(errorMessage) && bufferSize == old(bufferSize)
      ensures end == Stuck <==> old(appState) == Ready && (keyFile !in fs || sourceFolder !in tree)
      ensures end == Stuck ==> fs' == fs && appState == InProgress
      ensures end == Stuck && keyFile !in fs ==> errorMessage == wording.keyMissing && bufferSize == old(bufferSize)
      ensures end == Stuck && keyFile in fs ==> errorMessage == StartedLines(wording, dir, sourceFolder, keyFile) + wording.folderMissing
      ensures old(appState) == Ready && keyFile in fs ==> bufferSize == GrownBufferSize(old(bufferSize), |fs[keyFile]|)
      ensures old(appState) == Ready && keyFile in fs && sourceFolder in tree ==>
        RanFiles(dir, fs, ScannedFiles(tree, sourceFolder), fs[keyFile], rng, cancelAt, elapsedMs, wording, sourceFolder,
                 StartedLines(wording, dir, sourceFolder, keyFile) + FoundLines(wording, sourceFolder)
                 + CountLine(wording, |Scan(tree, sourceFolder)|, |ScannedFiles(tree, sourceFolder)|),
                 processorCount, bufferSize, appState, errorMessage, fs', recorded, end, entered)
    {
      if appState != Ready {
        return fs, [], Ignored, 0;
      }
      appState := InProgress;
      var keyPath := keyFile;
      var folder := sourceFolder;
      if keyPath !in fs {
        errorMessage := wording.keyMissing;
        return fs, [], Stuck, 0;
      }
      bufferSize := GrownBufferSize(bufferSize, |fs[keyPath]|);
      errorMessage := StartedLines(wording, dir, folder, keyPath);
      if folder !in tree {
        errorMessage := errorMessage + wording.folderMissing;
        return fs, [], Stuck, 0;
      }
      // File.ReadAllBytes
      var key := fs[keyPath];
      fs', recorded, end, entered := ScanAndRun(dir, fs, tree, key, rng, cancelAt, elapsedMs, folder);
    }

    /** The part of a run after both paths were found: list the folder, report what was found, process the files. */
    method ScanAndRun(dir: Direction, fs: FileSystem, tree: DirectoryMap, key: seq<Byte>, rng: Sampler,
                      cancelAt: Option<nat>, elapsedMs: nat, folder: Path)
      returns (fs': FileSystem, recorded: seq<Path>, end: RunEnd, ghost entered: nat)
      requires Valid() && appState == InProgress && FileTree(tree) && folder in tree
      modifies this
      ensures Valid()
      ensures bufferSize == old(bufferSize) && processorCount == old(processorCount)
              && sourceFolder == old(sourceFolder) && keyFile == old(keyFile)
      ensures RanFiles(dir, fs, ScannedFiles(tree, folder), key, rng, cancelAt, elapsedMs, wording, folder,
                       old(errorMessage) + FoundLines(wording, folder) + CountLine(wording, |Scan(tree, folder)|, |ScannedFiles(tree, folder)|),
                       processorCount, bufferSize, appState, errorMessage, fs', recorded, end, entered)
    {
      var subFolders, files := ScanFolder(tree, folder);
      errorMessage := errorMessage + FoundLines(wording, folder) + CountLine(wording, |subFolders|, |files|);
      fs', recorded, end, entered := RunFiles(dir, fs, files, key, rng, cancelAt, elapsedMs, folder);
    }

    method RunFiles(dir: Direction, fs: FileSystem, files: seq<Path>, key: seq<Byte>, rng: Sampler,
                    cancelAt: Option<nat>, elapsedMs: nat, folder: Path)
      returns (fs': FileSystem, recorded: seq<Path>, end: RunEnd, ghost entered: nat)
      requires Valid() && appState == InProgress
      modifies this
      ensures Valid()
      ensures bufferSize == old(bufferSize) && processorCount == old(processorCount)
              && sourceFolder == old(sourceFolder) && keyFile == old(keyFile)
      ensures RanFiles(dir, fs, files, key, rng, cancelAt, elapsedMs, wording, folder, old(errorMessage),
                       processorCount, bufferSize, appState, errorMessage, fs', recorded, end, entered)
    {
      ghost var prefix := errorMessage;
      errorMessage := errorMessage + StatusLine(0, |files|, dir);
      entered := 0;
      if processorCount == 0 || |key| == 0 {
        return fs, [], Died, 0;
      }
      ghost var f := BlockCipher(dir, rng, key);
      var checks, died;
      fs', recorded, checks, died, entered := ProcessFiles(fs, files, dir, key, rng, cancelAt, prefix);
      if died {
        RewriteAllStops(fs, files, entered, f, bufferSize);
        return fs', recorded, Died, entered;
      }
      assert files[..|files|] == files;
      ghost var state := appState;
      end := FinishRun(dir, folder, cancelAt, checks, elapsedMs);
      if state == InProgress && end == Aborted {
        SweptCancelAtClose(fs, files, f, bufferSize, fs', recorded, checks);
      } else if state == Cancelled {
        SweepReadsGrow(fs, files, f, bufferSize, entered, |files|);
      }
    }

    /** The closing `switch (AppState)` after the files: a run still in
        progress writes the DONE line, a cancelled one the CANCELLED line,
        and both go back to `Ready`. */
    method FinishRun(dir: Direction, folder: Path, cancelAt: Option<nat>, checks: nat, elapsedMs: nat)
      returns (end: RunEnd)
      requires appState == InProgress || appState == Cancelled
      requires appState == InProgress <==> cancelAt.None? || cancelAt.value >= checks
      modifies this
      ensures appState == Ready
      ensures end == Finished <==> cancelAt.None? || cancelAt.value > checks
      ensures end == Finished || end == Aborted
      ensures end == Finished ==> errorMessage == old(errorMessage) + DoneLine(wording, dir, folder, elapsedMs)
      ensures end == Aborted ==> errorMessage == old(errorMessage) + CancelledLine(wording, folder, elapsedMs)
      ensures bufferSize == old(bufferSize) && processorCount == old(processorCount)
              && sourceFolder == old(sourceFolder) && keyFile == old(keyFile)
    {
      if cancelAt == Some(checks) {
        CancelProcess();
      }
      if appState == InProgress {
        errorMessage := errorMessage + DoneLine(wording, dir, folder, elapsedMs);
        end := Finished;
      } else {
        errorMessage := errorMessage + CancelledLine(wording, folder, elapsedMs);
        end := Aborted;
      }
      appState := Ready;
    }

    /** The `Parallel.ForEach` over the files, run one file after another.
        `checks` is the number of reads of the run state it made. */
    method ProcessFiles(fs: FileSystem, files: seq<Path>, dir: Direction, key: seq<Byte>, rng: Sampler,
                        cancelAt: Option<nat>, ghost prefix: string)
      returns (fs': FileSystem, recorded: seq<Path>, checks: nat, died: bool, ghost entered: nat)
      requires |key| > 0 && appState == InProgress
      requires errorMessage == prefix + StatusLine(0, |files|, dir)
      modifies this
      ensures bufferSize == old(bufferSize) && processorCount == old(processorCount)
              && sourceFolder == old(sourceFolder) && keyFile == old(keyFile)
      ensures died ==> DiedAt(fs, files, BlockCipher(dir, rng, key), bufferSize, cancelAt, fs', entered)
      ensures !died ==> Swept(fs, files, BlockCipher(dir, rng, key), bufferSize, cancelAt, appState,
                              fs', recorded, checks, entered, |files|)
      ensures !died ==> errorMessage == prefix + StatusLine(|recorded|, |files|, dir)
    {
      fs', recorded, checks, died, entered := fs, [], 0, false, 0;
      assert files[..0] == [];
      var i := 0;
      while i < |files|
        invariant i <= |files|
        invariant Swept(fs, files, BlockCipher(dir, rng, key), bufferSize, cancelAt, appState, fs', recorded, checks, entered, i)
        invariant errorMessage == prefix + StatusLine(|recorded|, |files|, dir)
        invariant bufferSize == old(bufferSize) && processorCount == old(processorCount)
                  && sourceFolder == old(sourceFolder) && keyFile == old(keyFile)
      {
        fs', recorded, checks, died, entered := VisitFile(fs, files, i, dir, key, rng, cancelAt, prefix, fs', recorded, checks, entered);
        if died {
          return;
        }
        i := i + 1;
      }
    }

    /** One iteration of the `Parallel.ForEach`: the run state is read, and
        the file is skipped unless the run is still in progress. A skip costs
        one read; a file handed on costs `FileReads`. */
    method VisitFile(fs: FileSystem, files: seq<Path>, i: nat, dir: Direction, key: seq<Byte>, rng: Sampler,
                     cancelAt: Option<nat>, ghost prefix: string,
                     fs0: FileSystem, recorded: seq<Path>, checks: nat, ghost entered: nat)
      returns (fs1: FileSystem, recorded': seq<Path>, checks': nat, died: bool, ghost entered': nat)
      requires i < |files| && |key| > 0
      requires Swept(fs, files, BlockCipher(dir, rng, key), bufferSize, cancelAt, appState, fs0, recorded, checks, entered, i)
      requires errorMessage == prefix + StatusLine(|recorded|, |files|, dir)
      modifies this
      ensures bufferSize == old(bufferSize) && processorCount == old(processorCount)
              && sourceFolder == old(sourceFolder) && keyFile == old(keyFile)
      ensures old(appState) != InProgress || cancelAt == Some(checks) ==>
        !died && fs1 == fs0 && recorded' == recorded && checks' == checks + 1 && entered' == entered
      ensures old(appState) == InProgress && cancelAt != Some(checks) ==>
        entered' == i + 1 && (!died ==> checks' == SweepReads(fs, files[..i + 1], BlockCipher(dir, rng, key), bufferSize))
      ensures died ==> DiedAt(fs, files, BlockCipher(dir, rng, key), bufferSize, cancelAt, fs1, entered')
      ensures !died ==> Swept(fs, files, BlockCipher(dir, rng, key), bufferSize, cancelAt, appState, fs1, recorded', checks', entered', i + 1)
                        && errorMessage == prefix + StatusLine(|recorded'|, |files|, dir)
    {
      // switch (AppState)
      if cancelAt == Some(checks) {
        CancelProcess();
      }
      if appState != InProgress {
        SweptSkip(fs, files, BlockCipher(dir, rng, key), bufferSize, cancelAt, old(appState), fs0, recorded, checks, entered, i);
        return fs0, recorded, checks + 1, false, entered;
      }
      fs1, recorded', checks', died := TransformAndRecord(fs, files, i, dir, key, rng, cancelAt, prefix, fs0, recorded, checks + 1);
      entered' := i + 1;
    }

    /** The in-progress branch of one iteration: `TransformFile`, then, if
        the state read after it is still in progress, `RecordCompletion`.
        `checks` counts the reads of the state so far, the file's `switch`
        included. */
    method TransformAndRecord(fs: FileSystem, files: seq<Path>, i: nat, dir: Direction, key: seq<Byte>, rng: Sampler,
                              cancelAt: Option<nat>, ghost prefix: string,
                              fs0: FileSystem, recorded: seq<Path>, checks: nat)
      returns (fs1: FileSystem, recorded': seq<Path>, checks': nat, died: bool)
      requires i < |files| && |key| > 0 && appState == InProgress && recorded == files[..i]
      requires !RewriteAll(fs, files[..i], BlockCipher(dir, rng, key), bufferSize).crashed
      requires fs0 == RewriteAll(fs, files[..i], BlockCipher(dir, rng, key), bufferSize).fs
      requires checks == SweepReads(fs, files[..i], BlockCipher(dir, rng, key), bufferSize) + 1
      requires cancelAt.None? || cancelAt.value >= checks
      requires errorMessage == prefix + StatusLine(|recorded|, |files|, dir)
      modifies this
      ensures bufferSize == old(bufferSize) && processorCount == old(processorCount)
              && sourceFolder == old(sourceFolder) && keyFile == old(keyFile)
      ensures died ==> fs1 == RewriteAll(fs, files[..i + 1], BlockCipher(dir, rng, key), bufferSize).fs
                       && RewriteAll(fs, files[..i + 1], BlockCipher(dir, rng, key), bufferSize).crashed
      ensures !died ==> checks' == SweepReads(fs, files[..i + 1], BlockCipher(dir, rng, key), bufferSize)
      ensures !died ==> Swept(fs, files, BlockCipher(dir, rng, key), bufferSize, cancelAt, appState, fs1, recorded', checks', i + 1, i + 1)
                        && errorMessage == prefix + StatusLine(|recorded'|, |files|, dir)
    {
      ghost var f := BlockCipher(dir, rng, key);
      var file := files[i];
      var outcome, blocks;
      fs1, outcome, blocks := RewriteNext(fs, files, i, dir, key, bufferSize, rng, cancelAt, checks, fs0);
      SweepReadsNext(fs, files, f, bufferSize, i);
      recorded', checks', died := recorded, checks + blocks + 1, false;
      if outcome == Crashed {
        died := true;
        return;
      }
      if outcome == Discarded {
        // the cancel that the rewrite observed
        CancelProcess();
      }
      // if (AppState == InProgress)
      if cancelAt == Some(checks') {
        CancelProcess();
      }
      checks' := checks' + 1;
      assert checks' == SweepReads(fs, files[..i + 1], f, bufferSize);
      if appState == InProgress {
        assert cancelAt.None? || cancelAt.value >= checks';
        var done := |recorded|;
        var last := StatusLine(done, |files|, dir);
        assert errorMessage == prefix + last;
        assert |errorMessage| == |prefix| + |last|;
        ReplaceLastLineKeepsPrefix(prefix, last, StatusLine(done + 1, |files|, dir));
        recorded', done := RecordCompletion(file, recorded, done, |files|, dir);
        SweptRecorded(fs, files, f, bufferSize, cancelAt, fs1, recorded, checks', i);
      } else if outcome == Discarded {
        SweptDiscarded(fs, files, f, bufferSize, cancelAt, fs1, recorded, checks', i);
      } else {
        SweptUnrecorded(fs, files, f, bufferSize, cancelAt, fs1, recorded, checks', i);
      }
    }
  }
}
