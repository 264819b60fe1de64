/** `TransformFile`: a file is read in blocks of `blockSize` bytes through one
    reused buffer, each block is transformed on its own (so the key phase
    restarts at every block) and written to `<file>.tmp`; at the end the
    temporary file is either deleted (cancelled) or renamed over the original.

    The file system is a map from path to contents. Cancellation is an input:
    `cancelAt` is the number of reads of the run state that still see it in
    progress before the first that sees it cancelled. */
module FileRewrite {
  import opened Bytes
  import opened FisherYates
  import opened Cipher

  datatype Option<T> = None | Some(value: T)

  type Path = string

  type FileSystem = map<Path, seq<Byte>>

  /** Which of the two transforms a run applies. */
  datatype Direction = Encode | Decode

  /** How one `TransformFile` call ends: the original replaced by the
      rewrite, the rewrite discarded after a cancel, or an exception. */
  datatype Outcome = Replaced | Discarded | Crashed

  /** `fileName + ".tmp"`: never the file itself. */
  function TempName(fileName: Path): (tmp: Path)
    ensures tmp != fileName && |tmp| == |fileName| + 4
    ensures tmp[..|fileName|] == fileName
  {
    fileName + ".tmp"
  }

  /** The transform passed to `TransformFile`, as a function on the bytes a
      read returned. */
  type BlockTransform = seq<Byte> -> seq<Byte>

  ghost predicate KeepsLength(f: BlockTransform)
  {
    forall s :: |f(s)| == |s|
  }

  /** `EncodeTransform` or `DecodeTransform` with the run's key. */
  function BlockCipher(dir: Direction, rng: Sampler, key: seq<Byte>): (f: BlockTransform)
    requires |key| > 0
  {
    match dir
    case Encode => s => EncodeBlock(rng, key, s)
    case Decode => s => DecodeBlock(rng, key, s)
  }

  /** What `Cipher` does to one block. */
  lemma CipherApply(dir: Direction, rng: Sampler, key: seq<Byte>, s: seq<Byte>)
    requires |key| > 0
    ensures dir == Encode ==> BlockCipher(dir, rng, key)(s) == EncodeBlock(rng, key, s)
    ensures dir == Decode ==> BlockCipher(dir, rng, key)(s) == DecodeBlock(rng, key, s)
  {
  }

  /** Both transforms keep the block length. */
  lemma CipherKeepsLength(dir: Direction, rng: Sampler, key: seq<Byte>)
    requires |key| > 0
    ensures KeepsLength(BlockCipher(dir, rng, key))
  {
    forall s ensures |BlockCipher(dir, rng, key)(s)| == |s| {
      CipherApply(dir, rng, key, s);
    }
  }

  function Opposite(dir: Direction): Direction
  {
    match dir
    case Encode => Decode
    case Decode => Encode
  }

  /** Each direction undoes the other on every block. */
  lemma CipherInverse(dir: Direction, rng: Sampler, key: seq<Byte>)
    requires |key| > 0
    ensures forall s :: BlockCipher(Opposite(dir), rng, key)(BlockCipher(dir, rng, key)(s)) == s
  {
    forall s ensures BlockCipher(Opposite(dir), rng, key)(BlockCipher(dir, rng, key)(s)) == s {
      var once := BlockCipher(dir, rng, key)(s);
      CipherApply(dir, rng, key, s);
      CipherApply(Opposite(dir), rng, key, once);
      if dir == Encode {
        DecodeEncode(rng, key, s);
      } else {
        EncodeDecode(rng, key, s);
      }
    }
  }

  /** The byte count a full-buffer `Read` returns with `remaining` bytes left. */
  function ReadLength(remaining: nat, blockSize: nat): (n: nat)
    ensures n <= remaining && n <= blockSize
    ensures n == remaining || n == blockSize
  {
    if remaining < blockSize then remaining else blockSize
  }

  /** The successive reads of a file: `blockSize` bytes each, the last one
      short. A zero-byte buffer reads nothing at all. */
  function Blocks(content: seq<Byte>, blockSize: nat): seq<seq<Byte>>
    decreases |content|
  {
    if blockSize == 0 || content == [] then []
    else
      var n := ReadLength(|content|, blockSize);
      [content[..n]] + Blocks(content[n..], blockSize)
  }

  function Concat(blocks: seq<seq<Byte>>): seq<Byte>
  {
    if blocks == [] then [] else blocks[0] + Concat(blocks[1..])
  }

  /** What ends up in the temporary file when no cancel intervenes. */
  function Rewritten(f: BlockTransform, content: seq<Byte>, blockSize: nat): seq<Byte>
    decreases |content|
  {
    if blockSize == 0 || content == [] then []
    else
      var n := ReadLength(|content|, blockSize);
      f(content[..n]) + Rewritten(f, content[n..], blockSize)
  }

  lemma DivStep(x: nat, d: nat)
    requires d > 0
    ensures (x + d) / d == x / d + 1
  {
    DivModUnique(x + d, d, x / d + 1, x % d);
  }

  /** The reads cover the file exactly, in order: ⌈|content| / blockSize⌉
      blocks, every one of them full except possibly the last. */
  lemma {:induction false} BlocksPartition(content: seq<Byte>, blockSize: nat)
    requires blockSize > 0
    ensures Concat(Blocks(content, blockSize)) == content
    ensures |Blocks(content, blockSize)| == (|content| + blockSize - 1) / blockSize
    ensures forall k :: 0 <= k < |Blocks(content, blockSize)| ==> 0 < |Blocks(content, blockSize)[k]| <= blockSize
    ensures forall k :: 0 <= k < |Blocks(content, blockSize)| - 1 ==> |Blocks(content, blockSize)[k]| == blockSize
    decreases |content|
  {
    if content != [] {
      var n := ReadLength(|content|, blockSize);
      var rest := Blocks(content[n..], blockSize);
      BlocksPartition(content[n..], blockSize);
      assert Blocks(content, blockSize) == [content[..n]] + rest;
      assert ([content[..n]] + rest)[1..] == rest;
      assert content[..n] + content[n..] == content;
      if n == blockSize {
        DivStep(|content| - n + blockSize - 1, blockSize);
      } else {
        assert |content[n..]| == 0;
      }
    }
  }

  /** The transform applied to each block of a list. */
  function TransformEach(f: BlockTransform, blocks: seq<seq<Byte>>): (r: seq<seq<Byte>>)
    ensures |r| == |blocks|
    ensures forall k :: 0 <= k < |r| ==> r[k] == f(blocks[k])
  {
    if blocks == [] then [] else [f(blocks[0])] + TransformEach(f, blocks[1..])
  }

  /** The rewrite is the transform applied to each read block separately,
      concatenated in read order: the key phase restarts at every block. */
  lemma {:induction false} RewrittenBlockwise(f: BlockTransform, content: seq<Byte>, blockSize: nat)
    ensures Rewritten(f, content, blockSize) == Concat(TransformEach(f, Blocks(content, blockSize)))
    decreases |content|
  {
    if blockSize > 0 && content != [] {
      var n := ReadLength(|content|, blockSize);
      var rest := Blocks(content[n..], blockSize);
      RewrittenBlockwise(f, content[n..], blockSize);
      var bs := [content[..n]] + rest;
      assert Blocks(content, blockSize) == bs;
      assert bs[1..] == rest;
      var ts := TransformEach(f, bs);
      assert ts[1..] == TransformEach(f, rest);
    }
  }

  /** With a non-empty buffer the rewrite keeps the file's length; with a
      zero-byte buffer it is empty whatever the file held. */
  lemma {:induction false} RewrittenLength(f: BlockTransform, content: seq<Byte>, blockSize: nat)
    requires KeepsLength(f)
    ensures blockSize > 0 ==> |Rewritten(f, content, blockSize)| == |content|
    ensures blockSize == 0 ==> Rewritten(f, content, blockSize) == []
    decreases |content|
  {
    if blockSize > 0 && content != [] {
      var n := ReadLength(|content|, blockSize);
      RewrittenLength(f, content[n..], blockSize);
    }
  }

  /** A rewrite splits at a block boundary: a first block that is full, or
      short and last, is transformed on its own. */
  lemma RewrittenSplit(f: BlockTransform, head: seq<Byte>, tail: seq<Byte>, blockSize: nat)
    requires 0 < |head| <= blockSize
    requires |head| == blockSize || tail == []
    ensures Rewritten(f, head + tail, blockSize) == f(head) + Rewritten(f, tail, blockSize)
  {
    var content := head + tail;
    assert ReadLength(|content|, blockSize) == |head|;
    assert content[..|head|] == head && content[|head|..] == tail;
  }

  /** Rewriting with a block transform and then with its inverse, at the same
      buffer size, restores the file. */
  lemma {:induction false} RewriteRoundTrip(f: BlockTransform, g: BlockTransform, content: seq<Byte>, blockSize: nat)
    requires KeepsLength(f) && blockSize > 0
    requires forall s :: g(f(s)) == s
    ensures Rewritten(g, Rewritten(f, content, blockSize), blockSize) == content
    decreases |content|
  {
    if content != [] {
      var n := ReadLength(|content|, blockSize);
      var tail := Rewritten(f, content[n..], blockSize);
      RewrittenLength(f, content[n..], blockSize);
      RewrittenSplit(g, f(content[..n]), tail, blockSize);
      RewriteRoundTrip(f, g, content[n..], blockSize);
      assert content[..n] + content[n..] == content;
    }
  }

  /** Decoding a file encoded with the same key and buffer size restores it,
      and so does encoding a decoded file. */
  lemma FileRoundTrip(dir: Direction, rng: Sampler, key: seq<Byte>, content: seq<Byte>, blockSize: nat)
    requires |key| > 0 && blockSize > 0
    ensures Rewritten(BlockCipher(Opposite(dir), rng, key), Rewritten(BlockCipher(dir, rng, key), content, blockSize), blockSize)
      == content
  {
    CipherKeepsLength(dir, rng, key);
    CipherInverse(dir, rng, key);
    RewriteRoundTrip(BlockCipher(dir, rng, key), BlockCipher(Opposite(dir), rng, key), content, blockSize);
  }

  /** The reads `TransformFile` makes with `blockSize`-byte buffer on a file
      of `length` bytes, not counting the final empty one. */
  function BlockCount(length: nat, blockSize: nat): nat
    decreases length
  {
    if blockSize == 0 || length == 0 then 0
    else 1 + BlockCount(length - ReadLength(length, blockSize), blockSize)
  }

  /** One block per read. */
  lemma {:induction false} BlocksCounted(content: seq<Byte>, blockSize: nat)
    ensures |Blocks(content, blockSize)| == BlockCount(|content|, blockSize)
    decreases |content|
  {
    if blockSize > 0 && content != [] {
      BlocksCounted(content[ReadLength(|content|, blockSize)..], blockSize);
    }
  }

  /** The rewrite of the part of `source` from `offset` on, as the loop of
      `TransformFile` produces it: block by block at increasing offsets. */
  function RewrittenFrom(f: BlockTransform, source: seq<Byte>, offset: nat, blockSize: nat): seq<Byte>
    requires offset <= |source|
    decreases |source| - offset
  {
    if blockSize == 0 || offset == |source| then []
    else
      var n := ReadLength(|source| - offset, blockSize);
      f(source[offset..offset + n]) + RewrittenFrom(f, source, offset + n, blockSize)
  }

  /** Reading at increasing offsets produces the same rewrite as cutting the
      rest of the file into blocks. */
  lemma {:induction false} RewrittenFromRest(f: BlockTransform, source: seq<Byte>, offset: nat, blockSize: nat)
    requires offset <= |source|
    ensures RewrittenFrom(f, source, offset, blockSize) == Rewritten(f, source[offset..], blockSize)
    decreases |source| - offset
  {
    if blockSize > 0 && offset < |source| {
      var n := ReadLength(|source| - offset, blockSize);
      RewrittenFromRest(f, source, offset + n, blockSize);
      assert source[offset..][..n] == source[offset..offset + n];
      assert source[offset..][n..] == source[offset + n..];
    }
  }

  /** A non-empty read leaves one read fewer. */
  lemma BlockCountStep(length: nat, offset: nat, blockSize: nat, n: nat)
    requires offset < length && blockSize > 0 && n == ReadLength(length - offset, blockSize)
    ensures BlockCount(length - offset, blockSize) == 1 + BlockCount(length - (offset + n), blockSize)
  {
  }

  /** A non-empty read moves its block from what is left to what is written. */
  lemma RewrittenFromStep(f: BlockTransform, source: seq<Byte>, offset: nat, blockSize: nat, n: nat,
                          written: seq<Byte>, whole: seq<Byte>)
    requires offset < |source| && blockSize > 0 && n == ReadLength(|source| - offset, blockSize)
    requires written + RewrittenFrom(f, source, offset, blockSize) == whole
    ensures (written + f(source[offset..offset + n])) + RewrittenFrom(f, source, offset + n, blockSize) == whole
  {
  }

  /** The file system after a `TransformFile` that runs to completion: the
      temporary file gone and the original holding the rewrite. */
  function Replace(fs: FileSystem, fileName: Path, f: BlockTransform, blockSize: nat): (fs': FileSystem)
    requires fileName in fs
    ensures fs'.Keys == fs.Keys - {TempName(fileName)}
    ensures forall p :: p in fs' && p != fileName ==> fs'[p] == fs[p]
  {
    (fs - {TempName(fileName)})[fileName := Rewritten(f, fs[fileName], blockSize)]
  }

  /** Decoding a file the encoder replaced gives back the original contents;
      only a temporary file that was already there is lost. */
  lemma ReplaceRoundTrip(fs: FileSystem, fileName: Path, dir: Direction, rng: Sampler, key: seq<Byte>, blockSize: nat)
    requires |key| > 0 && blockSize > 0 && fileName in fs
    ensures Replace(Replace(fs, fileName, BlockCipher(dir, rng, key), blockSize), fileName, BlockCipher(Opposite(dir), rng, key), blockSize)
      == fs - {TempName(fileName)}
  {
    FileRoundTrip(dir, rng, key, fs[fileName], blockSize);
  }

  /** `File.Delete(fileName)` then `File.Move(tmp, fileName)`. */
  lemma DeleteThenMove(fs: FileSystem, fileName: Path, written: seq<Byte>)
    ensures var fs1 := fs[TempName(fileName) := written] - {fileName};
      (fs1 - {TempName(fileName)})[fileName := written] == (fs - {TempName(fileName)})[fileName := written]
  {
  }

  /** `sourceFile.Read(buffer, 0, blockSize)` at `offset`: the next bytes of
      the file copied to the front of the buffer. */
  method Read(source: seq<Byte>, offset: nat, buffer: array<Byte>) returns (readCount: nat)
    requires offset <= |source|
    modifies buffer
    ensures readCount == ReadLength(|source| - offset, buffer.Length)
    ensures buffer[..readCount] == source[offset..offset + readCount]
  {
    readCount := ReadLength(|source| - offset, buffer.Length);
    var i := 0;
    while i < readCount
      invariant i <= readCount
      invariant buffer[..i] == source[offset..offset + i]
    {
      buffer[i] := source[offset + i];
      assert buffer[..i + 1] == buffer[..i] + [source[offset + i]];
      i := i + 1;
    }
  }

  /** The bytes a read handed to the transform; the identity. It only marks
      the points where `Computes` may be instantiated, and models nothing in
      the source: with `Computes` it exists to keep the solver's work small. */
  function Handed(s: seq<Byte>): seq<Byte>
  {
    s
  }

  /** `f` is what the in-place transform selected by `dir` computes. The
      quantifier fires on `Handed(s)` alone, so that the loop, which only
      passes `f` along, does not expand the cipher's definition. */
  ghost predicate Computes(f: BlockTransform, dir: Direction, rng: Sampler, key: seq<Byte>)
    requires |key| > 0
  {
    forall s {:trigger Handed(s)} :: f(Handed(s)) == BlockCipher(dir, rng, key)(s)
  }

  lemma CipherComputes(dir: Direction, rng: Sampler, key: seq<Byte>)
    requires |key| > 0
    ensures Computes(BlockCipher(dir, rng, key), dir, rng, key)
  {
  }

  /** `transform(buffer, readCount, key)` followed by
      `temporaryFile.Write(buffer, 0, readCount)`: the first `readCount` bytes
      of the buffer are transformed in place and appended to what was written. */
  method TransformAndWrite(buffer: array<Byte>, readCount: nat, dir: Direction, key: seq<Byte>, rng: Sampler,
                           written: seq<Byte>, ghost f: BlockTransform, ghost block: seq<Byte>)
    returns (written': seq<Byte>)
    requires readCount <= buffer.Length && |key| > 0 && buffer[..readCount] == block
    requires Computes(f, dir, rng, key)
    modifies buffer
    ensures written' == written + f(block)
  {
    CipherApply(dir, rng, key, buffer[..readCount]);
    assert f(Handed(block)) == BlockCipher(dir, rng, key)(block);
    if dir == Encode {
      EncodeTransform(buffer, readCount, key, rng);
    } else {
      DecodeTransform(buffer, readCount, key, rng);
    }
    written' := written + buffer[..readCount];
  }

  /** One pass of the loop body after a non-empty read that the run state let
      through: the block is rewritten and the read position advances. */
  method WriteBlock(source: seq<Byte>, offset: nat, buffer: array<Byte>, readCount: nat,
                    dir: Direction, key: seq<Byte>, rng: Sampler, written: seq<Byte>,
                    ghost f: BlockTransform, ghost whole: seq<Byte>)
    returns (written': seq<Byte>, offset': nat)
    requires |key| > 0
    requires Computes(f, dir, rng, key)
    requires offset < |source| && 0 < readCount == ReadLength(|source| - offset, buffer.Length)
    requires buffer[..readCount] == source[offset..offset + readCount]
    requires written + RewrittenFrom(f, source, offset, buffer.Length) == whole
    modifies buffer
    ensures offset' == offset + readCount <= |source|
    ensures written' + RewrittenFrom(f, source, offset', buffer.Length) == whole
    ensures BlockCount(|source| - offset, buffer.Length) == 1 + BlockCount(|source| - offset', buffer.Length)
  {
    RewrittenFromStep(f, source, offset, buffer.Length, readCount, written, whole);
    BlockCountStep(|source|, offset, buffer.Length, readCount);
    written' := TransformAndWrite(buffer, readCount, dir, key, rng, written, f, source[offset..offset + readCount]);
    offset' := offset + readCount;
  }

  /** The read-transform-write loop of `TransformFile`: what it writes to the
      temporary file, how many times it read the run state, and whether the
      last of those reads saw the run cancelled. The run state is read after
      every read that returned bytes, before they are transformed. */
  method TransformBlocks(source: seq<Byte>, buffer: array<Byte>, dir: Direction, key: seq<Byte>,
                         rng: Sampler, cancelAt: Option<nat>, ghost f: BlockTransform)
    returns (written: seq<Byte>, checks: nat, cancelled: bool)
    requires |key| > 0
    requires Computes(f, dir, rng, key)
    modifies buffer
    ensures cancelled <==> cancelAt.Some? && cancelAt.value < BlockCount(|source|, buffer.Length)
    ensures !cancelled ==> checks == BlockCount(|source|, buffer.Length)
    ensures !cancelled ==> written == Rewritten(f, source, buffer.Length)
  {
    ghost var whole := RewrittenFrom(f, source, 0, buffer.Length);
    written := [];
    checks := 0;
    cancelled := false;
    var offset := 0;
    while true
      invariant offset <= |source|
      invariant checks + BlockCount(|source| - offset, buffer.Length) == BlockCount(|source|, buffer.Length)
      invariant written + RewrittenFrom(f, source, offset, buffer.Length) == whole
      invariant cancelAt.Some? ==> cancelAt.value >= checks
      decreases |source| - offset
    {
      var readCount := Read(source, offset, buffer);
      if readCount == 0 {
        break;
      }
      if cancelAt.Some? && cancelAt.value == checks {
        return written, checks + 1, true;
      }
      checks := checks + 1;
      written, offset := WriteBlock(source, offset, buffer, readCount, dir, key, rng, written, f, whole);
    }
    RewrittenFromRest(f, source, 0, buffer.Length);
  }

  /** `TransformFile(fileName, transform, key, blockSize)`. The buffer is
      allocated first (a negative size throws), then the temporary file is
      created, replacing any file of that name, then the source is opened (a
      missing file throws and leaves the empty temporary behind). The run state
      is read once per block before it is transformed, and once after the
      loop; that last read decides between discarding and replacing. */
  method TransformFile(fs: FileSystem, fileName: Path, dir: Direction, key: seq<Byte>, blockSize: int,
                       rng: Sampler, cancelAt: Option<nat>)
    returns (fs': FileSystem, outcome: Outcome)
    requires |key| > 0
    ensures blockSize < 0 ==> outcome == Crashed && fs' == fs
    ensures blockSize >= 0 && fileName !in fs ==> outcome == Crashed && fs' == fs[TempName(fileName) := []]
    ensures blockSize >= 0 && fileName in fs && cancelAt.Some?
              && cancelAt.value <= BlockCount(|fs[fileName]|, blockSize)
            ==> outcome == Discarded && fs' == fs - {TempName(fileName)}
    ensures blockSize >= 0 && fileName in fs
              && (cancelAt.None? || cancelAt.value > BlockCount(|fs[fileName]|, blockSize))
            ==> outcome == Replaced && fs' == Replace(fs, fileName, BlockCipher(dir, rng, key), blockSize)
  {
    var tempFileName := TempName(fileName);
    if blockSize < 0 {
      return fs, Crashed;
    }
    var buffer := new Byte[blockSize];
    fs' := fs[tempFileName := []];
    if fileName !in fs {
      return fs', Crashed;
    }
    CipherComputes(dir, rng, key);
    var written, checks, cancelled := TransformBlocks(fs[fileName], buffer, dir, key, rng, cancelAt, BlockCipher(dir, rng, key));
    fs' := fs'[tempFileName := written];
    if !cancelled && cancelAt == Some(checks) {
      cancelled := true;
    }
    if cancelled {
      fs' := fs' - {tempFileName};
      outcome := Discarded;
    } else {
      fs' := fs' - {fileName};
      DeleteThenMove(fs, fileName, written);
      fs' := (fs' - {tempFileName})[fileName := fs'[tempFileName]];
      outcome := Replaced;
    }
  }
}
