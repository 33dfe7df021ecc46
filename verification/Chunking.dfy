/**
 Fixed-size chunking and manifest building (internal/cas/chunk.go,
 internal/cas/manifest.go, internal/cas/verify.go).  The hash is any function
 from bytes to well-formed digests; nothing assumes it has no collisions.
 */
module Chunking {
  import opened Wrappers
  import opened Utf8
  import opened Manifests
  import opened Sorting
  import opened Names

  const CHUNK_SIZE: nat := 4194304

  // Exactly 64 lower-case hexadecimal characters.
  predicate ValidDigest(d: string) {
    |d| == 64 && forall i :: 0 <= i < 64 ==> '0' <= d[i] <= '9' || 'a' <= d[i] <= 'f'
  }

  type Sha = d: string | ValidDigest(d) witness seq(64, _ => '0')
  type Hash = Bytes -> Sha
  type FileData = b: Bytes | |b| < 0x8000_0000_0000_0000 witness []

  // Two different byte strings with one digest.
  ghost predicate Collision(h: Hash) {
    exists a: Bytes, b: Bytes :: a != b && h(a) == h(b)
  }

  // --------------------------------------------------------------- chunking

  function Blocks(data: Bytes): (r: seq<Bytes>)
    ensures forall b :: b in r ==> 0 < |b| <= CHUNK_SIZE
  {
    if data == [] then []
    else if |data| <= CHUNK_SIZE then [data]
    else [data[..CHUNK_SIZE]] + Blocks(data[CHUNK_SIZE..])
  }

  function Concat(blocks: seq<Bytes>): Bytes {
    if blocks == [] then [] else blocks[0] + Concat(blocks[1..])
  }

  function RefOf(h: Hash, block: Bytes): ChunkRef
    requires |block| <= CHUNK_SIZE
  {
    ChunkRef(h(block), |block|)
  }

  function Refs(h: Hash, data: Bytes): (r: seq<ChunkRef>)
    ensures |r| == |Blocks(data)|
    ensures forall i :: 0 <= i < |r| ==> r[i] == RefOf(h, Blocks(data)[i])
  {
    var bs := Blocks(data);
    seq(|bs|, i requires 0 <= i < |bs| => assert bs[i] in bs; RefOf(h, bs[i]))
  }

  function Entry(h: Hash, name: string, data: FileData): FileEntry {
    FileEntry(name, |data|, Refs(h, data))
  }

  lemma {:induction false} ConcatBlocks(data: Bytes)
    ensures Concat(Blocks(data)) == data
  {
    if |data| > CHUNK_SIZE {
      ConcatBlocks(data[CHUNK_SIZE..]);
      assert data == data[..CHUNK_SIZE] + data[CHUNK_SIZE..];
    } else if data != [] {
      assert Concat([data]) == data + Concat([]);
    }
  }

  // `bytes` is made of blocks that hash, in order, to the recorded digests.
  ghost predicate Rebuilds(h: Hash, refs: seq<ChunkRef>, bytes: Bytes) {
    exists blocks: seq<Bytes> :: Matches(h, refs, blocks) && bytes == Concat(blocks)
  }

  ghost predicate Matches(h: Hash, refs: seq<ChunkRef>, blocks: seq<Bytes>) {
    |blocks| == |refs| && forall i :: 0 <= i < |refs| ==> h(blocks[i]) == refs[i].digest
  }

  // Whatever rebuilds the recorded chunk list is the recorded file, or the hash collides.
  lemma RebuiltIsOriginal(h: Hash, data: Bytes, bytes: Bytes)
    requires Rebuilds(h, Refs(h, data), bytes)
    ensures bytes == data || Collision(h)
  {
    var blocks: seq<Bytes> :| Matches(h, Refs(h, data), blocks) && bytes == Concat(blocks);
    ConcatBlocks(data);
    if blocks != Blocks(data) {
      var i :| 0 <= i < |blocks| && blocks[i] != Blocks(data)[i];
      assert h(blocks[i]) == Refs(h, data)[i].digest == h(Blocks(data)[i]);
    }
  }

  lemma RebuildsItself(h: Hash, data: Bytes)
    ensures Rebuilds(h, Refs(h, data), data)
  {
    ConcatBlocks(data);
    assert Matches(h, Refs(h, data), Blocks(data));
  }

  function BlockEnd(data: Bytes, pos: nat): nat {
    if |data| - pos < CHUNK_SIZE then |data| else pos + CHUNK_SIZE
  }

  // The k-th chunk covers the k-th CHUNK_SIZE stretch, and the last one ends the file.
  lemma {:induction false} BlockAt(data: Bytes, k: nat)
    requires k * CHUNK_SIZE < |data|
    ensures var pos := k * CHUNK_SIZE; var end := BlockEnd(data, pos);
      && k < |Blocks(data)| && pos <= end <= |data| && Blocks(data)[k] == data[pos..end]
      && (end == |data| <==> |Blocks(data)| == k + 1)
  {
    if k == 0 {
      assert data[0..|data|] == data;
    } else {
      var rest := data[CHUNK_SIZE..];
      BlockAt(rest, k - 1);
      var pos := (k - 1) * CHUNK_SIZE;
      assert rest[pos..BlockEnd(rest, pos)] == data[pos + CHUNK_SIZE..BlockEnd(rest, pos) + CHUNK_SIZE];
    }
  }

  lemma RefAt(h: Hash, data: Bytes, k: nat)
    requires k * CHUNK_SIZE < |data|
    ensures var pos := k * CHUNK_SIZE; var end := BlockEnd(data, pos);
      && k < |Refs(h, data)| && pos < end <= |data| && end - pos <= CHUNK_SIZE
      && Refs(h, data)[k] == RefOf(h, data[pos..end])
      && (end == |data| <==> |Refs(h, data)| == k + 1)
  {
    BlockAt(data, k);
  }

  // A file is listed in pieces of 4 MiB, the last one shorter unless it comes out
  // even, each with its digest and its length.
  lemma RefsExactly(h: Hash, data: Bytes)
    ensures |Refs(h, data)| == (|data| + 4194303) / 4194304
    ensures forall k: nat :: (k + 1) * 4194304 <= |data| ==>
      k < |Refs(h, data)| && Refs(h, data)[k] == ChunkRef(h(data[k * 4194304..(k + 1) * 4194304]), 4194304)
    ensures forall k: nat :: k * 4194304 < |data| < (k + 1) * 4194304 ==>
      k < |Refs(h, data)| && Refs(h, data)[k] == ChunkRef(h(data[k * 4194304..]), |data| - k * 4194304)
  {
    forall k: nat | (k + 1) * 4194304 <= |data|
      ensures k < |Refs(h, data)| && Refs(h, data)[k] == ChunkRef(h(data[k * 4194304..(k + 1) * 4194304]), 4194304)
    {
      RefAt(h, data, k);
    }
    forall k: nat | k * 4194304 < |data| < (k + 1) * 4194304
      ensures k < |Refs(h, data)| && Refs(h, data)[k] == ChunkRef(h(data[k * 4194304..]), |data| - k * 4194304)
    {
      RefAt(h, data, k);
      assert data[k * 4194304..|data|] == data[k * 4194304..];
    }
    if data != [] { RefAt(h, data, (|data| - 1) / 4194304); }
  }

  // The chunks of the first `pos` bytes are listed in `refs`.
  ghost predicate ListedTo(h: Hash, data: Bytes, pos: nat, refs: seq<ChunkRef>) {
    && refs <= Refs(h, data)
    && if pos < |data| then pos == |refs| * CHUNK_SIZE else |refs| == |Refs(h, data)|
  }

  lemma ListedNext(h: Hash, data: Bytes, pos: nat, refs: seq<ChunkRef>)
    requires pos < |data| && ListedTo(h, data, pos, refs)
    ensures var end := BlockEnd(data, pos);
      && pos < end <= |data| && end - pos <= CHUNK_SIZE && ListedTo(h, data, end, refs + [RefOf(h, data[pos..end])])
  {
    RefAt(h, data, |refs|);
  }

  // How often a file is read: once for each full chunk, and once more to find
  // its end.
  function Reads(data: Bytes): nat { |data| / CHUNK_SIZE + 1 }

  // The fate of each operation on each file.
  type Disk = (string, nat) -> bool

  // Operations from .. end on the file succeed.
  ghost predicate Succeed(disk: Disk, name: string, from: nat, end: nat) {
    forall k: nat :: from <= k < end ==> disk(name, k)
  }

  // The first n full chunks are listed in `refs`.
  ghost predicate Listed(h: Hash, data: Bytes, n: nat, refs: seq<ChunkRef>) {
    && n * CHUNK_SIZE <= |data| && n <= |Refs(h, data)| && refs == Refs(h, data)[..n]
    && (n * CHUNK_SIZE == |data| ==> n == |Refs(h, data)|)
  }

  lemma FullChunk(h: Hash, data: Bytes, n: nat, refs: seq<ChunkRef>)
    requires Listed(h, data, n, refs) && (n + 1) * CHUNK_SIZE <= |data|
    ensures var pos := n * CHUNK_SIZE; Listed(h, data, n + 1, refs + [RefOf(h, data[pos..pos + CHUNK_SIZE])])
  {
    RefAt(h, data, n);
  }

  // What is left after the full chunks.
  function Rest(h: Hash, data: Bytes, pos: nat): seq<ChunkRef>
    requires pos <= |data| < pos + CHUNK_SIZE
  {
    if pos < |data| then [RefOf(h, data[pos..])] else []
  }

  lemma LastChunk(h: Hash, data: Bytes, n: nat, refs: seq<ChunkRef>)
    requires Listed(h, data, n, refs) && |data| < (n + 1) * CHUNK_SIZE
    ensures refs + Rest(h, data, n * CHUNK_SIZE) == Refs(h, data) && Reads(data) == n + 1
  {
    assert data[n * CHUNK_SIZE..|data|] == data[n * CHUNK_SIZE..];
    if n * CHUNK_SIZE < |data| { RefAt(h, data, n); }
  }

  // chunkFile: opens the file, which is operation number `from` on it, and reads
  // it in CHUNK_SIZE pieces.
  method ChunkFile(h: Hash, name: string, data: FileData, disk: Disk, from: nat) returns (r: Result<seq<ChunkRef>>)
    ensures r.Ok? <==> Succeed(disk, name, from, from + 1 + Reads(data))
    ensures r.Ok? ==> r.value == Refs(h, data)
  {
    if !disk(name, from) { return Err; }
    var refs: seq<ChunkRef> := [];
    var pos, n := 0, 0;
    while pos + CHUNK_SIZE <= |data|
      invariant pos == n * CHUNK_SIZE && Listed(h, data, n, refs) && Succeed(disk, name, from, from + 1 + n)
      decreases |data| - pos
    {
      if !disk(name, from + 1 + n) { return Err; }
      FullChunk(h, data, n, refs);
      refs := refs + [RefOf(h, data[pos..pos + CHUNK_SIZE])];
      pos, n := pos + CHUNK_SIZE, n + 1;
    }
    LastChunk(h, data, n, refs);
    if !disk(name, from + 1 + n) { return Err; }
    r := Ok(refs + Rest(h, data, pos));
  }

  // --------------------------------------------------------------- manifests

  // `m` lists exactly the given files, in name order, with their chunk lists.
  ghost predicate Describes(h: Hash, m: Manifest, files: map<string, FileData>, meta: Metadata) {
    && m.meta == meta
    && Sorted(NameLe, m.files)
    && UniqueNames(m.files)
    && (forall i :: 0 <= i < |m.files| ==>
          m.files[i].name in files && m.files[i] == Entry(h, m.files[i].name, files[m.files[i].name]))
    && (forall n :: n in files ==> exists i :: 0 <= i < |m.files| && m.files[i].name == n)
  }

  lemma DescribedFile(h: Hash, m: Manifest, files: map<string, FileData>, meta: Metadata, f: FileEntry)
    requires Describes(h, m, files, meta)
    ensures f in m.files <==> f.name in files && f == Entry(h, f.name, files[f.name])
  {
  }

  lemma DescribesSameFiles(h: Hash, a: Manifest, b: Manifest, files: map<string, FileData>, meta: Metadata)
    requires Describes(h, a, files, meta) && Describes(h, b, files, meta)
    ensures multiset(a.files) == multiset(b.files)
  {
    forall f ensures multiset(a.files)[f] == multiset(b.files)[f] {
      DescribedFile(h, a, files, meta, f);
      DescribedFile(h, b, files, meta, f);
      CountDistinct(a.files, f);
      CountDistinct(b.files, f);
    }
  }

  // A file map has one manifest: building and storing cannot disagree.
  lemma DescribesUnique(h: Hash, a: Manifest, b: Manifest, files: map<string, FileData>, meta: Metadata)
    requires Describes(h, a, files, meta) && Describes(h, b, files, meta)
    ensures a == b
  {
    DescribesSameFiles(h, a, b, files, meta);
    forall x, y | x in a.files && y in a.files && NameLe(x, y) && NameLe(y, x) ensures x == y {
      LessIsStrictTotal(x.name, y.name);
    }
    SortedUnique(NameLe, a.files, b.files);
  }

  lemma EntriesDescribe(h: Hash, files: map<string, FileData>, meta: Metadata, names: seq<string>,
                        entries: seq<FileEntry>)
    requires Sorted(StringLe, names) && Distinct(names) && |entries| == |names|
    requires forall n :: n in names <==> n in files
    requires forall i :: 0 <= i < |names| ==> names[i] in files && entries[i] == Entry(h, names[i], files[names[i]])
    ensures Describes(h, Manifest(entries, meta), files, meta)
  {
  }

  // BuildManifest: each file is looked at, opened and read.
  method BuildManifest(h: Hash, files: map<string, FileData>, meta: Metadata, disk: Disk) returns (r: Result<Manifest>)
    ensures r.Ok? <==> forall n :: n in files ==> Succeed(disk, n, 0, 2 + Reads(files[n]))
    ensures r.Ok? ==> Describes(h, r.value, files, meta)
  {
    var names := SortedNames(files.Keys);
    assert forall i :: 0 <= i < |names| ==> names[i] in names;
    var entries := BuildEntries(h, names, files, disk);
    if entries.Err? { return Err; }
    forall i | 0 <= i < |names| ensures BuiltOne(h, names[i], files, disk, entries.value[i]) {}
    EntriesDescribe(h, files, meta, names, entries.value);
    r := Ok(Manifest(entries.value, meta));
  }

  // The entries of the first names, whose files could be read.
  ghost predicate Built(h: Hash, names: seq<string>, files: map<string, FileData>, disk: Disk,
                        entries: seq<FileEntry>)
  {
    |entries| <= |names| && forall i :: 0 <= i < |entries| ==> BuiltOne(h, names[i], files, disk, entries[i])
  }

  ghost predicate BuiltOne(h: Hash, name: string, files: map<string, FileData>, disk: Disk, entry: FileEntry) {
    name in files && Succeed(disk, name, 0, 2 + Reads(files[name])) && entry == Entry(h, name, files[name])
  }

  method BuildEntries(h: Hash, names: seq<string>, files: map<string, FileData>, disk: Disk)
    returns (r: Result<seq<FileEntry>>)
    requires forall i :: 0 <= i < |names| ==> names[i] in files
    ensures r.Ok? ==> |r.value| == |names| && Built(h, names, files, disk, r.value)
    ensures r.Err? ==> exists i :: 0 <= i < |names| && !Succeed(disk, names[i], 0, 2 + Reads(files[names[i]]))
  {
    var entries: seq<FileEntry> := [];
    for i := 0 to |names|
      invariant |entries| == i && Built(h, names, files, disk, entries)
    {
      var entry := BuildEntry(h, names[i], files[names[i]], disk);
      if entry.Err? { return Err; }
      assert BuiltOne(h, names[i], files, disk, entry.value);
      entries := entries + [entry.value];
    }
    r := Ok(entries);
  }

  method BuildEntry(h: Hash, name: string, data: FileData, disk: Disk) returns (r: Result<FileEntry>)
    ensures r.Ok? <==> Succeed(disk, name, 0, 2 + Reads(data))
    ensures r.Ok? ==> r.value == Entry(h, name, data)
  {
    if !disk(name, 0) { return Err; }
    var refs := ChunkFile(h, name, data, disk, 1);
    if refs.Err? { return Err; }
    r := Ok(FileEntry(name, |data|, refs.value));
  }

  // -------------------------------------------------------------- verification

  // compareChunks: the scan that compares recorded and re-derived chunk lists.
  method CompareChunks(want: seq<ChunkRef>, got: seq<ChunkRef>) returns (same: bool)
    ensures same <==> want == got
  {
    if |want| != |got| { return false; }
    for i := 0 to |want|
      invariant want[..i] == got[..i]
    {
      if want[i].digest != got[i].digest || want[i].size != got[i].size { return false; }
    }
    return true;
  }

  // The entry a name resolves to when later duplicates replace earlier ones.
  function ByName(fs: seq<FileEntry>): (m: map<string, FileEntry>)
    ensures forall n :: n in m ==> m[n] in fs && m[n].name == n
  {
    if fs == [] then map[] else ByName(fs[..|fs| - 1])[fs[|fs| - 1].name := fs[|fs| - 1]]
  }

  method IndexByName(fs: seq<FileEntry>) returns (byName: map<string, FileEntry>)
    ensures byName == ByName(fs)
  {
    byName := map[];
    for i := 0 to |fs|
      invariant byName == ByName(fs[..i])
    {
      byName := byName[fs[i].name := fs[i]];
      assert fs[..i + 1][..i] == fs[..i];
    }
    assert fs[..|fs|] == fs;
  }

  // The manifest lists `data`'s chunks under that name.
  predicate Recorded(h: Hash, m: Manifest, name: string, data: Bytes) {
    name in ByName(m.files) && ByName(m.files)[name].chunks == Refs(h, data)
  }

  datatype Verdict = Accepted | Tampered | Unreadable

  ghost predicate Rehashable(disk: Disk, name: string, data: Bytes) { Succeed(disk, name, 0, 1 + Reads(data)) }

  // VerifyFilesAgainstManifest, over any subset of the recorded files, which come
  // in any order.
  method VerifyFiles(h: Hash, m: Manifest, files: map<string, FileData>, disk: Disk) returns (v: Verdict)
    ensures v.Accepted? <==> forall n :: n in files ==> Recorded(h, m, n, files[n]) && Rehashable(disk, n, files[n])
    ensures v.Tampered? ==> exists n :: n in files && !Recorded(h, m, n, files[n])
    ensures v.Unreadable? ==> exists n :: n in files && !Rehashable(disk, n, files[n])
  {
    var byName := IndexByName(m.files);
    var names := Enumerate(files.Keys);
    for i := 0 to |names|
      invariant forall k :: 0 <= k < i ==>
        && names[k] in files && Recorded(h, m, names[k], files[names[k]])
        && Rehashable(disk, names[k], files[names[k]])
    {
      var name := names[i];
      assert name in names;
      if name !in byName { return Tampered; }
      var refs := ChunkFile(h, name, files[name], disk, 0);
      if refs.Err? { return Unreadable; }
      var same := CompareChunks(byName[name].chunks, refs.value);
      if !same { return Tampered; }
    }
    return Accepted;
  }

  lemma {:induction false} ByNameUnique(fs: seq<FileEntry>, i: nat)
    requires i < |fs| && UniqueNames(fs)
    ensures fs[i].name in ByName(fs) && ByName(fs)[fs[i].name] == fs[i]
  {
    if i < |fs| - 1 { ByNameUnique(fs[..|fs| - 1], i); }
  }

  // A verification against the manifest of `original` tells: the accepted files
  // are the original ones (or the hash collides), and files left as they were
  // are never called tampered.
  lemma VerifyDetectsTampering(h: Hash, m: Manifest, original: map<string, FileData>, meta: Metadata,
                               files: map<string, FileData>)
    requires Describes(h, m, original, meta)
    ensures (forall n :: n in files ==> Recorded(h, m, n, files[n]))
      ==> Collision(h) || forall n :: n in files ==> n in original && files[n] == original[n]
    ensures (forall n :: n in files ==> n in original && files[n] == original[n])
      ==> forall n :: n in files ==> Recorded(h, m, n, files[n])
  {
    forall n | n in original ensures Recorded(h, m, n, original[n]) {
      var i :| 0 <= i < |m.files| && m.files[i].name == n;
      ByNameUnique(m.files, i);
    }
    forall n | n in files && Recorded(h, m, n, files[n])
      ensures Collision(h) || (n in original && files[n] == original[n])
    {
      DescribedFile(h, m, original, meta, ByName(m.files)[n]);
      RebuildsItself(h, files[n]);
      RebuiltIsOriginal(h, original[n], files[n]);
    }
  }
}
