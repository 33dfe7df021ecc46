/**
 The content-addressed store (internal/cas/store.go, internal/cas/transport.go,
 internal/cas/evict.go) as an object over its on-disk state.  The fate of each
 file operation, in the order they are made, is an arbitrary function; writes
 are atomic, so a failed write changes nothing.
 */
module CasStore {
  import opened Wrappers
  import opened Outside
  import opened Utf8
  import opened Manifests
  import opened Chunking
  import opened Sorting
  import opened Names
  import Paths

  datatype ChunkFile = ChunkFile(data: Bytes, mtime: int)
  type ChunkDir = map<string, ChunkFile>

  // Bytes arriving from a peer: after `data` the stream ends, or breaks.
  datatype Stream = Stream(data: Bytes, breaks: bool)

  // A remote store that may answer anything.  Pull asks for each digest at most
  // once, so a function of the digest is the most general peer.
  datatype Transport = Transport(getManifest: string -> Result<Manifest>, getChunk: string -> Result<Stream>)

  datatype Stat = Stat(name: string, size: nat, mtime: int)

  ghost function DigestsOf(m: Manifest): set<string> {
    set f, c | f in m.files && c in f.chunks :: c.digest
  }

  lemma DigestsOfSorted(m: Manifest)
    ensures DigestsOf(SortFiles(m)) == DigestsOf(m)
  {
    NameLePreorder();
    SortMembers(NameLe, m.files);
  }

  // Nothing is lost or changed, and whatever is new hashes to its name.
  ghost predicate Grows(h: Hash, before: ChunkDir, after: ChunkDir) {
    && (forall d :: d in before ==> d in after && after[d] == before[d])
    && (forall d :: d in after && d !in before ==> Sound(h, d, after[d].data))
  }

  ghost predicate Sound(h: Hash, d: string, data: Bytes) {
    ValidDigest(d) && h(data) == d && |data| <= CHUNK_SIZE
  }

  lemma GrowsTransitive(h: Hash, a: ChunkDir, b: ChunkDir, c: ChunkDir)
    requires Grows(h, a, b) && Grows(h, b, c)
    ensures Grows(h, a, c)
  {
  }

  // Every referenced chunk has a file.
  ghost predicate Present(dir: ChunkDir, refs: seq<ChunkRef>) {
    forall i :: 0 <= i < |refs| ==> ValidDigest(refs[i].digest) && refs[i].digest in dir
  }

  lemma PresentGrows(h: Hash, a: ChunkDir, b: ChunkDir, refs: seq<ChunkRef>)
    requires Grows(h, a, b) && Present(a, refs)
    ensures Present(b, refs)
  {
  }

  ghost predicate AllPresent(dir: ChunkDir, fs: seq<FileEntry>) {
    forall i :: 0 <= i < |fs| ==> Present(dir, fs[i].chunks)
  }

  lemma AllPresentGrows(h: Hash, a: ChunkDir, b: ChunkDir, fs: seq<FileEntry>)
    requires Grows(h, a, b) && AllPresent(a, fs)
    ensures AllPresent(b, fs)
  {
  }

  // Same chunks with the same bytes; access times may differ.
  ghost predicate SameData(before: ChunkDir, after: ChunkDir) {
    before.Keys == after.Keys && forall d :: d in before ==> after[d].data == before[d].data
  }

  // The chunk was last used at one of the operations from .. end.
  ghost predicate Used(now: nat -> int, dir: ChunkDir, d: string, from: nat, end: nat) {
    d in dir && exists k :: from <= k < end && dir[d].mtime == now(k)
  }

  // Operations from .. end did nothing but use some of these chunks.
  ghost predicate OnlyUses(now: nat -> int, before: ChunkDir, after: ChunkDir, digests: set<string>, from: nat,
                           end: nat)
  {
    && before.Keys == after.Keys
    && forall d :: d in before ==>
         || after[d] == before[d]
         || (d in digests && after[d].data == before[d].data && Used(now, after, d, from, end))
  }

  ghost predicate AllUsed(now: nat -> int, dir: ChunkDir, refs: seq<ChunkRef>, from: nat, end: nat) {
    forall i :: 0 <= i < |refs| ==> Used(now, dir, refs[i].digest, from, end)
  }

  ghost predicate FilesUsed(now: nat -> int, dir: ChunkDir, fs: seq<FileEntry>, from: nat, end: nat) {
    forall i :: 0 <= i < |fs| ==> AllUsed(now, dir, fs[i].chunks, from, end)
  }

  lemma UsesOn(now: nat -> int, a: ChunkDir, b: ChunkDir, c: ChunkDir, most: set<string>, more: set<string>,
               from: nat, mid: nat, end: nat)
    requires from <= mid <= end && more <= most
    requires OnlyUses(now, a, b, most, from, mid) && OnlyUses(now, b, c, more, mid, end)
    ensures OnlyUses(now, a, c, most, from, end)
  {
    forall d | d in a && c[d] != a[d] ensures Used(now, c, d, from, end) {
      if c[d] == b[d] { assert Used(now, b, d, from, mid); } else { assert Used(now, c, d, mid, end); }
    }
  }

  lemma UsesKeepData(now: nat -> int, a: ChunkDir, b: ChunkDir, digests: set<string>, from: nat, end: nat)
    requires OnlyUses(now, a, b, digests, from, end)
    ensures SameData(a, b)
  {
  }

  lemma UsedOn(now: nat -> int, b: ChunkDir, c: ChunkDir, more: set<string>, d: string, from: nat, mid: nat, end: nat)
    requires from <= mid <= end && OnlyUses(now, b, c, more, mid, end) && Used(now, b, d, from, mid)
    ensures Used(now, c, d, from, end)
  {
    if c[d] != b[d] { assert Used(now, c, d, mid, end); }
  }

  lemma AllUsedOn(now: nat -> int, b: ChunkDir, c: ChunkDir, more: set<string>, refs: seq<ChunkRef>, from: nat,
                  mid: nat, end: nat)
    requires from <= mid <= end && OnlyUses(now, b, c, more, mid, end) && AllUsed(now, b, refs, from, mid)
    ensures AllUsed(now, c, refs, from, end)
  {
    forall i | 0 <= i < |refs| ensures Used(now, c, refs[i].digest, from, end) {
      UsedOn(now, b, c, more, refs[i].digest, from, mid, end);
    }
  }

  lemma FilesUsedOn(now: nat -> int, b: ChunkDir, c: ChunkDir, more: set<string>, fs: seq<FileEntry>, from: nat,
                    mid: nat, end: nat)
    requires from <= mid <= end && OnlyUses(now, b, c, more, mid, end) && FilesUsed(now, b, fs, from, mid)
    ensures FilesUsed(now, c, fs, from, end)
  {
    forall i | 0 <= i < |fs| ensures AllUsed(now, c, fs[i].chunks, from, end) {
      AllUsedOn(now, b, c, more, fs[i].chunks, from, mid, end);
    }
  }

  ghost function FileDigests(f: FileEntry): set<string> { set c | c in f.chunks :: c.digest }

  ghost function Total(dir: ChunkDir): nat {
    if dir == map[] then 0 else
    var d :| d in dir;
    |dir[d].data| + Total(dir - {d})
  }

  lemma {:induction false} TotalWithout(dir: ChunkDir, d: string)
    requires d in dir
    ensures Total(dir) == |dir[d].data| + Total(dir - {d})
    decreases dir.Keys
  {
    var p :| p in dir && Total(dir) == |dir[p].data| + Total(dir - {p});
    if p != d {
      assert d in dir - {p};
      TotalWithout(dir - {p}, d);
      TotalWithout(dir - {d}, p);
      assert dir - {p} - {d} == dir - {d} - {p};
    }
  }

  predicate OlderLe(a: Stat, b: Stat) { a.mtime <= b.mtime }

  lemma {:induction false} ConcatSnoc(blocks: seq<Bytes>, b: Bytes)
    ensures Concat(blocks + [b]) == Concat(blocks) + b
  {
    if blocks == [] {
      assert blocks + [b] == [b];
      assert Concat([b]) == b + Concat([]);
    } else {
      assert (blocks + [b])[1..] == blocks[1..] + [b];
      ConcatSnoc(blocks[1..], b);
    }
  }

  // ---------------------------------------------------------------- eviction

  // `stats` lists the files of `dir`, each once.
  ghost predicate Lists(stats: seq<Stat>, dir: ChunkDir) {
    && (forall i :: 0 <= i < |stats| ==> stats[i].name in dir && stats[i] == StatOf(dir, stats[i].name))
    && (forall i, j :: 0 <= i < j < |stats| ==> stats[i].name != stats[j].name)
    && (forall d :: d in dir ==> exists i :: 0 <= i < |stats| && stats[i].name == d)
  }

  function StatOf(dir: ChunkDir, d: string): Stat
    requires d in dir
  {
    Stat(d, |dir[d].data|, dir[d].mtime)
  }

  function SumSizes(stats: seq<Stat>): nat {
    if stats == [] then 0 else SumSizes(stats[..|stats| - 1]) + stats[|stats| - 1].size
  }

  lemma {:induction false} ListsTotal(stats: seq<Stat>, dir: ChunkDir)
    requires Lists(stats, dir)
    ensures SumSizes(stats) == Total(dir)
  {
    if stats == [] {
      assert dir == map[];
    } else {
      var last := stats[|stats| - 1];
      ListsFewer(stats, dir);
      ListsTotal(stats[..|stats| - 1], dir - {last.name});
      TotalWithout(dir, last.name);
    }
  }

  lemma ListsFewer(stats: seq<Stat>, dir: ChunkDir)
    requires Lists(stats, dir) && stats != []
    ensures Lists(stats[..|stats| - 1], dir - {stats[|stats| - 1].name})
  {
  }

  // No evicted file is pinned, and none is newer than a surviving unpinned one.
  ghost predicate LeastRecent(before: ChunkDir, after: ChunkDir, pinned: set<string>) {
    && (forall d :: d in after ==> d in before && after[d] == before[d])
    && (forall e :: e in before && e !in after ==> e !in pinned)
    && (forall e, d :: e in before && e !in after && d in after && d !in pinned ==> before[e].mtime <= after[d].mtime)
  }

  lemma OlderPreorder()
    ensures TotalPreorder(OlderLe)
  {
  }

  lemma ListsSorted(stats: seq<Stat>, dir: ChunkDir)
    requires Lists(stats, dir)
    ensures Lists(Sort(OlderLe, stats), dir) && Sorted(OlderLe, Sort(OlderLe, stats))
  {
    OlderPreorder();
    SortSorts(OlderLe, stats);
    SortMembers(OlderLe, stats);
    var sorted := Sort(OlderLe, stats);
    DistinctByCount(stats, sorted);
    forall i | 0 <= i < |sorted| ensures sorted[i].name in dir && sorted[i] == StatOf(dir, sorted[i].name) {
      assert sorted[i] in sorted;
      var j :| 0 <= j < |stats| && stats[j] == sorted[i];
    }
    forall d | d in dir ensures exists i :: 0 <= i < |sorted| && sorted[i].name == d {
      var j :| 0 <= j < |stats| && stats[j].name == d;
      assert stats[j] in sorted;
    }
  }

  // What is left once the unpinned files among the first `n` are gone.
  function Kept(before: ChunkDir, order: seq<Stat>, n: nat, pinned: set<string>): ChunkDir
    requires n <= |order|
  {
    if n == 0 then before
    else
      var kept := Kept(before, order, n - 1, pinned);
      if order[n - 1].name in pinned then kept else kept - {order[n - 1].name}
  }

  lemma {:induction false} KeptFiles(before: ChunkDir, order: seq<Stat>, n: nat, pinned: set<string>, d: string)
    requires n <= |order|
    ensures var kept := Kept(before, order, n, pinned);
      && (d in kept ==> d in before && kept[d] == before[d])
      && (d in before ==> (d in kept <==> d in pinned || forall i :: 0 <= i < n ==> order[i].name != d))
  {
    if n > 0 { KeptFiles(before, order, n - 1, pinned, d); }
  }

  // The evicted files are the unpinned ones of the shortest stretch, from the
  // least recently used, that brings the total within the budget.
  ghost predicate Shortest(before: ChunkDir, after: ChunkDir, pinned: set<string>, maxBytes: int) {
    exists order: seq<Stat>, n: nat :: StopsAt(before, after, order, n, pinned, maxBytes)
  }

  ghost predicate StopsAt(before: ChunkDir, after: ChunkDir, order: seq<Stat>, n: nat, pinned: set<string>,
                          maxBytes: int)
  {
    && Lists(order, before) && Sorted(OlderLe, order) && n <= |order| && after == Kept(before, order, n, pinned)
    && forall k :: 0 <= k < n ==> Total(Kept(before, order, k, pinned)) > maxBytes
  }

  // Putting this evicted file back exceeds the budget, and no other evicted file
  // is newer: so the one evicted last was still needed.
  ghost predicate NeededLast(before: ChunkDir, after: ChunkDir, e: string, maxBytes: int) {
    && e in before && e !in after && Total(after) + |before[e].data| > maxBytes
    && forall d :: d in before && d !in after ==> before[d].mtime <= before[e].mtime
  }

  lemma LastWasNeeded(before: ChunkDir, after: ChunkDir, pinned: set<string>, maxBytes: int)
    requires Shortest(before, after, pinned, maxBytes) && after != before
    ensures exists e :: NeededLast(before, after, e, maxBytes)
  {
    var order: seq<Stat>, n: nat :| StopsAt(before, after, order, n, pinned, maxBytes);
    LastUnpinned(before, after, order, n, pinned, maxBytes);
  }

  lemma {:induction false} LastUnpinned(before: ChunkDir, after: ChunkDir, order: seq<Stat>, n: nat,
                                        pinned: set<string>, maxBytes: int)
    requires StopsAt(before, after, order, n, pinned, maxBytes) && after != before
    ensures exists e :: NeededLast(before, after, e, maxBytes)
    decreases n
  {
    if order[n - 1].name in pinned {
      LastUnpinned(before, after, order, n - 1, pinned, maxBytes);
    } else {
      LastIsNeeded(before, after, order, n, pinned, maxBytes);
    }
  }

  lemma LastIsNeeded(before: ChunkDir, after: ChunkDir, order: seq<Stat>, n: nat, pinned: set<string>, maxBytes: int)
    requires StopsAt(before, after, order, n, pinned, maxBytes) && n > 0 && order[n - 1].name !in pinned
    ensures NeededLast(before, after, order[n - 1].name, maxBytes)
  {
    var e := order[n - 1].name;
    KeptFiles(before, order, n - 1, pinned, e);
    TotalWithout(Kept(before, order, n - 1, pinned), e);
    forall d | d in before && d !in after ensures before[d].mtime <= before[e].mtime {
      KeptFiles(before, order, n, pinned, d);
      var i :| 0 <= i < n && order[i].name == d;
      assert i == n - 1 || OlderLe(order[i], order[n - 1]);
    }
  }

  // One step of the sweep.
  lemma StopsNext(before: ChunkDir, after: ChunkDir, order: seq<Stat>, n: nat, pinned: set<string>, maxBytes: int)
    requires StopsAt(before, after, order, n, pinned, maxBytes) && n < |order| && Total(after) > maxBytes
    ensures var d := order[n].name;
      && d in after && order[n].size == |after[d].data|
      && if d in pinned then StopsAt(before, after, order, n + 1, pinned, maxBytes)
         else
           && StopsAt(before, after - {d}, order, n + 1, pinned, maxBytes)
           && Total(after) == Total(after - {d}) + order[n].size
  {
    KeptFiles(before, order, n, pinned, order[n].name);
    TotalWithout(after, order[n].name);
  }

  lemma SweptAll(before: ChunkDir, after: ChunkDir, order: seq<Stat>, pinned: set<string>, maxBytes: int)
    requires StopsAt(before, after, order, |order|, pinned, maxBytes)
    ensures after.Keys <= pinned
  {
    forall d | d in after ensures d in pinned { KeptFiles(before, order, |order|, pinned, d); }
  }

  // Nothing pinned is evicted, and nothing newer than an unpinned survivor.
  lemma ShortestIsLeastRecent(before: ChunkDir, after: ChunkDir, pinned: set<string>, maxBytes: int)
    requires Shortest(before, after, pinned, maxBytes)
    ensures LeastRecent(before, after, pinned)
  {
    var order: seq<Stat>, n: nat :| StopsAt(before, after, order, n, pinned, maxBytes);
    forall d
      ensures (d in after ==> d in before && after[d] == before[d]) && (d in before && d !in after ==> d !in pinned)
    {
      KeptFiles(before, order, n, pinned, d);
    }
    forall e, d | e in before && e !in after && d in after && d !in pinned ensures before[e].mtime <= after[d].mtime {
      EvictedIsOlder(before, order, n, pinned, e, d);
    }
  }

  lemma EvictedIsOlder(before: ChunkDir, order: seq<Stat>, n: nat, pinned: set<string>, e: string, d: string)
    requires Lists(order, before) && Sorted(OlderLe, order) && n <= |order|
    requires e in before && e !in Kept(before, order, n, pinned) && d in Kept(before, order, n, pinned) && d !in pinned
    ensures d in before && before[e].mtime <= before[d].mtime
  {
    KeptFiles(before, order, n, pinned, e);
    KeptFiles(before, order, n, pinned, d);
    var i :| 0 <= i < n && order[i].name == e;
    var j :| 0 <= j < |order| && order[j].name == d;
    assert OlderLe(order[i], order[j]);
  }

  // When one of these chunks is gone, what is left is pinned or one of them.
  ghost predicate LastToGo(digests: set<string>, before: ChunkDir, after: ChunkDir, pinned: set<string>) {
    forall e, d :: e in digests && e in before && e !in after && d in after ==> d in pinned || d in digests
  }

  // What an eviction comes to: nothing, or the shortest stretch from the least
  // recently used; the bytes freed are the drop in total; and success means that
  // the total fits or that only pinned files remain.
  ghost predicate Evicts(before: ChunkDir, after: ChunkDir, pinned: set<string>, maxBytes: int, freed: int, ok: bool) {
    && (after == before || Shortest(before, after, pinned, maxBytes)) && LeastRecent(before, after, pinned)
    && Total(before) == Total(after) + freed
    && (ok ==> Total(after) <= maxBytes || after.Keys <= pinned)
    && (Total(before) <= maxBytes ==> after == before)
  }

  lemma NothingEvicted(dir: ChunkDir, pinned: set<string>, maxBytes: int)
    ensures Evicts(dir, dir, pinned, maxBytes, 0, false)
  {
  }

  // ------------------------------------------------------------------- peers

  // The peer hands over the bytes a digest names.
  ghost predicate Serves(h: Hash, remote: Transport, d: string) {
    remote.getChunk(d).Ok? && !remote.getChunk(d).value.breaks && Sound(h, d, remote.getChunk(d).value.data)
  }

  // The peer holds the manifest a digest names, with all its chunks.
  ghost predicate Honest(h: Hash, remote: Transport, digest: string) {
    && remote.getManifest(digest).Ok? && h(Canonical(remote.getManifest(digest).value)) == digest
    && forall d :: d in DigestsOf(remote.getManifest(digest).value) ==> Serves(h, remote, d)
  }

  // The manifest is complete, and what was fetched of it is what was missing.
  ghost predicate Pulled(got: Result<Manifest>, before: ChunkDir, after: ChunkDir, fetched: seq<string>) {
    && got.Ok?
    && (forall d :: d in DigestsOf(got.value) ==> ValidDigest(d) && d in after)
    && forall d :: d in fetched <==> d in DigestsOf(got.value) && d !in before
  }

  // ---------------------------------------------------------------- restoring

  predicate Intact(h: Hash, dir: ChunkDir, c: ChunkRef) {
    c.digest in dir && h(dir[c.digest].data) == c.digest
  }

  ghost predicate AllIntact(h: Hash, dir: ChunkDir, f: FileEntry) {
    forall i :: 0 <= i < |f.chunks| ==> Intact(h, dir, f.chunks[i])
  }

  ghost predicate ManifestIntact(h: Hash, dir: ChunkDir, m: Manifest) {
    forall i :: 0 <= i < |m.files| ==> AllIntact(h, dir, m.files[i])
  }

  ghost predicate IntactUpTo(h: Hash, dir: ChunkDir, m: Manifest, n: nat)
    requires n <= |m.files|
  {
    forall k :: 0 <= k < n ==> AllIntact(h, dir, m.files[k])
  }

  lemma IntactCarry(h: Hash, dir: ChunkDir, dir': ChunkDir, m: Manifest, n: nat)
    requires n <= |m.files| && SameData(dir, dir') && IntactUpTo(h, dir, m, n)
    ensures IntactUpTo(h, dir', m, n)
  {
    forall k | 0 <= k < n ensures AllIntact(h, dir', m.files[k]) { assert AllIntact(h, dir, m.files[k]); }
  }

  ghost predicate AllSound(h: Hash, dir: ChunkDir) {
    forall d :: d in dir ==> Sound(h, d, dir[d].data)
  }

  lemma CompleteIsIntact(h: Hash, dir: ChunkDir, m: Manifest)
    requires (forall d :: d in DigestsOf(m) ==> d in dir) && AllSound(h, dir)
    ensures ManifestIntact(h, dir, m)
  {
    forall k, i | 0 <= k < |m.files| && 0 <= i < |m.files[k].chunks| ensures Intact(h, dir, m.files[k].chunks[i]) {
      assert m.files[k] in m.files && m.files[k].chunks[i] in m.files[k].chunks;
      assert m.files[k].chunks[i].digest in DigestsOf(m);
    }
  }

  // The first i chunks of the file are intact and these are their bytes.
  ghost predicate Copied(h: Hash, dir: ChunkDir, f: FileEntry, i: nat, blocks: seq<Bytes>)
    requires i <= |f.chunks|
  {
    |blocks| == i && forall k :: 0 <= k < i ==> Intact(h, dir, f.chunks[k]) && blocks[k] == dir[f.chunks[k].digest].data
  }

  lemma CopiedNext(h: Hash, dir: ChunkDir, dir': ChunkDir, f: FileEntry, i: nat, blocks: seq<Bytes>)
    requires i < |f.chunks| && Copied(h, dir, f, i, blocks) && Intact(h, dir, f.chunks[i]) && SameData(dir, dir')
    ensures Copied(h, dir', f, i + 1, blocks + [dir[f.chunks[i].digest].data])
  {
  }

  // What was written, and then any part of what is stored for a chunk.
  ghost predicate Tail(dir: ChunkDir, c: ChunkRef, written: Bytes, more: Bytes) {
    more == written || (c.digest in dir && exists t :: t <= dir[c.digest].data && more == written + t)
  }

  // What a failed file may hold: verified blocks up to some chunk, then any
  // part of what is stored for that chunk.
  ghost predicate Unfinished(h: Hash, dir: ChunkDir, f: FileEntry, bytes: Bytes) {
    exists k: nat, blocks :: UnfinishedAt(h, dir, f, bytes, k, blocks)
  }

  ghost predicate UnfinishedAt(h: Hash, dir: ChunkDir, f: FileEntry, bytes: Bytes, k: nat, blocks: seq<Bytes>) {
    && k == |blocks| <= |f.chunks|
    && (forall i :: 0 <= i < k ==> Intact(h, dir, f.chunks[i]) && blocks[i] == dir[f.chunks[i].digest].data)
    && if k == |f.chunks| then bytes == Concat(blocks) else Tail(dir, f.chunks[k], Concat(blocks), bytes)
  }

  // Output files by their path.
  type Outputs = map<string, Bytes>

  // filepath.Join of the target directory and a file's name.
  function PathOf(target: string, name: string): string {
    if target == "" && name == "" then ""
    else if target == "" then Paths.Clean(name)
    else if name == "" then Paths.Clean(target)
    else Paths.Clean(target + "/" + name)
  }

  ghost predicate CameThrough(h: Hash, f: FileEntry, path: string, dst: Outputs, out: Outputs) {
    path in out && out == dst[path := out[path]] && Rebuilds(h, f.chunks, out[path])
  }

  ghost predicate Stays(h: Hash, dir: ChunkDir, f: FileEntry, path: string, dst: Outputs, out: Outputs) {
    path in out && out == dst[path := out[path]] && Unfinished(h, dir, f, out[path])
  }

  // The path holds verified chunks of a file of the manifest that goes there.
  ghost predicate Holds(h: Hash, m: Manifest, target: string, out: Outputs, path: string) {
    path in out && exists f :: f in m.files && PathOf(target, f.name) == path && Rebuilds(h, f.chunks, out[path])
  }

  // A destination file is as it was, or made of verified chunks, or the one
  // that failed and could not be removed.
  ghost predicate Tidy(h: Hash, m: Manifest, target: string, dst: Outputs, out: Outputs, left: Option<string>) {
    forall p :: p in out && Some(p) != left ==> (p in dst && out[p] == dst[p]) || Holds(h, m, target, out, p)
  }

  ghost predicate LeftOver(h: Hash, dir: ChunkDir, m: Manifest, target: string, out: Outputs, p: string) {
    p in out && exists f :: f in m.files && PathOf(target, f.name) == p && Unfinished(h, dir, f, out[p])
  }

  // Where each file of the manifest goes there is such a file.
  ghost predicate Restored(h: Hash, m: Manifest, target: string, out: Outputs) {
    forall f :: f in m.files ==> Holds(h, m, target, out, PathOf(target, f.name))
  }

  // The first `n` files of the manifest have come through.
  ghost predicate RestoredUpTo(h: Hash, m: Manifest, target: string, n: nat, out: Outputs)
    requires n <= |m.files|
  {
    forall k :: 0 <= k < n ==> Holds(h, m, target, out, PathOf(target, m.files[k].name))
  }

  lemma RestoredNext(h: Hash, m: Manifest, target: string, n: nat, before: Outputs, out: Outputs)
    requires n < |m.files| && RestoredUpTo(h, m, target, n, before)
    requires CameThrough(h, m.files[n], PathOf(target, m.files[n].name), before, out)
    ensures RestoredUpTo(h, m, target, n + 1, out)
  {
    var path := PathOf(target, m.files[n].name);
    assert Holds(h, m, target, out, path);
    forall k | 0 <= k < n ensures Holds(h, m, target, out, PathOf(target, m.files[k].name)) {
      assert Holds(h, m, target, before, PathOf(target, m.files[k].name));
    }
  }

  lemma RestoredAll(h: Hash, m: Manifest, target: string, out: Outputs)
    requires RestoredUpTo(h, m, target, |m.files|, out)
    ensures Restored(h, m, target, out)
  {
    forall f | f in m.files ensures Holds(h, m, target, out, PathOf(target, f.name)) {
      var k :| 0 <= k < |m.files| && m.files[k] == f;
      assert Holds(h, m, target, out, PathOf(target, m.files[k].name));
    }
  }

  // What restoring a manifest comes to.
  ghost predicate Restores(h: Hash, dir: ChunkDir, got: Result<Manifest>, target: string, dst: Outputs, ok: bool,
                           out: Outputs, left: Option<string>)
  {
    match got
    case Err => !ok && out == dst && left == None
    case Ok(m) =>
      && Tidy(h, m, target, dst, out, left)
      && (left.Some? ==> !ok && LeftOver(h, dir, m, target, out, left.value))
      && (ok ==> ManifestIntact(h, dir, m) && Restored(h, m, target, out))
  }

  // Files that go to one path have the same contents.
  ghost predicate Consistent(target: string, files: map<string, FileData>) {
    forall a, b :: a in files && b in files && PathOf(target, a) == PathOf(target, b) ==> files[a] == files[b]
  }

  ghost predicate AllBack(target: string, files: map<string, FileData>, out: Outputs) {
    forall n :: n in files ==> PathOf(target, n) in out && out[PathOf(target, n)] == files[n]
  }

  // The path holds what the file map has under a name that goes there.
  ghost predicate Original(target: string, files: map<string, FileData>, out: Outputs, p: string) {
    p in out && exists n :: n in files && PathOf(target, n) == p && out[p] == files[n]
  }

  // Below a clean absolute directory, a name made of ordinary components goes to
  // the path of that name in the directory.
  lemma PlainNameKept(dir: seq<string>, name: seq<string>)
    requires dir != [] && name != [] && Paths.AllPlain(dir) && Paths.AllPlain(name)
    ensures PathOf("/" + Paths.Join(dir), Paths.Join(name)) == "/" + Paths.Join(dir) + "/" + Paths.Join(name)
  {
    Paths.JoinConcat(dir, name);
    Paths.AbsoluteIsClean(dir + name);
    Paths.SplitJoin(name);
    Paths.SplitWord("");
    var joined := Paths.Absolute(dir) + "/" + Paths.Join(name);
    assert joined == Paths.Absolute(dir + name);
  }

  // So files with such names never share a path.
  lemma PlainNamesConsistent(dir: seq<string>, files: map<string, FileData>)
    requires dir != [] && Paths.AllPlain(dir) && forall n :: n in files ==> Paths.AllPlain(Paths.Split(n))
    ensures Consistent("/" + Paths.Join(dir), files)
  {
    var target := "/" + Paths.Join(dir);
    forall a, b | a in files && b in files && PathOf(target, a) == PathOf(target, b) ensures a == b {
      Paths.JoinSplit(a);
      Paths.JoinSplit(b);
      PlainNameKept(dir, Paths.Split(a));
      PlainNameKept(dir, Paths.Split(b));
      assert (target + "/" + a)[|target| + 1..] == a && (target + "/" + b)[|target| + 1..] == b;
    }
  }

  // Two names of a manifest can go to one path.
  lemma NamesShareAPath()
    ensures PathOf("d", "a") == PathOf("d", "./a")
  {
    Paths.SplitWord("d");
    Paths.SplitWord("a");
    Paths.SplitWord(".");
    Paths.SplitConcat(".", "a");
    Paths.SplitConcat("d", "a");
    Paths.SplitConcat("d", "./a");
    ResolvesAlike();
    assert "." + "/" + "a" == "./a";
  }

  lemma ResolvesAlike()
    ensures Paths.Resolve([], ["d"] + ["a"], false) == Paths.Resolve([], ["d"] + (["."] + ["a"]), false)
  {
    Paths.ResolveConcat([], ["d"], ["a"], false);
    Paths.ResolveConcat([], ["d"], ["."] + ["a"], false);
    Paths.ResolveConcat(Paths.Resolve([], ["d"], false), ["."], ["a"], false);
    assert ["."][1..] == [];
  }

  // ------------------------------------------------------------------- pins

  function Stored(manifests: map<string, Bytes>, d: string): Result<Manifest> {
    if ValidDigest(d) && d in manifests then DecodeManifest(manifests[d]) else Err
  }

  ghost function DigestsAt(manifests: map<string, Bytes>, p: string): set<string> {
    var m := Stored(manifests, p);
    if m.Ok? then DigestsOf(m.value) else {}
  }

  ghost function RefsOf(manifests: map<string, Bytes>, order: seq<string>): (refs: seq<set<string>>)
    ensures |refs| == |order| && forall i :: 0 <= i < |order| ==> refs[i] == DigestsAt(manifests, order[i])
  {
    seq(|order|, i requires 0 <= i < |order| => DigestsAt(manifests, order[i]))
  }

  // The chunks protected by the first n pins when their manifests, which refer to
  // `refs`, are read from file operation number `from` on: a pin whose read fails
  // protects nothing.
  ghost function Protected(refs: seq<set<string>>, disk: nat -> bool, from: nat, n: nat): set<string>
    requires n <= |refs|
  {
    if n == 0 then {}
    else Protected(refs, disk, from, n - 1) + if disk(from + n - 1) then refs[n - 1] else {}
  }

  lemma ProtectedNext(refs: seq<set<string>>, disk: nat -> bool, from: nat, i: nat)
    requires i < |refs|
    ensures Protected(refs, disk, from, i + 1) ==
      Protected(refs, disk, from, i) + if disk(from + i) then refs[i] else {}
  {
  }

  // Exactly the chunks that the manifests of the pins read refer to.
  lemma {:induction false} ProtectedExactly(refs: seq<set<string>>, disk: nat -> bool, from: nat, n: nat, d: string)
    requires n <= |refs|
    ensures d in Protected(refs, disk, from, n) <==> exists i :: i < n && ProtectedBy(refs, disk, from, i, d)
  {
    if n > 0 {
      ProtectedExactly(refs, disk, from, n - 1, d);
      assert d in Protected(refs, disk, from, n) <==>
        d in Protected(refs, disk, from, n - 1) || ProtectedBy(refs, disk, from, n - 1, d);
    }
  }

  ghost predicate ProtectedBy(refs: seq<set<string>>, disk: nat -> bool, from: nat, i: int, d: string) {
    0 <= i < |refs| && disk(from + i) && d in refs[i]
  }

  // The pins in the order in which a listing of their directory gives them.
  ghost predicate PinOrder(order: seq<string>, pins: set<string>) {
    Sorted(StringLe, order) && Distinct(order) && forall p :: p in order <==> p in pins
  }

  class Store {
    const hash: Hash
    const disk: nat -> bool  // whether the n-th file operation succeeds
    const now: nat -> int    // ... and what the clock shows then
    var ops: nat             // file operations made so far
    var chunks: ChunkDir
    var manifests: map<string, Bytes>
    var pins: set<string>

    constructor (hash: Hash, disk: nat -> bool, now: nat -> int)
      ensures this.hash == hash && this.disk == disk && this.now == now && ops == 0
      ensures chunks == map[] && manifests == map[] && pins == {}
    {
      this.hash, this.disk, this.now, ops := hash, disk, now, 0;
      chunks, manifests, pins := map[], map[], {};
    }

    method Io() returns (ok: bool)
      modifies `ops
      ensures ok == disk(old(ops)) && ops == old(ops) + 1
    {
      ok := disk(ops);
      ops := ops + 1;
    }

    ghost predicate Reliable() { forall n :: disk(n) }

    // Every operation from number n on succeeds.
    ghost predicate ReliableFrom(n: nat) { forall k: nat :: n <= k ==> disk(k) }

    // The latest file operation failed.
    ghost predicate LastFailed()
      reads `ops
    {
      ops > 0 && !disk(ops - 1)
    }

    predicate HasChunk(d: string)
      reads this`chunks
    {
      ValidDigest(d) && d in chunks
    }

    function GetManifest(d: string): Result<Manifest>
      reads this`manifests
    {
      Stored(manifests, d)
    }

    ghost predicate Complete(m: Manifest)
      reads this`chunks
    {
      forall d :: d in DigestsOf(m) ==> HasChunk(d)
    }

    // ------------------------------------------------------------------ writes

    method WriteChunk(d: string, data: Bytes) returns (ok: bool)
      modifies `ops, this`chunks
      ensures ok == disk(old(ops)) && ops == old(ops) + 1
      ensures chunks == if ok then old(chunks)[d := ChunkFile(data, now(old(ops)))] else old(chunks)
    {
      ok := Io();
      if ok { chunks := chunks[d := ChunkFile(data, now(ops - 1))]; }
    }

    // PutChunk: only bytes that hash to the claimed digest are ever stored.
    method PutChunk(d: string, s: Stream) returns (ok: bool)
      modifies `ops, this`chunks
      ensures ok ==> chunks == old(chunks)[d := ChunkFile(s.data, now(old(ops)))]
      ensures ok ==> Sound(hash, d, s.data)
      ensures !ok ==> chunks == old(chunks)
      ensures Reliable() && Sound(hash, d, s.data) && !s.breaks ==> ok
    {
      if !ValidDigest(d) { return false; }
      var limit := CHUNK_SIZE + 1;
      if |s.data| < limit && s.breaks { return false; }
      var data := if |s.data| < limit then s.data else s.data[..limit];
      if |data| > CHUNK_SIZE { return false; }
      if hash(data) != d { return false; }
      ok := WriteChunk(d, data);
    }

    method PutManifest(m: Manifest) returns (ok: bool)
      modifies `ops, this`manifests
      ensures ok ==> manifests == old(manifests)[hash(Canonical(m)) := Canonical(m)]
      ensures !ok ==> manifests == old(manifests)
      ensures ok == disk(old(ops))
    {
      var bytes := WriteCanonical(m);
      ok := Io();
      if ok { manifests := manifests[hash(bytes) := bytes]; }
    }

    // putFileChunks: one pass that stores every block the store lacks (the dedup skip).
    method PutFileChunks(name: string, data: FileData) returns (r: Result<FileEntry>)
      modifies `ops, this`chunks
      ensures Grows(hash, old(chunks), chunks)
      ensures r.Ok? ==> r.value == Entry(hash, name, data) && Present(chunks, r.value.chunks)
      ensures Reliable() ==> r.Ok?
    {
      var refs: seq<ChunkRef> := [];
      var pos := 0;
      while pos < |data|
        invariant ListedTo(hash, data, pos, refs)
        invariant Grows(hash, old(chunks), chunks) && Present(chunks, refs)
        decreases |data| - pos
      {
        var readable := Io();
        if !readable { return Err; }
        ListedNext(hash, data, pos, refs);
        var end := BlockEnd(data, pos);
        var block := data[pos..end];
        ghost var before := chunks;
        var ok := StoreBlock(block);
        GrowsTransitive(hash, old(chunks), before, chunks);
        PresentGrows(hash, before, chunks, refs);
        if !ok { return Err; }
        refs := refs + [RefOf(hash, block)];
        pos := end;
      }
      r := Ok(FileEntry(name, |data|, refs));
    }

    method StoreBlock(block: Bytes) returns (ok: bool)
      requires |block| <= CHUNK_SIZE
      modifies `ops, this`chunks
      ensures Grows(hash, old(chunks), chunks)
      ensures ok ==> hash(block) in chunks
      ensures Reliable() ==> ok
    {
      var d := hash(block);
      ok := true;
      if !HasChunk(d) { ok := WriteChunk(d, block); }
    }

    method PutFiles(names: seq<string>, files: map<string, FileData>) returns (r: Result<seq<FileEntry>>)
      requires forall i :: 0 <= i < |names| ==> names[i] in files
      modifies `ops, this`chunks
      ensures Grows(hash, old(chunks), chunks)
      ensures r.Ok? ==> |r.value| == |names| && AllPresent(chunks, r.value)
      ensures r.Ok? ==> forall i :: 0 <= i < |names| ==> r.value[i] == Entry(hash, names[i], files[names[i]])
      ensures Reliable() ==> r.Ok?
    {
      var entries: seq<FileEntry> := [];
      for i := 0 to |names|
        invariant |entries| == i
        invariant forall k :: 0 <= k < i ==> entries[k] == Entry(hash, names[k], files[names[k]])
        invariant Grows(hash, old(chunks), chunks) && AllPresent(chunks, entries)
      {
        ghost var before := chunks;
        var fe := PutFileChunks(names[i], files[names[i]]);
        GrowsTransitive(hash, old(chunks), before, chunks);
        AllPresentGrows(hash, before, chunks, entries);
        if fe.Err? { return Err; }
        entries := entries + [fe.value];
      }
      r := Ok(entries);
    }

    lemma AllPresentComplete(m: Manifest)
      requires AllPresent(chunks, m.files)
      ensures Complete(m)
    {
      forall d | d in DigestsOf(m) ensures HasChunk(d) {
        var f, c :| f in m.files && c in f.chunks && c.digest == d;
        assert Present(chunks, f.chunks);
      }
    }

    // PutSnapshot: the manifest BuildManifest would give, stored after its chunks.
    method PutSnapshot(files: map<string, FileData>, meta: Metadata) returns (r: Result<Manifest>)
      modifies `ops, this`chunks, this`manifests
      ensures Grows(hash, old(chunks), chunks)
      ensures r.Ok? ==> Describes(hash, r.value, files, meta) && Complete(r.value)
      ensures r.Ok? ==> manifests == old(manifests)[hash(Canonical(r.value)) := Canonical(r.value)]
      ensures r.Err? ==> manifests == old(manifests)
      ensures Reliable() ==> r.Ok?
    {
      r := PutAllChunks(files, meta);
      if r.Err? { return; }
      var ok := PutManifest(r.value);
      if !ok { return Err; }
    }

    // The chunks of all files, in name order, and the manifest that lists them.
    method PutAllChunks(files: map<string, FileData>, meta: Metadata) returns (r: Result<Manifest>)
      modifies `ops, this`chunks
      ensures Grows(hash, old(chunks), chunks)
      ensures r.Ok? ==> Describes(hash, r.value, files, meta) && Complete(r.value)
      ensures Reliable() ==> r.Ok?
    {
      var names := SortedNames(files.Keys);
      assert forall i :: 0 <= i < |names| ==> names[i] in names;
      var entries := PutFiles(names, files);
      if entries.Err? { return Err; }
      EntriesDescribe(hash, files, meta, names, entries.value);
      r := Ok(Manifest(entries.value, meta));
      AllPresentComplete(r.value);
    }

    // -------------------------------------------------------------------- pull

    // MissingChunks: each referenced digest the store lacks, once.
    method MissingChunks(m: Manifest) returns (missing: seq<string>)
      ensures Distinct(missing)
      ensures forall d :: d in missing <==> d in DigestsOf(m) && !HasChunk(d)
    {
      var seen: set<string> := {};
      missing := [];
      for i := 0 to |m.files|
        invariant seen == DigestsOf(Manifest(m.files[..i], m.meta))
        invariant Distinct(missing) && forall d :: d in missing <==> d in seen && !HasChunk(d)
      {
        var refs := m.files[i].chunks;
        for j := 0 to |refs|
          invariant seen == DigestsOf(Manifest(m.files[..i], m.meta)) + set c | c in refs[..j] :: c.digest
          invariant Distinct(missing) && forall d :: d in missing <==> d in seen && !HasChunk(d)
        {
          var d := refs[j].digest;
          assert refs[..j + 1] == refs[..j] + [refs[j]];
          if d !in seen {
            seen := seen + {d};
            if !HasChunk(d) { missing := missing + [d]; }
          }
        }
        assert refs[..|refs|] == refs;
        assert m.files[..i + 1] == m.files[..i] + [m.files[i]];
      }
      assert m.files[..|m.files|] == m.files;
    }

    // Fetch, verify and store the listed chunks in order, stopping at the first failure.
    method FetchAll(remote: Transport, missing: seq<string>) returns (ok: bool, fetched: seq<string>)
      requires Distinct(missing) && forall i :: 0 <= i < |missing| ==> !HasChunk(missing[i])
      modifies `ops, this`chunks
      ensures Grows(hash, old(chunks), chunks)
      ensures fetched <= missing
      ensures ok ==> fetched == missing && forall i :: 0 <= i < |missing| ==> HasChunk(missing[i])
      ensures Reliable() && (forall d :: d in missing ==> Serves(hash, remote, d)) ==> ok
    {
      fetched := [];
      for i := 0 to |missing|
        invariant fetched == missing[..i]
        invariant Grows(hash, old(chunks), chunks)
        invariant forall k :: 0 <= k < i ==> HasChunk(missing[k])
        invariant forall k :: i <= k < |missing| ==> !HasChunk(missing[k])
      {
        var d := missing[i];
        assert d in missing;
        var stream := remote.getChunk(d);
        fetched := fetched + [d];
        if stream.Err? { return false, fetched; }
        var stored := PutChunk(d, stream.value);
        if !stored { return false, fetched; }
      }
      ok := true;
    }

    // Pull: whatever the peer answers, only verified chunks are added and none
    // is touched; success means the requested manifest is here with all it needs.
    method Pull(remote: Transport, digest: string) returns (ok: bool, fetched: seq<string>)
      modifies `ops, this`chunks, this`manifests
      ensures Grows(hash, old(chunks), chunks)
      ensures Distinct(fetched) && forall d :: d in fetched ==> !(ValidDigest(d) && d in old(chunks))
      ensures ok ==> digest in manifests && hash(manifests[digest]) == digest
      ensures ok ==> manifests == old(manifests)[digest := manifests[digest]]
      ensures ok ==> Pulled(GetManifest(digest), old(chunks), chunks, fetched)
      ensures !ok ==> manifests == old(manifests)
      ensures Reliable() && Honest(hash, remote, digest) ==> ok
    {
      fetched := [];
      if !ValidDigest(digest) { return false, []; }
      var reply := remote.getManifest(digest);
      if reply.Err? { return false, []; }
      var m := reply.value;
      var bytes := WriteCanonical(m);
      if hash(bytes) != digest { return false, []; }
      var missing := MissingChunks(m);
      ok, fetched := FetchAll(remote, missing);
      if !ok { return false, fetched; }
      ok := StorePulled(m, digest, old(chunks), fetched);
    }

    method StorePulled(m: Manifest, ghost digest: string, ghost before: ChunkDir, ghost fetched: seq<string>)
      returns (ok: bool)
      requires hash(Canonical(m)) == digest && Pulled(Ok(m), before, chunks, fetched)
      modifies `ops, this`manifests
      ensures ok == disk(old(ops)) && (!ok ==> manifests == old(manifests))
      ensures ok ==> digest in manifests && hash(manifests[digest]) == digest
      ensures ok ==> manifests == old(manifests)[digest := manifests[digest]]
      ensures ok ==> Pulled(GetManifest(digest), before, chunks, fetched)
    {
      ok := PutManifest(m);
      DecodeCanonical(m);
      DigestsOfSorted(m);
    }

    // ------------------------------------------------------------- materialize

    // copyVerifiedChunk: bytes reach the output before their digest is known, so
    // a copy that fails may have added any part of the stored chunk.
    method CopyVerified(c: ChunkRef, written: Bytes) returns (ok: bool, more: Bytes)
      modifies `ops
      ensures ops == old(ops) + 1 && ok == (disk(old(ops)) && Intact(hash, chunks, c))
      ensures ok ==> more == written + chunks[c.digest].data
      ensures !ok ==> Tail(chunks, c, written, more)
    {
      var readable := Io();
      more := written;
      if c.digest !in chunks { return false, written; }
      var data := chunks[c.digest].data;
      if !readable {
        var k: int := *;
        return false, written + (if 0 <= k <= |data| then data[..k] else []);
      }
      return hash(data) == c.digest, written + data;
    }

    // touchChunk: a use of the chunk makes it the most recent.
    method Touch(d: string)
      modifies `ops, this`chunks
      ensures ops == old(ops) + 1
      ensures chunks == if disk(old(ops)) && d in old(chunks)
        then old(chunks)[d := ChunkFile(old(chunks)[d].data, now(old(ops)))] else old(chunks)
    {
      var ok := Io();
      if ok && d in chunks { chunks := chunks[d := chunks[d].(mtime := now(ops - 1))]; }
    }

    // The use of the i-th chunk of a file.
    method TouchNext(f: FileEntry, i: nat, ghost before: ChunkDir, ghost from: nat)
      requires i < |f.chunks| && from < ops && f.chunks[i].digest in chunks
      requires OnlyUses(now, before, chunks, FileDigests(f), from, ops - 1)
      requires Reliable() ==> AllUsed(now, chunks, f.chunks[..i], from, ops - 1)
      modifies `ops, this`chunks
      ensures ops == old(ops) + 1 && SameData(old(chunks), chunks)
      ensures OnlyUses(now, before, chunks, FileDigests(f), from, ops)
      ensures Reliable() ==> AllUsed(now, chunks, f.chunks[..i + 1], from, ops)
    {
      ghost var c, all := f.chunks[i], FileDigests(f);
      Touch(f.chunks[i].digest);
      assert Used(now, chunks, c.digest, ops - 1, ops) || chunks == old(chunks);
      assert OnlyUses(now, old(chunks), chunks, all, old(ops) - 1, ops);
      UsesOn(now, before, old(chunks), chunks, all, all, from, old(ops) - 1, ops);
      if Reliable() {
        AllUsedOn(now, old(chunks), chunks, all, f.chunks[..i], from, old(ops) - 1, ops);
        assert Used(now, chunks, c.digest, from, ops);
        assert f.chunks[..i + 1] == f.chunks[..i] + [c];
      }
    }

    // The chunk copies of one file, up to the first that fails; each chunk copied
    // has been used.
    method CopyChunks(f: FileEntry) returns (ok: bool, written: Bytes)
      modifies `ops, this`chunks
      ensures SameData(old(chunks), chunks) && ops >= old(ops) && (!ok ==> ops > old(ops))
      ensures OnlyUses(now, old(chunks), chunks, FileDigests(f), old(ops), ops)
      ensures ok ==> Rebuilds(hash, f.chunks, written) && AllIntact(hash, chunks, f)
      ensures ok && Reliable() ==> AllUsed(now, chunks, f.chunks, old(ops), ops)
      ensures Unfinished(hash, chunks, f, written)
      ensures Reliable() ==> (ok <==> AllIntact(hash, chunks, f))
    {
      written := [];
      ghost var blocks: seq<Bytes> := [];
      for i := 0 to |f.chunks|
        invariant ops >= old(ops) && OnlyUses(now, old(chunks), chunks, FileDigests(f), old(ops), ops)
        invariant Reliable() ==> AllUsed(now, chunks, f.chunks[..i], old(ops), ops)
        invariant Copied(hash, chunks, f, i, blocks) && written == Concat(blocks)
      {
        ok, written := CopyVerified(f.chunks[i], written);
        if !ok {
          UsesKeepData(now, old(chunks), chunks, FileDigests(f), old(ops), ops);
          assert UnfinishedAt(hash, chunks, f, written, i, blocks);
          return;
        }
        ghost var earlier := chunks;
        ConcatSnoc(blocks, chunks[f.chunks[i].digest].data);
        TouchNext(f, i, old(chunks), old(ops));
        CopiedNext(hash, earlier, chunks, f, i, blocks);
        blocks := blocks + [earlier[f.chunks[i].digest].data];
      }
      UsesKeepData(now, old(chunks), chunks, FileDigests(f), old(ops), ops);
      assert Matches(hash, f.chunks, blocks) && UnfinishedAt(hash, chunks, f, written, |f.chunks|, blocks);
      assert f.chunks[..|f.chunks|] == f.chunks;
      ok := true;
    }

    // materializeFileAt: an error after the output is created removes it, if the
    // removal succeeds.  So a file that did not come through is left exactly when
    // the last operation, its removal, failed too.
    method MaterializeFile(f: FileEntry, path: string, dst: Outputs) returns (ok: bool, out: Outputs)
      modifies `ops, this`chunks
      ensures SameData(old(chunks), chunks)
      ensures !disk(old(ops)) ==> !ok && out == dst
      ensures disk(old(ops)) ==> ops >= old(ops) + 3
      ensures ok ==> !LastFailed() && CameThrough(hash, f, path, dst, out) && AllIntact(hash, chunks, f)
      ensures ops >= old(ops) && OnlyUses(now, old(chunks), chunks, FileDigests(f), old(ops), ops)
      ensures ok && Reliable() ==> AllUsed(now, chunks, f.chunks, old(ops), ops)
      ensures disk(old(ops)) && !ok && !LastFailed() ==> out == dst - {path}
      ensures disk(old(ops)) && !ok && LastFailed() ==> Stays(hash, chunks, f, path, dst, out)
      ensures Reliable() ==> (ok <==> AllIntact(hash, chunks, f))
    {
      var created := Io();
      if !created { return false, dst; }
      var written;
      ok, written := FillFile(f);
      if ok { return true, dst[path := written]; }
      var removed := Io();
      return false, if removed then dst - {path} else dst[path := written];
    }

    // The copies, the sync and the close.
    method FillFile(f: FileEntry) returns (ok: bool, written: Bytes)
      modifies `ops, this`chunks
      ensures SameData(old(chunks), chunks) && ops >= old(ops) + (if ok then 2 else 1)
      ensures ok ==> !LastFailed() && Rebuilds(hash, f.chunks, written) && AllIntact(hash, chunks, f)
      ensures OnlyUses(now, old(chunks), chunks, FileDigests(f), old(ops), ops)
      ensures ok && Reliable() ==> AllUsed(now, chunks, f.chunks, old(ops), ops)
      ensures Unfinished(hash, chunks, f, written)
      ensures Reliable() ==> (ok <==> AllIntact(hash, chunks, f))
    {
      ok, written := CopyChunks(f);
      if !ok { return; }
      ok := SyncAndClose();
    }

    method SyncAndClose() returns (ok: bool)
      modifies `ops
      ensures ops > old(ops) && (ok ==> ops == old(ops) + 2 && !LastFailed()) && (Reliable() ==> ok)
    {
      ok := Io();
      if !ok { return; }
      ok := Io();
    }

    // The files of a manifest in order, up to the first that fails.
    method MaterializeFiles(m: Manifest, target: string, dst: Outputs)
      returns (ok: bool, out: Outputs, ghost left: Option<string>)
      modifies `ops, this`chunks
      ensures SameData(old(chunks), chunks) && Tidy(hash, m, target, dst, out, left)
      ensures left.Some? ==> !ok && LastFailed() && LeftOver(hash, chunks, m, target, out, left.value)
      ensures ok ==> ManifestIntact(hash, chunks, m) && Restored(hash, m, target, out)
      ensures ops >= old(ops) && OnlyUses(now, old(chunks), chunks, DigestsOf(m), old(ops), ops)
      ensures ok && Reliable() ==> FilesUsed(now, chunks, m.files, old(ops), ops)
      ensures Reliable() && ManifestIntact(hash, chunks, m) ==> ok
    {
      out, left := dst, None;
      for i := 0 to |m.files|
        invariant SameData(old(chunks), chunks) && Tidy(hash, m, target, dst, out, None) && left == None
        invariant IntactUpTo(hash, chunks, m, i) && RestoredUpTo(hash, m, target, i, out)
        invariant ops >= old(ops) && OnlyUses(now, old(chunks), chunks, DigestsOf(m), old(ops), ops)
        invariant Reliable() ==> FilesUsed(now, chunks, m.files[..i], old(ops), ops)
      {
        ghost var earlier, mid := chunks, ops;
        ok, out, left := MaterializeNext(m, i, target, dst, out);
        IntactCarry(hash, earlier, chunks, m, i);
        UsedNext(m, i, old(chunks), earlier, old(ops), mid);
        if !ok { return; }
      }
      RestoredAll(hash, m, target, out);
      assert m.files[..|m.files|] == m.files;
      ok := true;
    }

    // What was used by the first files is carried past the next one.
    lemma UsedNext(m: Manifest, i: nat, before: ChunkDir, earlier: ChunkDir, from: nat, mid: nat)
      requires i < |m.files| && from <= mid <= ops
      requires OnlyUses(now, before, earlier, DigestsOf(m), from, mid)
      requires OnlyUses(now, earlier, chunks, FileDigests(m.files[i]), mid, ops)
      ensures OnlyUses(now, before, chunks, DigestsOf(m), from, ops)
      ensures FilesUsed(now, earlier, m.files[..i], from, mid) && AllUsed(now, chunks, m.files[i].chunks, mid, ops) ==>
        FilesUsed(now, chunks, m.files[..i + 1], from, ops)
    {
      var f := m.files[i];
      assert FileDigests(f) <= DigestsOf(m);
      UsesOn(now, before, earlier, chunks, DigestsOf(m), FileDigests(f), from, mid, ops);
      if FilesUsed(now, earlier, m.files[..i], from, mid) && AllUsed(now, chunks, f.chunks, mid, ops) {
        FilesUsedOn(now, earlier, chunks, FileDigests(f), m.files[..i], from, mid, ops);
        forall j | 0 <= j < |f.chunks| ensures Used(now, chunks, f.chunks[j].digest, from, ops) {
          assert Used(now, chunks, f.chunks[j].digest, mid, ops);
        }
        assert m.files[..i + 1] == m.files[..i] + [f];
      }
    }

    method MaterializeNext(m: Manifest, i: nat, target: string, ghost dst: Outputs, before: Outputs)
      returns (ok: bool, out: Outputs, ghost left: Option<string>)
      requires i < |m.files| && Tidy(hash, m, target, dst, before, None) && RestoredUpTo(hash, m, target, i, before)
      modifies `ops, this`chunks
      ensures SameData(old(chunks), chunks) && Tidy(hash, m, target, dst, out, left)
      ensures ok ==> left == None && AllIntact(hash, chunks, m.files[i]) && RestoredUpTo(hash, m, target, i + 1, out)
      ensures ops >= old(ops) && OnlyUses(now, old(chunks), chunks, FileDigests(m.files[i]), old(ops), ops)
      ensures ok && Reliable() ==> AllUsed(now, chunks, m.files[i].chunks, old(ops), ops)
      ensures left.Some? ==> !ok && LastFailed() && LeftOver(hash, chunks, m, target, out, left.value)
      ensures Reliable() ==> (ok <==> AllIntact(hash, chunks, m.files[i]))
    {
      ghost var created := disk(ops);
      var f, path := m.files[i], PathOf(target, m.files[i].name);
      ok, out := MaterializeFile(f, path, before);
      left := if !ok && created && LastFailed() then Some(path) else None;
      TidyNext(m, f, target, dst, before, out, left);
      if ok { RestoredNext(hash, m, target, i, before, out); }
    }

    lemma TidyNext(m: Manifest, f: FileEntry, target: string, dst: Outputs, before: Outputs, out: Outputs,
                   left: Option<string>)
      requires f in m.files && Tidy(hash, m, target, dst, before, None)
      requires var path := PathOf(target, f.name);
        || out == before || out == before - {path} || CameThrough(hash, f, path, before, out)
        || (left == Some(path) && path in out && out == before[path := out[path]])
      ensures Tidy(hash, m, target, dst, out, left)
    {
      var path := PathOf(target, f.name);
      forall p | p in out && Some(p) != left ensures (p in dst && out[p] == dst[p]) || Holds(hash, m, target, out, p) {
        if p in before && out[p] == before[p] {
          assert (p in dst && before[p] == dst[p]) || Holds(hash, m, target, before, p);
        }
      }
    }

    // Reading a manifest.
    method ReadManifest(digest: string) returns (got: Result<Manifest>)
      modifies `ops
      ensures ops == old(ops) + 1 && got == if disk(old(ops)) then GetManifest(digest) else Err
    {
      var readable := Io();
      if !readable { return Err; }
      got := GetManifest(digest);
    }

    // Materialize: success rebuilds every file; a failure leaves verified files
    // and at most one, whose removal failed.  On a reliable disk it succeeds
    // exactly when the manifest and all its chunks are intact.
    method Materialize(digest: string, target: string, dst: Outputs)
      returns (ok: bool, out: Outputs, ghost left: Option<string>)
      modifies `ops, this`chunks
      ensures SameData(old(chunks), chunks)
      ensures Restores(hash, chunks, if disk(old(ops)) then GetManifest(digest) else Err, target, dst, ok, out, left)
      ensures left.Some? ==> LastFailed()
      ensures ops >= old(ops) && UsesManifest(GetManifest(digest), old(chunks), old(ops), ok)
      ensures GetManifest(digest).Ok? && Reliable() && ManifestIntact(hash, chunks, GetManifest(digest).value) ==> ok
    {
      var got := ReadManifest(digest);
      ok, out, left := MaterializeManifest(got, target, dst);
    }

    // Nothing happened to the chunks but that those of the manifest were used,
    // all of them when the disk is reliable.
    ghost predicate UsesManifest(got: Result<Manifest>, before: ChunkDir, from: nat, ok: bool)
      reads this`chunks, `ops
    {
      match got
      case Err => chunks == before
      case Ok(m) =>
        && OnlyUses(now, before, chunks, DigestsOf(m), from, ops)
        && (ok && Reliable() ==> FilesUsed(now, chunks, m.files, from, ops))
    }

    method MaterializeManifest(got: Result<Manifest>, target: string, dst: Outputs)
      returns (ok: bool, out: Outputs, ghost left: Option<string>)
      modifies `ops, this`chunks
      ensures SameData(old(chunks), chunks)
      ensures Restores(hash, chunks, got, target, dst, ok, out, left)
      ensures left.Some? ==> LastFailed()
      ensures ops >= old(ops) && UsesManifest(got, old(chunks), old(ops), ok)
      ensures got.Ok? && Reliable() && ManifestIntact(hash, chunks, got.value) ==> ok
    {
      if got.Err? { return false, dst, None; }
      var made := Io();
      if !made { return false, dst, None; }
      ok, out, left := MaterializeFiles(got.value, target, dst);
    }

    // Anything may happen to the chunk files while nobody looks.
    method Corrupt()
      modifies this`chunks
    {
      var damaged: ChunkDir := *;
      chunks := damaged;
    }

    // Store a snapshot, let its chunks be damaged, and restore it.  A restore that
    // succeeds brings every file back byte for byte exactly if files that go to
    // one path have the same contents; one that fails leaves only original
    // files, and at most one that it could not remove; or the hash collides.
    // With a sound store, no damage and a reliable disk it does succeed.
    method StoreAndRestore(files: map<string, FileData>, meta: Metadata, target: string, damaged: bool)
      returns (ok: bool, out: Outputs, ghost left: Option<string>)
      modifies `ops, this`chunks, this`manifests
      ensures ok ==> Collision(hash) || (AllBack(target, files, out) <==> Consistent(target, files))
      ensures Collision(hash) || forall p :: p in out && Some(p) != left ==> Original(target, files, out, p)
      ensures left.Some? ==> !ok && LastFailed()
      ensures Reliable() && !damaged && old(AllSound(hash, chunks)) ==> ok
    {
      var put := PutSnapshot(files, meta);
      if put.Err? { return false, map[], None; }
      var m := put.value;
      if damaged { Corrupt(); }
      StoredManifest(m, files, meta);
      if !damaged && old(AllSound(hash, chunks)) { CompleteIsIntact(hash, chunks, m); }
      ok, out, left := Restore(m, files, meta, target);
    }

    method Restore(m: Manifest, ghost files: map<string, FileData>, ghost meta: Metadata, target: string)
      returns (ok: bool, out: Outputs, ghost left: Option<string>)
      requires Describes(hash, m, files, meta) && GetManifest(hash(Canonical(m))) == Ok(m)
      modifies `ops, this`chunks
      ensures ok ==> Collision(hash) || (AllBack(target, files, out) <==> Consistent(target, files))
      ensures Collision(hash) || forall p :: p in out && Some(p) != left ==> Original(target, files, out, p)
      ensures left.Some? ==> !ok && LastFailed()
      ensures Reliable() && old(ManifestIntact(hash, chunks, m)) ==> ok
    {
      ghost var got := if disk(ops) then Ok(m) else Err;
      ok, out, left := Materialize(hash(Canonical(m)), target, map[]);
      RestoreMeans(got, m, files, meta, target, ok, out, left);
    }

    lemma RestoreMeans(got: Result<Manifest>, m: Manifest, files: map<string, FileData>, meta: Metadata, target: string,
                       ok: bool, out: Outputs, left: Option<string>)
      requires Describes(hash, m, files, meta) && (got == Ok(m) || got.Err?)
      requires Restores(hash, chunks, got, target, map[], ok, out, left)
      ensures ok ==> Collision(hash) || (AllBack(target, files, out) <==> Consistent(target, files))
      ensures Collision(hash) || forall p :: p in out && Some(p) != left ==> Original(target, files, out, p)
    {
      if got.Ok? { RestoredFiles(m, files, meta, target, out, left); }
      if ok { RestoredBack(m, files, meta, target, out); }
    }

    lemma RestoredFiles(m: Manifest, files: map<string, FileData>, meta: Metadata, target: string, out: Outputs,
                        left: Option<string>)
      requires Describes(hash, m, files, meta) && Tidy(hash, m, target, map[], out, left)
      ensures Collision(hash) || forall p :: p in out && Some(p) != left ==> Original(target, files, out, p)
    {
      forall p | p in out && Some(p) != left ensures Collision(hash) || Original(target, files, out, p) {
        HeldIsOriginal(m, files, meta, target, out, p);
      }
    }

    lemma RestoredBack(m: Manifest, files: map<string, FileData>, meta: Metadata, target: string, out: Outputs)
      requires Describes(hash, m, files, meta) && Restored(hash, m, target, out)
      ensures Collision(hash) || (AllBack(target, files, out) <==> Consistent(target, files))
    {
      forall n | n in files ensures Collision(hash) || Original(target, files, out, PathOf(target, n)) {
        RestoredOne(m, files, meta, target, out, n);
      }
      if !Collision(hash) { BackExactly(target, files, out); }
    }

    lemma RestoredOne(m: Manifest, files: map<string, FileData>, meta: Metadata, target: string, out: Outputs,
                      n: string)
      requires Describes(hash, m, files, meta) && Restored(hash, m, target, out) && n in files
      ensures Collision(hash) || Original(target, files, out, PathOf(target, n))
    {
      DescribedFile(hash, m, files, meta, Entry(hash, n, files[n]));
      HeldIsOriginal(m, files, meta, target, out, PathOf(target, n));
    }

    static lemma BackExactly(target: string, files: map<string, FileData>, out: Outputs)
      requires forall n :: n in files ==> Original(target, files, out, PathOf(target, n))
      ensures AllBack(target, files, out) <==> Consistent(target, files)
    {
      if Consistent(target, files) {
        forall n | n in files ensures PathOf(target, n) in out && out[PathOf(target, n)] == files[n] {
          assert Original(target, files, out, PathOf(target, n));
        }
      }
    }

    lemma HeldIsOriginal(m: Manifest, files: map<string, FileData>, meta: Metadata, target: string, out: Outputs,
                         p: string)
      requires Describes(hash, m, files, meta) && Holds(hash, m, target, out, p)
      ensures Collision(hash) || Original(target, files, out, p)
    {
      var f :| f in m.files && PathOf(target, f.name) == p && Rebuilds(hash, f.chunks, out[p]);
      DescribedFile(hash, m, files, meta, f);
      RebuiltIsOriginal(hash, files[f.name], out[p]);
    }

    // The cleanup is best effort: here a chunk does not match its digest, the
    // removal fails, and bytes that no block vouches for stay behind.
    static method PartialBytesRemain(h: Hash) returns (ok: bool, out: Outputs)
      ensures Collision(h) ||
        (!ok && "f" in out && !Rebuilds(h, [ChunkRef(h([1]), 1)], out["f"]))
    {
      var store := new Store(h, n => n < 2, n => n);
      var c := ChunkRef(h([1]), 1);
      store.chunks := map[c.digest := ChunkFile([2], 0)];
      ok, out := store.MaterializeFile(FileEntry("f", 1, [c]), "f", map[]);
      if h([1]) != h([2]) {
        assert !Intact(h, store.chunks, c);
        NotRebuilt(h, c, out["f"]);
      }
    }

    static lemma NotRebuilt(h: Hash, c: ChunkRef, bytes: Bytes)
      requires c.digest == h([1]) && bytes <= [2]
      ensures Collision(h) || !Rebuilds(h, [c], bytes)
    {
      if blocks :| Matches(h, [c], blocks) && bytes == Concat(blocks) {
        assert blocks == [blocks[0]] && Concat(blocks) == blocks[0] + Concat([]);
        assert blocks[0] == bytes && h(bytes) == h([1]);
        assert bytes == [] || bytes[0] == [2][0] == 2;
        assert bytes != [1];
      }
    }

    lemma StoredManifest(m: Manifest, files: map<string, FileData>, meta: Metadata)
      requires Describes(hash, m, files, meta)
      ensures DecodeManifest(Canonical(m)) == Ok(m)
    {
      DecodeCanonical(m);
      SortIdempotent(NameLe, m.files);
    }

    // ---------------------------------------------------------------- eviction

    method Pin(digest: string) returns (ok: bool)
      modifies `ops, this`pins
      ensures pins == if ok then old(pins) + {digest} else old(pins)
    {
      ok := Io();
      if ok { pins := pins + {digest}; }
    }

    method Unpin(digest: string) returns (ok: bool)
      modifies `ops, this`pins
      ensures pins == if ok then old(pins) - {digest} else old(pins)
    {
      ok := Io();
      if ok { pins := pins - {digest}; }
    }

    // Reading the manifest of a pin may fail, and then the pin protects nothing.
    method ReadPin(p: string, ghost refs: set<string>) returns (found: set<string>)
      requires refs == DigestsAt(manifests, p)
      modifies `ops
      ensures ops == old(ops) + 1 && found == if disk(old(ops)) then refs else {}
    {
      var m := ReadManifest(p);
      if m.Err? { return {}; }
      found := ManifestDigests(m.value);
    }

    method PinOne(pinned: set<string>, p: string, ghost refs: seq<set<string>>, ghost from: nat, ghost i: nat)
      returns (more: set<string>)
      requires i < |refs| && refs[i] == DigestsAt(manifests, p)
      requires ops == from + i && pinned == Protected(refs, disk, from, i)
      modifies `ops
      ensures ops == from + i + 1 && more == Protected(refs, disk, from, i + 1)
    {
      var found := ReadPin(p, refs[i]);
      ProtectedNext(refs, disk, from, i);
      more := pinned + found;
    }

    // The chunks that the manifests of the pins read refer to.
    method PinnedChunks(order: seq<string>) returns (pinned: set<string>)
      modifies `ops
      ensures ops == old(ops) + |order| && pinned == Protected(RefsOf(manifests, order), disk, old(ops), |order|)
    {
      pinned := {};
      ghost var refs, from := RefsOf(manifests, order), ops;
      for i := 0 to |order|
        invariant ops == from + i && pinned == Protected(refs, disk, from, i)
      {
        pinned := PinOne(pinned, order[i], refs, from, i);
      }
    }

    method ManifestDigests(m: Manifest) returns (digests: set<string>)
      ensures digests == DigestsOf(m)
    {
      digests := {};
      for i := 0 to |m.files|
        invariant digests == DigestsOf(Manifest(m.files[..i], m.meta))
      {
        assert m.files[..i + 1] == m.files[..i] + [m.files[i]];
        digests := digests + set c | c in m.files[i].chunks :: c.digest;
      }
      assert m.files[..|m.files|] == m.files;
    }

    method ScanChunks() returns (r: Result<seq<Stat>>)
      modifies `ops
      ensures ops == old(ops) + 1 && r.Ok? == disk(old(ops)) && (r.Ok? ==> Lists(r.value, chunks))
    {
      var readable := Io();
      if !readable { return Err; }
      var names := Enumerate(chunks.Keys);
      var stats: seq<Stat> := [];
      for i := 0 to |names|
        invariant |stats| == i
        invariant forall k :: 0 <= k < i ==> names[k] in chunks && stats[k] == StatOf(chunks, names[k])
      {
        assert names[i] in names;
        stats := stats + [StatOf(chunks, names[i])];
      }
      forall d | d in chunks ensures exists i :: 0 <= i < |stats| && stats[i].name == d {
        var i :| 0 <= i < |names| && names[i] == d;
        assert stats[i].name == d;
      }
      r := Ok(stats);
    }

    method TotalSize(stats: seq<Stat>) returns (total: nat)
      requires Lists(stats, chunks)
      ensures total == Total(chunks)
    {
      total := 0;
      for i := 0 to |stats|
        invariant total == SumSizes(stats[..i])
      {
        assert stats[..i + 1][..i] == stats[..i];
        total := total + stats[i].size;
      }
      assert stats[..|stats|] == stats;
      ListsTotal(stats, chunks);
    }

    // EvictToFit: oldest first, no further than needed, and nothing that a pin
    // read in this pass refers to.
    method EvictToFit(maxBytes: int) returns (freed: nat, ok: bool, order: seq<string>, ghost pinned: set<string>)
      modifies `ops, this`chunks
      ensures PinOrder(order, pins) && pinned == Protected(RefsOf(manifests, order), disk, old(ops) + 2, |order|)
      ensures Evicts(old(chunks), chunks, pinned, maxBytes, freed, ok)
      ensures disk(old(ops)) && disk(old(ops) + 1) && ReliableFrom(old(ops) + 2 + |order|) ==> ok
    {
      order := SortedNames(pins);
      pinned := Protected(RefsOf(manifests, order), disk, ops + 2, |order|);
      freed, ok := EvictPass(order, maxBytes, pinned);
    }

    // The pass, given what the listing of the pins will show.
    method EvictPass(order: seq<string>, maxBytes: int, ghost pinned: set<string>) returns (freed: nat, ok: bool)
      requires pinned == Protected(RefsOf(manifests, order), disk, ops + 2, |order|)
      modifies `ops, this`chunks
      ensures Evicts(old(chunks), chunks, pinned, maxBytes, freed, ok)
      ensures disk(old(ops)) && disk(old(ops) + 1) && ReliableFrom(old(ops) + 2 + |order|) ==> ok
    {
      NothingEvicted(chunks, pinned, maxBytes);
      var scan := ScanChunks();
      if scan.Err? { return 0, false; }
      var found := ListPins(order, pinned);
      if found.Err? { return 0, false; }
      freed, ok := EvictListed(scan.value, found.value, maxBytes);
    }

    method ListPins(order: seq<string>, ghost pinned: set<string>) returns (found: Result<set<string>>)
      requires pinned == Protected(RefsOf(manifests, order), disk, ops + 1, |order|)
      modifies `ops
      ensures found.Ok? == disk(old(ops)) && (found.Ok? ==> found.value == pinned && ops == old(ops) + 1 + |order|)
    {
      var readable := Io();
      if !readable { return Err; }
      var digests := PinnedChunks(order);
      found := Ok(digests);
    }

    method EvictListed(listed: seq<Stat>, pinned: set<string>, maxBytes: int) returns (freed: nat, ok: bool)
      requires Lists(listed, chunks)
      modifies `ops, this`chunks
      ensures Evicts(old(chunks), chunks, pinned, maxBytes, freed, ok)
      ensures ReliableFrom(old(ops)) ==> ok
    {
      var total := TotalSize(listed);
      if total <= maxBytes { return 0, true; }
      var stats := Sort(OlderLe, listed);
      ListsSorted(listed, chunks);
      freed, ok := Sweep(stats, pinned, total, maxBytes);
      ShortestIsLeastRecent(old(chunks), chunks, pinned, maxBytes);
    }

    method Sweep(stats: seq<Stat>, pinned: set<string>, size: nat, maxBytes: int) returns (freed: nat, ok: bool)
      requires Lists(stats, chunks) && Sorted(OlderLe, stats) && size == Total(chunks)
      modifies `ops, this`chunks
      ensures Shortest(old(chunks), chunks, pinned, maxBytes)
      ensures Total(old(chunks)) == Total(chunks) + freed
      ensures ok ==> Total(chunks) <= maxBytes || chunks.Keys <= pinned
      ensures ReliableFrom(old(ops)) ==> ok
    {
      var i := 0;
      freed, ok := 0, true;
      while i < |stats| && size - freed > maxBytes
        invariant StopsAt(old(chunks), chunks, stats, i, pinned, maxBytes)
        invariant size == Total(chunks) + freed && ok && ops >= old(ops)
      {
        var gone;
        ok, gone := EvictNext(stats, i, pinned, maxBytes, old(chunks));
        if !ok { return; }
        freed := freed + gone;
        i := i + 1;
      }
      if i == |stats| { SweptAll(old(chunks), chunks, stats, pinned, maxBytes); }
    }

    method EvictNext(stats: seq<Stat>, i: nat, pinned: set<string>, ghost maxBytes: int, ghost before: ChunkDir)
      returns (ok: bool, gone: nat)
      requires StopsAt(before, chunks, stats, i, pinned, maxBytes) && i < |stats| && Total(chunks) > maxBytes
      modifies `ops, this`chunks
      ensures Total(old(chunks)) == Total(chunks) + gone
      ensures if ok then StopsAt(before, chunks, stats, i + 1, pinned, maxBytes) else chunks == old(chunks)
      ensures ops >= old(ops) && (ReliableFrom(old(ops)) ==> ok)
    {
      StopsNext(before, chunks, stats, i, pinned, maxBytes);
      if stats[i].name in pinned { return true, 0; }
      var removed := Io();
      if !removed { return false, 0; }
      chunks := chunks - {stats[i].name};
      return true, stats[i].size;
    }

    // The clock moves on from one file operation to the next.
    ghost predicate Ticks() { forall i: nat, j: nat :: i < j ==> now(i) < now(j) }

    // No chunk has been used later than now.
    ghost predicate Past()
      reads this`chunks, `ops
    {
      forall d :: d in chunks ==> chunks[d].mtime < now(ops)
    }

    // Recency is what restoring refreshes: a chunk of the snapshot restored last
    // is evicted only when no unpinned chunk of another snapshot is left.
    method RestoreThenEvict(digest: string, target: string, dst: Outputs, maxBytes: int)
      returns (ok: bool, out: Outputs, order: seq<string>, ghost pinned: set<string>)
      requires Reliable() && Ticks() && Past()
      modifies `ops, this`chunks
      ensures PinOrder(order, pins) && PinsProtect(order, pinned)
      ensures ok ==> GetManifest(digest).Ok?
      ensures ok ==> LastToGo(DigestsOf(GetManifest(digest).value), old(chunks), chunks, pinned)
    {
      ok, out := UseSnapshot(digest, target, dst);
      ghost var used, end := chunks, ops;
      order, pinned := EvictLeastRecent(maxBytes);
      if ok { UsedGoLast(GetManifest(digest).value, old(chunks), used, chunks, pinned, old(ops), end); }
    }

    method UseSnapshot(digest: string, target: string, dst: Outputs) returns (ok: bool, out: Outputs)
      requires Reliable()
      modifies `ops, this`chunks
      ensures ops >= old(ops) && (ok ==> GetManifest(digest).Ok?)
      ensures ok ==> OnlyUses(now, old(chunks), chunks, DigestsOf(GetManifest(digest).value), old(ops), ops)
      ensures ok ==> FilesUsed(now, chunks, GetManifest(digest).value.files, old(ops), ops)
    {
      ghost var left;
      ok, out, left := Materialize(digest, target, dst);
    }

    method EvictLeastRecent(maxBytes: int) returns (order: seq<string>, ghost pinned: set<string>)
      requires Reliable()
      modifies `ops, this`chunks
      ensures PinOrder(order, pins) && PinsProtect(order, pinned) && LeastRecent(old(chunks), chunks, pinned)
    {
      var freed, fit;
      freed, fit, order, pinned := EvictToFit(maxBytes);
      forall d ensures d in pinned <==> exists i :: 0 <= i < |order| && d in DigestsAt(manifests, order[i]) {
        ProtectedExactly(RefsOf(manifests, order), disk, old(ops) + 2, |order|, d);
        PinProtects(order, old(ops) + 2, d);
      }
    }

    lemma PinProtects(order: seq<string>, from: nat, d: string)
      requires Reliable()
      ensures (exists i :: i < |order| && ProtectedBy(RefsOf(manifests, order), disk, from, i, d)) <==>
        exists i :: 0 <= i < |order| && d in DigestsAt(manifests, order[i])
    {
      if i :| 0 <= i < |order| && d in DigestsAt(manifests, order[i]) {
        assert ProtectedBy(RefsOf(manifests, order), disk, from, i, d);
      }
    }

    // Protected are exactly the chunks of the pinned manifests.
    ghost predicate PinsProtect(order: seq<string>, pinned: set<string>)
      reads this`manifests
    {
      forall d :: d in pinned <==> exists i :: 0 <= i < |order| && d in DigestsAt(manifests, order[i])
    }

    lemma UsedGoLast(m: Manifest, before: ChunkDir, used: ChunkDir, after: ChunkDir, pinned: set<string>, from: nat,
                     end: nat)
      requires Ticks() && forall d :: d in before ==> before[d].mtime < now(from)
      requires OnlyUses(now, before, used, DigestsOf(m), from, end) && FilesUsed(now, used, m.files, from, end)
      requires LeastRecent(used, after, pinned)
      ensures LastToGo(DigestsOf(m), before, after, pinned)
    {
      forall e, d | e in DigestsOf(m) && e in before && e !in after && d in after && d !in pinned
        ensures d in DigestsOf(m)
      {
        var f, c :| f in m.files && c in f.chunks && c.digest == e;
        assert AllUsed(now, used, f.chunks, from, end);
        assert Used(now, used, e, from, end);
        var k :| from <= k < end && used[e].mtime == now(k);
        assert from < k ==> now(from) < now(k);
        assert used[e].mtime <= after[d].mtime && after[d] == used[d];
      }
    }

    // A pinned manifest that was complete still is after any eviction that read
    // it, which is file operation number from + i.
    lemma PinnedStaysComplete(before: ChunkDir, order: seq<string>, from: nat, i: nat)
      requires LeastRecent(before, chunks, Protected(RefsOf(manifests, order), disk, from, |order|))
      requires i < |order| && disk(from + i) && GetManifest(order[i]).Ok?
      requires forall d :: d in DigestsOf(GetManifest(order[i]).value) ==> ValidDigest(d) && d in before
      ensures Complete(GetManifest(order[i]).value)
    {
      var m := GetManifest(order[i]).value;
      forall d | d in DigestsOf(m) ensures d in chunks {
        ProtectedExactly(RefsOf(manifests, order), disk, from, |order|, d);
        assert ProtectedBy(RefsOf(manifests, order), disk, from, i, d);
      }
    }

    // Not so when that one read fails: here a pinned manifest is complete, the
    // pass succeeds, and the manifest has lost its chunk.
    static method UnreadPinLosesChunk(h: Hash, meta: Metadata)
      returns (store: Store, m: Manifest, ghost before: ChunkDir, ok: bool)
      ensures var p := h(Canonical(m)); store.pins == {p} && Stored(store.manifests, p) == Ok(m)
      ensures DigestsOf(m) != {} && DigestsOf(m) <= before.Keys
      ensures ok && store.chunks == map[]
    {
      var data: FileData := [1];
      m := Manifest([Entry(h, "f", data)], meta);
      OneEntry(h, data, meta);
      OneDigest(h, data, meta);
      var text := Canonical(m);
      store := OnePinned(h, h(text), text, data);
      before := map[h(data) := ChunkFile(data, 0)];
      ok := store.EvictUnread(h(text));
    }

    static method OnePinned(h: Hash, p: string, text: Bytes, data: FileData) returns (store: Store)
      ensures fresh(store) && store.hash == h && store.ops == 0 && forall n :: store.disk(n) == (n != 2)
      ensures store.pins == {p} && store.manifests == map[p := text]
      ensures store.chunks == map[h(data) := ChunkFile(data, 0)]
    {
      store := new Store(h, n => n != 2, n => n);
      store.manifests, store.pins, store.chunks := map[p := text], {p}, map[h(data) := ChunkFile(data, 0)];
    }

    // With one pin, whose read fails, the pass protects nothing and may empty the store.
    method EvictUnread(p: string) returns (ok: bool)
      requires pins == {p} && ops == 0 && disk(0) && disk(1) && !disk(2) && ReliableFrom(3)
      requires forall d :: d in chunks ==> |chunks[d].data| > 0
      modifies `ops, this`chunks
      ensures ok && chunks == map[]
    {
      var freed;
      ghost var order, refs, pinned;
      freed, ok, order, refs, pinned := EvictAny(0);
      OnlyPin(order, pins, p);
      NoneProtected(refs, disk);
      Emptied(old(chunks), chunks, pinned, freed);
    }

    // The pass, whatever the manifests of the pins refer to.
    method EvictAny(maxBytes: int)
      returns (freed: nat, ok: bool, ghost order: seq<string>, ghost refs: seq<set<string>>, ghost pinned: set<string>)
      modifies `ops, this`chunks
      ensures PinOrder(order, pins) && |refs| == |order| && pinned == Protected(refs, disk, old(ops) + 2, |order|)
      ensures Evicts(old(chunks), chunks, pinned, maxBytes, freed, ok)
      ensures disk(old(ops)) && disk(old(ops) + 1) && ReliableFrom(old(ops) + 2 + |order|) ==> ok
    {
      freed, ok, order, pinned := EvictToFit(maxBytes);
      refs := RefsOf(manifests, order);
    }

    static lemma NoneProtected(refs: seq<set<string>>, disk: nat -> bool)
      requires |refs| == 1 && !disk(2)
      ensures Protected(refs, disk, 2, 1) == {}
    {
      assert Protected(refs, disk, 2, 0) == {};
    }

    static lemma Emptied(before: ChunkDir, after: ChunkDir, pinned: set<string>, freed: int)
      requires Evicts(before, after, pinned, 0, freed, true) && pinned == {}
      requires forall d :: d in before ==> |before[d].data| > 0
      ensures after == map[]
    {
      NothingFits(before, after);
    }

    static lemma NothingFits(before: ChunkDir, after: ChunkDir)
      requires forall d :: d in before ==> |before[d].data| > 0
      requires forall d :: d in after ==> d in before && after[d] == before[d]
      requires Total(after) <= 0
      ensures after == map[]
    {
      if d :| d in after { TotalWithout(after, d); }
    }

    static lemma OnlyPin(order: seq<string>, pins: set<string>, p: string)
      requires PinOrder(order, pins) && pins == {p}
      ensures |order| == 1
    {
      DistinctSize(order, pins);
    }

    static lemma OneEntry(h: Hash, data: FileData, meta: Metadata)
      requires data == [1]
      ensures var m := Manifest([Entry(h, "f", data)], meta); DecodeManifest(Canonical(m)) == Ok(m)
    {
      var m := Manifest([Entry(h, "f", data)], meta);
      var files: map<string, FileData> := map["f" := data];
      EntriesDescribe(h, files, meta, ["f"], m.files);
      DecodeSorted(m);
    }

    static lemma DecodeSorted(m: Manifest)
      requires Sorted(NameLe, m.files)
      ensures DecodeManifest(Canonical(m)) == Ok(m)
    {
      DecodeCanonical(m);
      SortIdempotent(NameLe, m.files);
    }

    static lemma OneDigest(h: Hash, data: FileData, meta: Metadata)
      requires data == [1]
      ensures DigestsOf(Manifest([Entry(h, "f", data)], meta)) == {h(data)}
    {
      var m := Manifest([Entry(h, "f", data)], meta);
      assert m.files[0].chunks == [ChunkRef(h(data), 1)];
    }
  }
}
