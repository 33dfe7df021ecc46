/**
 Snapshot manifests and their canonical encoding: the printer of
 internal/cas/manifest.go, the decoder of internal/cas/store.go, and the proof
 that they undo each other.
 */
module Manifests {
  import opened Wrappers
  import opened Utf8
  import opened Json
  import opened Sorting

  type Int64 = n: int | -0x8000_0000_0000_0000 <= n < 0x8000_0000_0000_0000

  datatype ChunkRef = ChunkRef(digest: string, size: Int64)

  datatype FileEntry = FileEntry(name: string, size: Int64, chunks: seq<ChunkRef>)

  datatype Metadata = Metadata(
    snapshotFormatVersion: Int64,
    vmmVersion: string,
    cpuModel: string,
    kernelVersion: string,
    configHash: string,
    createdUnix: Int64)

  datatype Manifest = Manifest(files: seq<FileEntry>, meta: Metadata)

  // ---------------------------------------------------------------- printer

  function ChunkJson(c: ChunkRef): Value {
    Obj([Member("digest", Str(c.digest)), Member("size", Number(IntText(c.size)))])
  }

  function ChunksJson(cs: seq<ChunkRef>): seq<Value> {
    seq(|cs|, i requires 0 <= i < |cs| => ChunkJson(cs[i]))
  }

  function FileJson(f: FileEntry): Value {
    Obj([Member("chunks", Arr(ChunksJson(f.chunks))),
         Member("name", Str(f.name)),
         Member("size", Number(IntText(f.size)))])
  }

  function FilesJson(fs: seq<FileEntry>): seq<Value> {
    seq(|fs|, i requires 0 <= i < |fs| => FileJson(fs[i]))
  }

  function ManifestMembers(m: Manifest): seq<Member> {
    [Member("configHash", Str(m.meta.configHash)),
     Member("cpuModel", Str(m.meta.cpuModel)),
     Member("createdUnix", Number(IntText(m.meta.createdUnix))),
     Member("files", Arr(FilesJson(m.files))),
     Member("kernelVersion", Str(m.meta.kernelVersion)),
     Member("snapshotFormatVersion", Number(IntText(m.meta.snapshotFormatVersion))),
     Member("vmmVersion", Str(m.meta.vmmVersion))]
  }

  predicate NameLe(a: FileEntry, b: FileEntry) {
    !Less(b.name, a.name)
  }

  function SortFiles(m: Manifest): Manifest {
    m.(files := Sort(NameLe, m.files))
  }

  function CanonicalText(m: Manifest): string {
    Print(Obj(ManifestMembers(SortFiles(m))))
  }

  function Canonical(m: Manifest): Bytes {
    Encode(CanonicalText(m))
  }

  // ---------------------------------------------------------------- decoder

  // The value stored under a key; a later duplicate wins, an absent key reads
  // as null.  Decoding null leaves a field at its zero value.
  function Lookup(ms: seq<Member>, key: string): Value {
    if ms == [] then Null
    else if ms[|ms| - 1].key == key then ms[|ms| - 1].value
    else Lookup(ms[..|ms| - 1], key)
  }

  function DecodeString(v: Value): Result<string> {
    match v
    case Str(s) => Ok(s)
    case Null => Ok("")
    case _ => Err
  }

  function DecodeInt(v: Value): Result<Int64> {
    match v
    case Number(token) =>
      var n := ParseInt(token);
      if n.Got? && -0x8000_0000_0000_0000 <= n.value < 0x8000_0000_0000_0000 then Ok(n.value) else Err
    case Null => Ok(0)
    case _ => Err
  }

  function DecodeAll<T>(decode: Value -> Result<T>, items: seq<Value>): Result<seq<T>> {
    if items == [] then Ok([])
    else
      var head, tail := decode(items[0]), DecodeAll(decode, items[1..]);
      if head.Err? || tail.Err? then Err else Ok([head.value] + tail.value)
  }

  function DecodeList<T>(decode: Value -> Result<T>, v: Value): Result<seq<T>> {
    match v
    case Arr(items) => DecodeAll(decode, items)
    case Null => Ok([])
    case _ => Err
  }

  function Members(v: Value): Result<seq<Member>> {
    match v
    case Obj(ms) => Ok(ms)
    case Null => Ok([])
    case _ => Err
  }

  function DecodeChunk(v: Value): Result<ChunkRef> {
    var ms := Members(v);
    if ms.Err? then Err
    else
      var digest, size := DecodeString(Lookup(ms.value, "digest")), DecodeInt(Lookup(ms.value, "size"));
      if digest.Err? || size.Err? then Err else Ok(ChunkRef(digest.value, size.value))
  }

  function DecodeFile(v: Value): Result<FileEntry> {
    var ms := Members(v);
    if ms.Err? then Err
    else
      var name, size := DecodeString(Lookup(ms.value, "name")), DecodeInt(Lookup(ms.value, "size"));
      var chunks := DecodeList(DecodeChunk, Lookup(ms.value, "chunks"));
      if name.Err? || size.Err? || chunks.Err? then Err
      else Ok(FileEntry(name.value, size.value, chunks.value))
  }

  function DecodeMetadata(ms: seq<Member>): Result<Metadata> {
    var format, created := DecodeInt(Lookup(ms, "snapshotFormatVersion")), DecodeInt(Lookup(ms, "createdUnix"));
    var vmm, cpu := DecodeString(Lookup(ms, "vmmVersion")), DecodeString(Lookup(ms, "cpuModel"));
    var kernel, config := DecodeString(Lookup(ms, "kernelVersion")), DecodeString(Lookup(ms, "configHash"));
    if format.Err? || created.Err? || vmm.Err? || cpu.Err? || kernel.Err? || config.Err? then Err
    else Ok(Metadata(format.value, vmm.value, cpu.value, kernel.value, config.value, created.value))
  }

  function DecodeManifest(data: Bytes): Result<Manifest> {
    if data == [] then Err
    else
      var v := ParseText(Decode(data));
      if v.Fail? || Members(v.value).Err? then Err
      else
        var ms := Members(v.value).value;
        var meta, files := DecodeMetadata(ms), DecodeList(DecodeFile, Lookup(ms, "files"));
        if meta.Err? || files.Err? then Err else Ok(Manifest(files.value, meta.value))
  }

  // ------------------------------------------------------------- round trip

  lemma {:induction false} LookupAt(ms: seq<Member>, i: nat)
    requires i < |ms| && forall j :: i < j < |ms| ==> ms[j].key != ms[i].key
    ensures Lookup(ms, ms[i].key) == ms[i].value
  {
    if i < |ms| - 1 {
      LookupAt(ms[..|ms| - 1], i);
    }
  }

  lemma DecodeIntText(n: Int64)
    ensures DecodeInt(Number(IntText(n))) == Ok(n)
  {
    ParseIntText(n);
  }

  lemma {:induction false} DecodeAllMapped<T(!new)>(decode: Value -> Result<T>, items: seq<Value>, ts: seq<T>)
    requires |items| == |ts| && forall i :: 0 <= i < |ts| ==> decode(items[i]) == Ok(ts[i])
    ensures DecodeAll(decode, items) == Ok(ts)
  {
    if ts != [] {
      DecodeAllMapped(decode, items[1..], ts[1..]);
      assert ts == [ts[0]] + ts[1..];
    }
  }

  lemma DecodeChunkJson(c: ChunkRef)
    ensures DecodeChunk(ChunkJson(c)) == Ok(c)
  {
    var ms := ChunkJson(c).members;
    LookupAt(ms, 0);
    LookupAt(ms, 1);
    DecodeIntText(c.size);
  }

  lemma DecodeChunksJson(cs: seq<ChunkRef>)
    ensures DecodeAll(DecodeChunk, ChunksJson(cs)) == Ok(cs)
  {
    forall i | 0 <= i < |cs| ensures DecodeChunk(ChunksJson(cs)[i]) == Ok(cs[i]) {
      DecodeChunkJson(cs[i]);
    }
    DecodeAllMapped(DecodeChunk, ChunksJson(cs), cs);
  }

  lemma DecodeFileJson(f: FileEntry)
    ensures DecodeFile(FileJson(f)) == Ok(f)
  {
    LookupFile(f);
    DecodeIntText(f.size);
    DecodeChunksJson(f.chunks);
  }

  lemma LookupFile(f: FileEntry)
    ensures var ms := FileJson(f).members;
      && Lookup(ms, "chunks") == Arr(ChunksJson(f.chunks))
      && Lookup(ms, "name") == Str(f.name)
      && Lookup(ms, "size") == Number(IntText(f.size))
  {
    var ms := FileJson(f).members;
    LookupAt(ms, 0);
    LookupAt(ms, 1);
    LookupAt(ms, 2);
  }

  lemma LookupManifest(m: Manifest)
    ensures var ms := ManifestMembers(m);
      && Lookup(ms, "configHash") == ms[0].value
      && Lookup(ms, "cpuModel") == ms[1].value
      && Lookup(ms, "createdUnix") == ms[2].value
      && Lookup(ms, "files") == ms[3].value
      && Lookup(ms, "kernelVersion") == ms[4].value
      && Lookup(ms, "snapshotFormatVersion") == ms[5].value
      && Lookup(ms, "vmmVersion") == ms[6].value
  {
    var ms := ManifestMembers(m);
    assert ms[0].key[0] == 'c' && ms[6].key[0] == 'v';
    LookupAt(ms, 0);
    LookupAt(ms, 1);
    LookupAt(ms, 2);
    LookupAt(ms, 3);
    LookupAt(ms, 4);
    LookupAt(ms, 5);
    LookupAt(ms, 6);
  }

  lemma PrintableManifest(m: Manifest)
    ensures Printable(Obj(ManifestMembers(m)))
  {
    forall i | 0 <= i < |m.files| ensures Printable(FilesJson(m.files)[i]) {
      var f := m.files[i];
      forall j | 0 <= j < |f.chunks| ensures Printable(ChunksJson(f.chunks)[j]) {
        assert Integral(IntText(f.chunks[j].size));
      }
      assert Integral(IntText(f.size));
    }
    assert Integral(IntText(m.meta.createdUnix)) && Integral(IntText(m.meta.snapshotFormatVersion));
  }

  lemma DecodeFilesJson(fs: seq<FileEntry>)
    ensures DecodeAll(DecodeFile, FilesJson(fs)) == Ok(fs)
  {
    forall i | 0 <= i < |fs| ensures DecodeFile(FilesJson(fs)[i]) == Ok(fs[i]) {
      DecodeFileJson(fs[i]);
    }
    DecodeAllMapped(DecodeFile, FilesJson(fs), fs);
  }

  lemma DecodeMetadataJson(m: Manifest)
    ensures DecodeMetadata(ManifestMembers(m)) == Ok(m.meta)
  {
    LookupManifest(m);
    DecodeIntText(m.meta.createdUnix);
    DecodeIntText(m.meta.snapshotFormatVersion);
  }

  lemma DecodePrinted(m: Manifest)
    ensures DecodeManifest(Encode(Print(Obj(ManifestMembers(m))))) == Ok(m)
  {
    var ms := ManifestMembers(m);
    var text := Print(Obj(ms));
    DecodeEncode(text);
    assert text[0] == '{';
    assert Encode(text) != [];
    PrintableManifest(m);
    ParseTextPrint(Obj(ms));
    LookupManifest(m);
    DecodeMetadataJson(m);
    DecodeFilesJson(m.files);
  }

  // Decoding the canonical bytes gives the manifest with its files sorted by name.
  lemma DecodeCanonical(m: Manifest)
    ensures DecodeManifest(Canonical(m)) == Ok(SortFiles(m))
  {
    DecodePrinted(SortFiles(m));
  }

  lemma NameLePreorder()
    ensures TotalPreorder(NameLe)
  {
    forall x: FileEntry, y: FileEntry ensures NameLe(x, y) || NameLe(y, x) {
      LessIsStrictTotal(x.name, y.name);
    }
    forall x: FileEntry, y: FileEntry, z: FileEntry | NameLe(x, y) && NameLe(y, z) ensures NameLe(x, z) {
      LessIsStrictTotal(x.name, y.name);
      LessIsStrictTotal(y.name, z.name);
      LessIsStrictTotal(x.name, z.name);
      if Less(z.name, x.name) && x.name != y.name && y.name != z.name {
        BytesLessTransitive(Encode(x.name), Encode(y.name), Encode(z.name));
      }
    }
  }

  // Re-encoding what was decoded gives the same bytes.
  lemma RecodeCanonical(m: Manifest)
    ensures Canonical(SortFiles(m)) == Canonical(m)
    ensures DecodeManifest(Canonical(m)).Ok? && Canonical(DecodeManifest(Canonical(m)).value) == Canonical(m)
  {
    DecodeCanonical(m);
    NameLePreorder();
    SortSorts(NameLe, m.files);
    SortIdempotent(NameLe, Sort(NameLe, m.files));
  }

  ghost predicate UniqueNames(fs: seq<FileEntry>) {
    forall i, j :: 0 <= i < |fs| && 0 <= j < |fs| && fs[i].name == fs[j].name ==> i == j
  }

  // Two manifests have the same canonical bytes exactly when they agree up to
  // the order of their files.
  lemma CanonicalIdentifies(a: Manifest, b: Manifest)
    requires UniqueNames(a.files)
    ensures Canonical(a) == Canonical(b) <==> a.meta == b.meta && multiset(a.files) == multiset(b.files)
  {
    NameLePreorder();
    var s, t := Sort(NameLe, a.files), Sort(NameLe, b.files);
    SortSorts(NameLe, a.files);
    SortSorts(NameLe, b.files);
    if Canonical(a) == Canonical(b) {
      DecodeCanonical(a);
      DecodeCanonical(b);
      assert SortFiles(a) == SortFiles(b);
    }
    if a.meta == b.meta && multiset(a.files) == multiset(b.files) {
      SortMembers(NameLe, a.files);
      forall x, y | x in s && y in s && NameLe(x, y) && NameLe(y, x) ensures x == y {
        LessIsStrictTotal(x.name, y.name);
        var i :| 0 <= i < |a.files| && a.files[i] == x;
        var j :| 0 <= j < |a.files| && a.files[j] == y;
      }
      SortedUnique(NameLe, s, t);
    }
  }

  // The build time is part of the identity: changing it changes the bytes.
  lemma CreatedUnixIsIdentity(m: Manifest, t: Int64)
    requires t != m.meta.createdUnix
    ensures Canonical(m.(meta := m.meta.(createdUnix := t))) != Canonical(m)
  {
    var m' := m.(meta := m.meta.(createdUnix := t));
    DecodeCanonical(m);
    DecodeCanonical(m');
  }

  // ------------------------------------------------ the printer, as written

  lemma {:induction false} PrintItemsSnoc(items: seq<Value>, v: Value)
    ensures PrintItems(items + [v]) == PrintItems(items) + (if items == [] then "" else ",") + Print(v)
  {
    if items == [] {
      assert items + [v] == [v];
    } else {
      assert (items + [v])[1..] == items[1..] + [v];
      PrintItemsSnoc(items[1..], v);
    }
  }

  lemma {:induction false} PrintMembersSnoc(ms: seq<Member>, m: Member)
    ensures PrintMembers(ms + [m]) == PrintMembers(ms) + (if ms == [] then "" else ",") + PrintMember(m)
  {
    if ms == [] {
      assert ms + [m] == [m];
    } else {
      assert (ms + [m])[1..] == ms[1..] + [m];
      PrintMembersSnoc(ms[1..], m);
    }
  }

  predicate Letters(s: string) {
    forall i :: 0 <= i < |s| ==> 'a' <= s[i] <= 'z' || 'A' <= s[i] <= 'Z'
  }

  lemma LetterPlain(c: char)
    requires 'a' <= c <= 'z' || 'A' <= c <= 'Z'
    ensures EscapeChar(c) == [c]
  {
  }

  lemma {:induction false} LettersPlain(s: string)
    requires Letters(s)
    ensures EscapeAll(s) == s
  {
    if s != "" {
      LetterPlain(s[0]);
      LettersPlain(s[1..]);
      assert s == [s[0]] + s[1..];
    }
  }

  function Label(key: string): string { "\"" + key + "\":" }

  // The text of an object with its first k members written.
  function Partial(ms: seq<Member>, k: nat): string
    requires k <= |ms|
  {
    "{" + PrintMembers(ms[..k])
  }

  // Writing a comma, a label and a value appends one member.
  lemma AppendMember(ms: seq<Member>, k: nat, text: string)
    requires k < |ms| && Letters(ms[k].key)
    requires text == Partial(ms, k) + if k == 0 then "" else ","
    ensures text + Label(ms[k].key) + Print(ms[k].value) == Partial(ms, k + 1)
  {
    LettersPlain(ms[k].key);
    PrintMembersSnoc(ms[..k], ms[k]);
    assert ms[..k + 1] == ms[..k] + [ms[k]];
    assert Label(ms[k].key) == Quote(ms[k].key) + ":";
    Regroup(PrintMembers(ms[..k]), if k == 0 then "" else ",", Quote(ms[k].key), Print(ms[k].value));
  }

  lemma Regroup(printed: string, comma: string, key: string, value: string)
    ensures "{" + printed + comma + (key + ":") + value == "{" + (printed + comma + (key + ":" + value))
  {
  }

  lemma ClosesObject(ms: seq<Member>)
    ensures Partial(ms, |ms|) + "}" == Print(Obj(ms))
  {
    assert ms[..|ms|] == ms;
  }

  predicate IsKey(key: string) {
    || key == "digest" || key == "size" || key == "chunks" || key == "name" || key == "files"
    || key == "configHash" || key == "cpuModel" || key == "createdUnix"
    || key == "kernelVersion" || key == "snapshotFormatVersion" || key == "vmmVersion"
  }

  lemma KeysAreLetters(key: string)
    requires IsKey(key)
    ensures Letters(key)
  {
  }

  // Write one labelled value, with the comma that separates it from the last.
  method WriteField(text: string, first: bool, key: string, value: string, ghost v: Value, ghost ms: seq<Member>,
                    ghost k: nat)
    returns (out: string)
    requires k < |ms| && text == Partial(ms, k) && first == (k == 0)
    requires Member(key, v) == ms[k] && IsKey(key) && value == Print(v)
    ensures out == Partial(ms, k + 1)
  {
    KeysAreLetters(key);
    out := text + if first then "" else ",";
    AppendMember(ms, k, out);
    out := out + Label(key);
    out := out + value;
  }

  lemma ChunkLabels()
    ensures Label("digest") == "\"digest\":" && Label("size") == "\"size\":"
  {
  }

  lemma ChunkIsWritten(c: ChunkRef)
    ensures Print(ChunkJson(c)) ==
      "{" + "\"digest\":" + Quote(c.digest) + "," + "\"size\":" + IntText(c.size) + "}"
  {
    var ms := ChunkJson(c).members;
    KeysAreLetters(ms[0].key);
    KeysAreLetters(ms[1].key);
    ChunkLabels();
    AppendMember(ms, 0, "{");
    AppendMember(ms, 1, Partial(ms, 1) + ",");
    ClosesObject(ms);
  }

  method WriteChunk(c: ChunkRef) returns (text: string)
    ensures text == Print(ChunkJson(c))
    ensures text == "{" + "\"digest\":" + Quote(c.digest) + "," + "\"size\":" + IntText(c.size) + "}"
  {
    ChunkIsWritten(c);
    ghost var ms := ChunkJson(c).members;
    text := "{";
    assert text == Partial(ms, 0);
    text := WriteField(text, true, "digest", Quote(c.digest), ms[0].value, ms, 0);
    text := WriteField(text, false, "size", IntText(c.size), ms[1].value, ms, 1);
    text := text + "}";
    ClosesObject(ms);
  }

  method WriteChunks(chunks: seq<ChunkRef>) returns (text: string)
    ensures text == PrintItems(ChunksJson(chunks))
  {
    text := "";
    for j := 0 to |chunks|
      invariant text == PrintItems(ChunksJson(chunks[..j]))
    {
      if j > 0 { text := text + ","; }
      var chunk := WriteChunk(chunks[j]);
      text := text + chunk;
      assert ChunksJson(chunks[..j + 1]) == ChunksJson(chunks[..j]) + [ChunkJson(chunks[j])];
      PrintItemsSnoc(ChunksJson(chunks[..j]), ChunkJson(chunks[j]));
    }
    assert chunks[..|chunks|] == chunks;
  }

  method WriteFile(f: FileEntry) returns (text: string)
    ensures text == Print(FileJson(f))
  {
    ghost var ms := FileJson(f).members;
    text := "{";
    assert text == Partial(ms, 0);
    var chunks := WriteChunks(f.chunks);
    text := WriteField(text, true, "chunks", "[" + chunks + "]", ms[0].value, ms, 0);
    text := WriteField(text, false, "name", Quote(f.name), ms[1].value, ms, 1);
    text := WriteField(text, false, "size", IntText(f.size), ms[2].value, ms, 2);
    text := text + "}";
    ClosesObject(ms);
  }

  method WriteFiles(files: seq<FileEntry>) returns (text: string)
    ensures text == PrintItems(FilesJson(files))
  {
    text := "";
    for i := 0 to |files|
      invariant text == PrintItems(FilesJson(files[..i]))
    {
      if i > 0 { text := text + ","; }
      var file := WriteFile(files[i]);
      text := text + file;
      assert FilesJson(files[..i + 1]) == FilesJson(files[..i]) + [FileJson(files[i])];
      PrintItemsSnoc(FilesJson(files[..i]), FileJson(files[i]));
    }
    assert files[..|files|] == files;
  }

  method WriteOrigin(meta: Metadata, ghost ms: seq<Member>) returns (text: string)
    requires |ms| == 7
    requires ms[0] == Member("configHash", Str(meta.configHash))
    requires ms[1] == Member("cpuModel", Str(meta.cpuModel))
    requires ms[2] == Member("createdUnix", Number(IntText(meta.createdUnix)))
    ensures text == Partial(ms, 3)
  {
    text := "{";
    assert text == Partial(ms, 0);
    text := WriteField(text, true, "configHash", Quote(meta.configHash), ms[0].value, ms, 0);
    text := WriteField(text, false, "cpuModel", Quote(meta.cpuModel), ms[1].value, ms, 1);
    text := WriteField(text, false, "createdUnix", IntText(meta.createdUnix), ms[2].value, ms, 2);
  }

  method WriteEnvironment(meta: Metadata, front: string, ghost ms: seq<Member>) returns (text: string)
    requires |ms| == 7 && front == Partial(ms, 4)
    requires ms[4] == Member("kernelVersion", Str(meta.kernelVersion))
    requires ms[5] == Member("snapshotFormatVersion", Number(IntText(meta.snapshotFormatVersion)))
    requires ms[6] == Member("vmmVersion", Str(meta.vmmVersion))
    ensures text == Print(Obj(ms))
  {
    text := WriteField(front, false, "kernelVersion", Quote(meta.kernelVersion), ms[4].value, ms, 4);
    text := WriteField(text, false, "snapshotFormatVersion", IntText(meta.snapshotFormatVersion), ms[5].value, ms, 5);
    text := WriteField(text, false, "vmmVersion", Quote(meta.vmmVersion), ms[6].value, ms, 6);
    text := text + "}";
    ClosesObject(ms);
  }

  // Manifest.Canonical: fixed field order, files sorted by name.
  method WriteCanonical(m: Manifest) returns (bytes: Bytes)
    ensures bytes == Canonical(m)
  {
    var files := Sort(NameLe, m.files);
    ghost var ms := ManifestMembers(SortFiles(m));
    var text := WriteOrigin(m.meta, ms);
    var printed := WriteFiles(files);
    text := WriteField(text, false, "files", "[" + printed + "]", ms[3].value, ms, 3);
    text := WriteEnvironment(m.meta, text, ms);
    bytes := Encode(text);
  }
}
