/**
 What the canonical text of a manifest looks like, said of its characters: the
 order of the keys in every object, the template it fills in, one document
 written out, and the characters that never occur in it
 (internal/cas/manifest.go).
 */
module ManifestText {
  import opened Wrappers
  import opened Utf8
  import opened Json
  import opened Manifests
  import opened Sorting

  // ---------------------------------------------------------------- escapes

  // The escape of every character, as encoding/json writes it.
  lemma EscapeExactly(c: char)
    ensures c == '\"' ==> EscapeChar(c) == "\\\""
    ensures c == '\\' ==> EscapeChar(c) == "\\\\"
    ensures c == '\U{8}' ==> EscapeChar(c) == "\\b"
    ensures c == '\U{c}' ==> EscapeChar(c) == "\\f"
    ensures c == '\n' ==> EscapeChar(c) == "\\n"
    ensures c == '\r' ==> EscapeChar(c) == "\\r"
    ensures c == '\t' ==> EscapeChar(c) == "\\t"
    ensures c == '<' ==> EscapeChar(c) == "\\u003c"
    ensures c == '>' ==> EscapeChar(c) == "\\u003e"
    ensures c == '&' ==> EscapeChar(c) == "\\u0026"
    ensures c == '\U{2028}' ==> EscapeChar(c) == "\\u2028"
    ensures c == '\U{2029}' ==> EscapeChar(c) == "\\u2029"
    ensures c < ' ' && c !in ['\U{8}', '\U{c}', '\n', '\r', '\t'] ==>
      EscapeChar(c) == ['\\', 'u', '0', '0', if c < '\U{10}' then '0' else '1', HexDigit(c as int % 16)]
    ensures c >= ' ' && c !in ['\"', '\\', '<', '>', '&', '\U{2028}', '\U{2029}'] ==> EscapeChar(c) == [c]
  {
  }

  lemma HexDigitsSpelled()
    ensures seq(16, i requires 0 <= i < 16 => HexDigit(i)) == "0123456789abcdef"
  {
  }

  // ------------------------------------------------- characters that never occur

  predicate Safe(s: string) {
    forall i :: 0 <= i < |s| ==>
      s[i] >= ' ' && s[i] != '<' && s[i] != '>' && s[i] != '&' && s[i] != '\U{2028}' && s[i] != '\U{2029}'
  }

  lemma SafeConcat(s: string, t: string)
    requires Safe(s) && Safe(t)
    ensures Safe(s + t)
  {
  }

  lemma EscapeSafe(c: char)
    ensures Safe(EscapeChar(c))
  {
  }

  lemma {:induction false} EscapeAllSafe(s: string)
    ensures Safe(EscapeAll(s))
  {
    if s != "" {
      EscapeSafe(s[0]);
      EscapeAllSafe(s[1..]);
    }
  }

  lemma QuoteSafe(s: string)
    ensures Safe(Quote(s))
  {
    EscapeAllSafe(s);
  }

  lemma IntSafe(n: int)
    ensures Safe(IntText(n))
  {
    var m := if n < 0 then -n else n;
    NatTextShape(m);
    var t := NatText(m);
    forall i | 0 <= i < |t| ensures IsDigit(t[i]) {
      assert t[i] in t;
    }
  }

  lemma {:induction false} PrintSafe(v: Value)
    requires Printable(v)
    ensures Safe(Print(v))
    decreases v, 1
  {
    match v
    case Number(token) =>
      var n :| token == IntText(n);
      IntSafe(n);
    case Str(s) => QuoteSafe(s);
    case Arr(items) => PrintItemsSafe(items);
    case Obj(members) => PrintMembersSafe(members);
    case _ =>
  }

  lemma {:induction false} PrintItemsSafe(items: seq<Value>)
    requires forall i :: 0 <= i < |items| ==> Printable(items[i])
    ensures Safe(PrintItems(items))
    decreases items, 0
  {
    if items != [] {
      PrintSafe(items[0]);
      PrintItemsSafe(items[1..]);
    }
  }

  lemma {:induction false} PrintMembersSafe(members: seq<Member>)
    requires forall i :: 0 <= i < |members| ==> Printable(members[i].value)
    ensures Safe(PrintMembers(members))
    decreases members, 0
  {
    if members != [] {
      var m := members[0];
      QuoteSafe(m.key);
      PrintSafe(m.value);
      SafeConcat(Quote(m.key), ":");
      SafeConcat(Quote(m.key) + ":", Print(m.value));
      PrintMembersSafe(members[1..]);
    }
  }

  // No control character, and none of the characters an HTML page or a
  // JavaScript source would take up, stands raw in a canonical document.
  lemma CanonicalSafe(m: Manifest)
    ensures forall c :: c in CanonicalText(m) ==>
      c >= ' ' && c != '<' && c != '>' && c != '&' && c != '\U{2028}' && c != '\U{2029}'
  {
    PrintableManifest(SortFiles(m));
    PrintSafe(Obj(ManifestMembers(SortFiles(m))));
  }

  // -------------------------------------------------------------- key order

  // In every object of the document the keys ascend in byte order.
  predicate KeysAscend(v: Value) {
    match v
    case Arr(items) => forall i :: 0 <= i < |items| ==> KeysAscend(items[i])
    case Obj(members) =>
      && (forall i, j :: 0 <= i < j < |members| ==> BytesLess(Encode(members[i].key), Encode(members[j].key)))
      && (forall i :: 0 <= i < |members| ==> KeysAscend(members[i].value))
    case _ => true
  }

  // Two strings compare as their first differing characters do.
  lemma {:induction false} Differs(a: string, b: string, k: nat)
    requires k < |a| && k < |b| && a[..k] == b[..k] && a[k] < b[k]
    ensures BytesLess(Encode(a), Encode(b))
    decreases k
  {
    if k > 0 {
      assert a[0] == a[..k][0] == b[..k][0] == b[0];
      assert a[1..][..k - 1] == a[..k][1..] == b[1..][..k - 1];
      Differs(a[1..], b[1..], k - 1);
    }
    LessIsScalarOrder(a, b);
    LessIsScalarOrder(a[1..], b[1..]);
  }

  lemma ChunkKeysAscend(c: ChunkRef)
    ensures KeysAscend(ChunkJson(c))
  {
    Differs("digest", "size", 0);
  }

  lemma ChunksKeysAscend(cs: seq<ChunkRef>)
    ensures KeysAscend(Arr(ChunksJson(cs)))
  {
    forall i | 0 <= i < |cs| ensures KeysAscend(ChunksJson(cs)[i]) {
      ChunkKeysAscend(cs[i]);
    }
  }

  lemma FileMembersAscend(ms: seq<Member>)
    requires |ms| == 3 && ms[0].key == "chunks" && ms[1].key == "name" && ms[2].key == "size"
    requires forall i :: 0 <= i < 3 ==> KeysAscend(ms[i].value)
    ensures KeysAscend(Obj(ms))
  {
    Differs(ms[0].key, ms[1].key, 0);
    Differs(ms[0].key, ms[2].key, 0);
    Differs(ms[1].key, ms[2].key, 0);
  }

  lemma FileKeysAscend(f: FileEntry)
    ensures KeysAscend(FileJson(f))
  {
    ChunksKeysAscend(f.chunks);
    FileMembersAscend(FileJson(f).members);
  }

  lemma TopKeysAscend(ms: seq<Member>, i: nat, j: nat)
    requires |ms| == 7 && i < j < 7
    requires ms[0].key == "configHash" && ms[1].key == "cpuModel" && ms[2].key == "createdUnix"
    requires ms[3].key == "files" && ms[4].key == "kernelVersion" && ms[5].key == "snapshotFormatVersion"
    requires ms[6].key == "vmmVersion"
    ensures BytesLess(Encode(ms[i].key), Encode(ms[j].key))
  {
    Differs(ms[i].key, ms[j].key, if j <= 2 then 1 else 0);
  }

  lemma FilesKeysAscend(fs: seq<FileEntry>)
    ensures KeysAscend(Arr(FilesJson(fs)))
  {
    forall i | 0 <= i < |fs| ensures KeysAscend(FilesJson(fs)[i]) {
      FileKeysAscend(fs[i]);
    }
  }

  lemma MembersAscend(ms: seq<Member>)
    requires |ms| == 7
    requires ms[0].key == "configHash" && ms[1].key == "cpuModel" && ms[2].key == "createdUnix"
    requires ms[3].key == "files" && ms[4].key == "kernelVersion" && ms[5].key == "snapshotFormatVersion"
    requires ms[6].key == "vmmVersion"
    requires forall i :: 0 <= i < 7 ==> KeysAscend(ms[i].value)
    ensures KeysAscend(Obj(ms))
  {
    forall i: nat, j: nat | i < j < 7 ensures BytesLess(Encode(ms[i].key), Encode(ms[j].key)) {
      TopKeysAscend(ms, i, j);
    }
  }

  // Every object of a canonical document has its keys in ascending byte order.
  lemma CanonicalKeysAscend(m: Manifest)
    ensures ParseText(CanonicalText(m)).Got? && KeysAscend(ParseText(CanonicalText(m)).value)
  {
    var sorted := SortFiles(m);
    PrintableManifest(sorted);
    ParseTextPrint(Obj(ManifestMembers(sorted)));
    FilesKeysAscend(sorted.files);
    MembersAscend(ManifestMembers(sorted));
  }

  // -------------------------------------------------------------- the template

  function Commas(texts: seq<string>): string {
    if texts == [] then ""
    else if |texts| == 1 then texts[0]
    else texts[0] + "," + Commas(texts[1..])
  }

  function ChunkTexts(cs: seq<ChunkRef>): seq<string> {
    seq(|cs|, i requires 0 <= i < |cs| =>
      "{" + "\"digest\":" + Quote(cs[i].digest) + "," + "\"size\":" + IntText(cs[i].size) + "}")
  }

  function FileTexts(fs: seq<FileEntry>): seq<string> {
    seq(|fs|, i requires 0 <= i < |fs| =>
      "{" + "\"chunks\":" + ("[" + Commas(ChunkTexts(fs[i].chunks)) + "]")
      + "," + "\"name\":" + Quote(fs[i].name) + "," + "\"size\":" + IntText(fs[i].size) + "}")
  }

  lemma {:induction false} PrintedWithCommas(items: seq<Value>, texts: seq<string>)
    requires |items| == |texts| && forall i :: 0 <= i < |items| ==> Print(items[i]) == texts[i]
    ensures PrintItems(items) == Commas(texts)
  {
    if items != [] {
      PrintedWithCommas(items[1..], texts[1..]);
    }
  }

  lemma ChunksAreWritten(cs: seq<ChunkRef>)
    ensures PrintItems(ChunksJson(cs)) == Commas(ChunkTexts(cs))
  {
    forall i | 0 <= i < |cs| ensures Print(ChunksJson(cs)[i]) == ChunkTexts(cs)[i] {
      ChunkIsWritten(cs[i]);
    }
    PrintedWithCommas(ChunksJson(cs), ChunkTexts(cs));
  }

  // The k-th member, after those before it.
  lemma Next(ms: seq<Member>, k: nat, key: string, value: string)
    requires k < |ms| && ms[k].key == key && IsKey(key) && Print(ms[k].value) == value
    ensures Partial(ms, k + 1) == (if k == 0 then "{" else Partial(ms, k) + ",") + Label(key) + value
  {
    KeysAreLetters(key);
    if k == 0 { assert "{" + "" == "{"; }
    AppendMember(ms, k, if k == 0 then "{" else Partial(ms, k) + ",");
  }

  lemma FileLabels()
    ensures Label("chunks") == "\"chunks\":" && Label("name") == "\"name\":"
  {
  }

  lemma FileFields(f: FileEntry, ms: seq<Member>)
    requires |ms| == 3 && ms[0] == Member("chunks", Arr(ChunksJson(f.chunks)))
    requires ms[1] == Member("name", Str(f.name)) && ms[2] == Member("size", Number(IntText(f.size)))
    ensures Print(Obj(ms)) ==
      "{" + "\"chunks\":" + ("[" + Commas(ChunkTexts(f.chunks)) + "]")
      + "," + "\"name\":" + Quote(f.name) + "," + "\"size\":" + IntText(f.size) + "}"
  {
    ChunksAreWritten(f.chunks);
    FileLabels();
    ChunkLabels();
    Next(ms, 0, "chunks", "[" + Commas(ChunkTexts(f.chunks)) + "]");
    Next(ms, 1, "name", Quote(f.name));
    Next(ms, 2, "size", IntText(f.size));
    ClosesObject(ms);
  }

  lemma FileIsWritten(f: FileEntry)
    ensures Print(FileJson(f)) ==
      "{" + "\"chunks\":" + ("[" + Commas(ChunkTexts(f.chunks)) + "]")
      + "," + "\"name\":" + Quote(f.name) + "," + "\"size\":" + IntText(f.size) + "}"
  {
    FileFields(f, FileJson(f).members);
  }

  lemma FilesAreWritten(fs: seq<FileEntry>)
    ensures PrintItems(FilesJson(fs)) == Commas(FileTexts(fs))
  {
    forall i | 0 <= i < |fs| ensures Print(FilesJson(fs)[i]) == FileTexts(fs)[i] {
      FileIsWritten(fs[i]);
    }
    PrintedWithCommas(FilesJson(fs), FileTexts(fs));
  }

  lemma ConfigLabels()
    ensures Label("configHash") == "\"configHash\":" && Label("cpuModel") == "\"cpuModel\":"
  {
  }

  lemma CreatedLabels()
    ensures Label("createdUnix") == "\"createdUnix\":" && Label("files") == "\"files\":"
  {
  }

  lemma KernelLabel()
    ensures Label("kernelVersion") == "\"kernelVersion\":"
  {
  }

  lemma FormatLabel()
    ensures Label("snapshotFormatVersion") == "\"snapshotFormatVersion\":"
  {
  }

  lemma VmmLabel()
    ensures Label("vmmVersion") == "\"vmmVersion\":"
  {
  }

  // The fields before the file list.
  lemma FrontIsWritten(meta: Metadata, ms: seq<Member>)
    requires |ms| == 7
    requires ms[0] == Member("configHash", Str(meta.configHash))
    requires ms[1] == Member("cpuModel", Str(meta.cpuModel))
    requires ms[2] == Member("createdUnix", Number(IntText(meta.createdUnix)))
    ensures Partial(ms, 3) ==
      "{" + "\"configHash\":" + Quote(meta.configHash) + "," + "\"cpuModel\":" + Quote(meta.cpuModel)
      + "," + "\"createdUnix\":" + IntText(meta.createdUnix)
  {
    ConfigLabels();
    CreatedLabels();
    Next(ms, 0, "configHash", Quote(meta.configHash));
    Next(ms, 1, "cpuModel", Quote(meta.cpuModel));
    Next(ms, 2, "createdUnix", IntText(meta.createdUnix));
  }

  lemma BackIsWritten(meta: Metadata, ms: seq<Member>)
    requires |ms| == 7
    requires ms[4] == Member("kernelVersion", Str(meta.kernelVersion))
    requires ms[5] == Member("snapshotFormatVersion", Number(IntText(meta.snapshotFormatVersion)))
    requires ms[6] == Member("vmmVersion", Str(meta.vmmVersion))
    ensures Print(Obj(ms)) ==
      Partial(ms, 4) + "," + "\"kernelVersion\":" + Quote(meta.kernelVersion)
      + "," + "\"snapshotFormatVersion\":" + IntText(meta.snapshotFormatVersion)
      + "," + "\"vmmVersion\":" + Quote(meta.vmmVersion) + "}"
  {
    KernelLabel();
    FormatLabel();
    VmmLabel();
    Next(ms, 4, "kernelVersion", Quote(meta.kernelVersion));
    Next(ms, 5, "snapshotFormatVersion", IntText(meta.snapshotFormatVersion));
    Next(ms, 6, "vmmVersion", Quote(meta.vmmVersion));
    ClosesObject(ms);
  }

  lemma MiddleIsWritten(fs: seq<FileEntry>, ms: seq<Member>)
    requires |ms| == 7 && ms[3] == Member("files", Arr(FilesJson(fs)))
    ensures Partial(ms, 4) == Partial(ms, 3) + "," + "\"files\":" + ("[" + Commas(FileTexts(fs)) + "]")
  {
    CreatedLabels();
    FilesAreWritten(fs);
    Next(ms, 3, "files", "[" + Commas(FileTexts(fs)) + "]");
  }

  // The canonical text of any manifest is this template, filled in with the
  // files in ascending order of name.
  lemma CanonicalIsWritten(m: Manifest)
    ensures var fs := Sort(NameLe, m.files);
      && multiset(fs) == multiset(m.files)
      && (forall i, j :: 0 <= i < j < |fs| ==> !BytesLess(Encode(fs[j].name), Encode(fs[i].name)))
      && CanonicalText(m) ==
         "{" + "\"configHash\":" + Quote(m.meta.configHash) + "," + "\"cpuModel\":" + Quote(m.meta.cpuModel)
         + "," + "\"createdUnix\":" + IntText(m.meta.createdUnix)
         + "," + "\"files\":" + ("[" + Commas(FileTexts(fs)) + "]")
         + "," + "\"kernelVersion\":" + Quote(m.meta.kernelVersion)
         + "," + "\"snapshotFormatVersion\":" + IntText(m.meta.snapshotFormatVersion)
         + "," + "\"vmmVersion\":" + Quote(m.meta.vmmVersion) + "}"
  {
    var sorted := SortFiles(m);
    var ms := ManifestMembers(sorted);
    NameLePreorder();
    SortSorts(NameLe, m.files);
    forall i, j | 0 <= i < j < |sorted.files|
      ensures !BytesLess(Encode(sorted.files[j].name), Encode(sorted.files[i].name))
    {
      assert NameLe(sorted.files[i], sorted.files[j]);
    }
    FrontIsWritten(m.meta, ms);
    MiddleIsWritten(sorted.files, ms);
    BackIsWritten(m.meta, ms);
  }

  // -------------------------------------------------- one document written out

  lemma ShortTexts()
    ensures Quote("h") == "\"h\"" && Quote("c") == "\"c\"" && Quote("k") == "\"k\"" && Quote("v") == "\"v\""
  {
    LettersPlain("h");
    LettersPlain("c");
    LettersPlain("k");
    LettersPlain("v");
  }

  lemma NamesTexts()
    ensures Quote("ab") == "\"ab\"" && Quote("mem") == "\"mem\""
  {
    LettersPlain("ab");
    LettersPlain("mem");
  }

  lemma SmallInts()
    ensures IntText(0) == "0" && IntText(1) == "1" && IntText(5) == "5"
  {
  }

  lemma OneFileTexts(fs: seq<FileEntry>)
    requires fs == [FileEntry("mem", 5, [ChunkRef("ab", 5)])]
    ensures Commas(FileTexts(fs)) ==
      "{" + "\"chunks\":" + ("[" + ("{" + "\"digest\":" + "\"ab\"" + "," + "\"size\":" + "5" + "}") + "]")
      + "," + "\"name\":" + "\"mem\"" + "," + "\"size\":" + "5" + "}"
    ensures Sort(NameLe, fs) == fs
  {
    NamesTexts();
    SmallInts();
    assert Commas(ChunkTexts(fs[0].chunks)) == ChunkTexts(fs[0].chunks)[0];
    assert Sort(NameLe, fs[1..]) == [];
  }

  // The document of a snapshot with one file of one chunk.
  lemma OneFileWrittenOut()
    ensures CanonicalText(Manifest([FileEntry("mem", 5, [ChunkRef("ab", 5)])], Metadata(1, "v", "c", "k", "h", 0)))
         == "{" + "\"configHash\":" + "\"h\"" + "," + "\"cpuModel\":" + "\"c\"" + "," + "\"createdUnix\":" + "0"
            + "," + "\"files\":" + ("[" + ("{" + "\"chunks\":" + ("[" + ("{" + "\"digest\":" + "\"ab\""
            + "," + "\"size\":" + "5" + "}") + "]")
            + "," + "\"name\":" + "\"mem\"" + "," + "\"size\":" + "5" + "}") + "]")
            + "," + "\"kernelVersion\":" + "\"k\"" + "," + "\"snapshotFormatVersion\":" + "1"
            + "," + "\"vmmVersion\":" + "\"v\"" + "}"
  {
    var m := Manifest([FileEntry("mem", 5, [ChunkRef("ab", 5)])], Metadata(1, "v", "c", "k", "h", 0));
    CanonicalIsWritten(m);
    OneFileTexts(m.files);
    ShortTexts();
    SmallInts();
  }

  // A document without members decodes to a manifest whose fields are all zero,
  // and no document at all is an error.
  lemma EmptyDecodes()
    ensures DecodeManifest(Encode("{}")) == Ok(Manifest([], Metadata(0, "", "", "", "", 0)))
    ensures DecodeManifest([]).Err?
  {
    var none: seq<Member> := [];
    assert Print(Obj(none)) == "{}";
    DecodeEncode("{}");
    assert Encode("{}") != [];
    ParseTextPrint(Obj(none));
    assert Lookup(none, "files") == Null;
  }

  // Decimal text: the ten digits, the most significant first, after the sign.
  lemma DecimalExactly(n: nat)
    ensures n < 10 ==> IntText(n) == ["0123456789"[n]]
    ensures n >= 10 ==> IntText(n) == IntText(n / 10) + IntText(n % 10)
    ensures n > 0 ==> IntText(0 - n) == "-" + IntText(n)
  {
  }
}
