/**
 Bulk transfer of the workspace: a directory tree becomes a sequence of archive
 members, and members become files below a target directory, whatever archive
 they come from.
 */
module TarDir {
  import opened Wrappers
  import opened Paths

  const WORKSPACE := "/workspace"

  // ------------------------------------------------------------ confinement

  predicate PathAllowed(p: string) {
    p != "" && (Clean(p) == WORKSPACE || WORKSPACE + "/" <= Clean(p))
  }

  function SafeJoin(dst: string, name: string): Result<string> {
    if name == "" || Rooted(name) then Err
    else
      var clean := Clean(name);
      if clean == ".." || "../" <= clean then Err
      else
        var joined := if dst == "" then Clean(clean) else Clean(dst + "/" + clean);
        if joined != dst && !(dst + "/" <= joined) then Err else Ok(joined)
  }

  predicate Climbs(parts: seq<string>) { parts != [] && parts[0] == ".." }

  // A path text starts with a component exactly when its first part is it.
  lemma FirstPart(parts: seq<string>, w: string)
    requires parts != [] && NoSlashes(parts) && NoSlash(w)
    ensures (Join(parts) == w || w + "/" <= Join(parts)) <==> parts[0] == w
  {
    var p, text := parts[0], Join(parts);
    assert w + "/" <= text ==> text[|w|] == (w + "/")[|w|] == '/';
    assert w + "/" <= text ==> forall i :: 0 <= i < |w| ==> text[i] == (w + "/")[i] == w[i];
    if |parts| > 1 {
      assert text == p + "/" + Join(parts[1..]);
      assert forall i :: 0 <= i < |p| ==> text[i] == p[i];
      assert text[|p|] == '/';
      assert p == w ==> text[..|w| + 1] == w + "/";
      assert w + "/" <= text ==> |p| == |w| && p == w;
    }
  }

  lemma CleanSplit(name: string)
    requires !Rooted(name)
    ensures Split(Clean(name)) == if Parts(name) == [] then ["."] else Parts(name)
  {
    PartsShape(name);
    ResolveNoSlash([], Split(name), false);
    if Parts(name) == [] { SplitWord("."); } else { SplitJoin(Parts(name)); }
  }

  lemma {:induction false} ResolveNoSlash(kept: seq<string>, parts: seq<string>, rooted: bool)
    requires NoSlashes(kept) && NoSlashes(parts)
    ensures NoSlashes(Resolve(kept, parts, rooted))
    decreases parts
  {
    if parts != [] {
      ResolveNoSlash(Keep(kept, parts[0], rooted), parts[1..], rooted);
    }
  }

  // Joining a name that does not climb resolves to the target's components
  // followed by the name's.
  lemma JoinedPath(dir: seq<string>, name: string)
    requires AllPlain(dir) && dir != [] && !Rooted(name) && !Climbs(Parts(name))
    ensures AllPlain(Parts(name)) && Clean(Absolute(dir) + "/" + Clean(name)) == Absolute(dir + Parts(name))
  {
    PartsShape(name);
    CleanSplit(name);
    AbsoluteSplit(dir);
    var parts, text := Parts(name), Absolute(dir) + "/" + Clean(name);
    SplitConcat(Absolute(dir), Clean(name));
    ResolveConcat([], [""] + dir, Split(Clean(name)), true);
    ResolveConcat([], [""], dir, true);
    ResolvePlain([], dir, true);
    assert [] + dir == dir;
    assert Resolve(dir, ["."], true) == dir by { assert ["."][1..] == []; }
    ResolvePlain(dir, parts, true);
    assert dir + [] == dir;
    assert text[0] == '/';
  }

  lemma AbsoluteBelow(dir: seq<string>, parts: seq<string>)
    requires dir != []
    ensures Absolute(dir + parts) == if parts == [] then Absolute(dir) else Absolute(dir) + "/" + Join(parts)
  {
    if parts == [] {
      assert dir + parts == dir;
    } else {
      JoinConcat(dir, parts);
      assert "/" + (Join(dir) + "/" + Join(parts)) == ("/" + Join(dir)) + "/" + Join(parts);
    }
  }

  // With a clean target, a member name is accepted if and only if it is
  // relative and does not climb above where it starts; the path written is then
  // the target, or below it through ordinary components only.
  lemma SafeJoinConfines(dir: seq<string>, name: string)
    requires AllPlain(dir) && dir != []
    ensures SafeJoin(Absolute(dir), name) ==
      if name == "" || Rooted(name) || Climbs(Parts(name)) then Err else Ok(Absolute(dir + Parts(name)))
    ensures SafeJoin(Absolute(dir), name).Ok? ==> AllPlain(dir + Parts(name))
  {
    if name != "" && !Rooted(name) {
      ResolveNoSlash([], Split(name), false);
      if Parts(name) != [] { FirstPart(Parts(name), ".."); assert ".." + "/" == "../"; }
      if !Climbs(Parts(name)) {
        JoinedPath(dir, name);
        AbsoluteBelow(dir, Parts(name));
        if Parts(name) != [] {
          var below := Absolute(dir) + "/" + Join(Parts(name));
          assert below[..|Absolute(dir)| + 1] == Absolute(dir) + "/";
        }
      }
    }
  }

  // The allowlist is the workspace tree, lexically.
  lemma PathAllowedExactly(p: string)
    ensures PathAllowed(p) <==> Rooted(p) && Parts(p) != [] && Parts(p)[0] == "workspace"
  {
    PartsShape(p);
    ResolveNoSlash([], Split(p), Rooted(p));
    var parts := Parts(p);
    if parts != [] {
      FirstPart(parts, "workspace");
      if Rooted(p) {
        WorkspaceText(Join(parts));
      } else {
        assert parts[0] != "" && parts[0][0] != '/';
        assert Join(parts)[0] == parts[0][0];
      }
    }
  }

  lemma WorkspaceText(text: string)
    ensures "/" + text == WORKSPACE <==> text == "workspace"
    ensures WORKSPACE + "/" <= "/" + text <==> "workspace" + "/" <= text
  {
    assert ("/" + text)[1..] == text;
    assert WORKSPACE == "/" + "workspace" && WORKSPACE + "/" == "/" + ("workspace" + "/");
  }

  // A target that is not in clean form accepts no member at all.
  lemma TargetMustBeClean(dst: string, name: string)
    requires Rooted(dst) && SafeJoin(dst, name).Ok?
    ensures Clean(dst) == dst
  {
    var text := dst + "/" + Clean(name);
    var parts := Parts(text);
    assert text[0] == '/';
    PartsShape(text);
    var joined := Absolute(parts);
    assert Clean(text) == joined;
    if parts == [] {
      assert joined == "/" && dst == "/";
      assert "/"[1..] == "" && ["", ""][1..] == [""] && [""][1..] == [];
    } else {
      AbsoluteIsClean(parts);
      if joined != dst {
        var rest := joined[|dst| + 1..];
        assert joined == dst + "/" + rest;
        SplitConcat(dst, rest);
        AbsoluteSplit(parts);
        PrefixIsClean(dst, parts, Split(rest));
      }
    }
  }

  lemma PrefixIsClean(dst: string, parts: seq<string>, rest: seq<string>)
    requires Rooted(dst) && AllPlain(parts) && Split(dst) + rest == [""] + parts
    ensures Clean(dst) == dst
  {
    JoinSplit(dst);
    var k := |Split(dst)| - 1;
    assert Split(dst) == ([""] + parts)[..k + 1] == [""] + parts[..k];
    if k > 0 {
      JoinRooted(parts[..k]);
      AbsoluteIsClean(parts[..k]);
    }
  }

  lemma JoinRooted(parts: seq<string>)
    requires parts != []
    ensures Join([""] + parts) == Absolute(parts)
  {
    assert ([""] + parts)[1..] == parts;
  }

  // ------------------------------------------------------------- file system

  type Path = seq<string>
  datatype Entry = Folder | Bytes(data: seq<int>)
  type Files = map<Path, Entry>

  datatype Kind = DirMember | FileMember | OtherMember
  datatype Member = Member(name: string, kind: Kind, data: seq<int>)

  const MAX_TAR_BYTES: nat := 67_108_864  // 64 << 20

  // What an operation leaves behind, and whether it reported success.
  datatype Outcome = Outcome(fs: Files, ok: bool)

  predicate Below(dir: Path, p: Path) { |dir| < |p| && p[..|dir|] == dir }

  function Parent(p: Path): Path
    requires p != []
  {
    p[..|p| - 1]
  }

  // Makes the directory and those above it; the root always exists.
  function MkdirAll(fs: Files, p: Path): Outcome
    decreases |p|
  {
    if p == [] then Outcome(fs, true)
    else
      var above := MkdirAll(fs, Parent(p));
      if !above.ok then above
      else if p in above.fs then Outcome(above.fs, above.fs[p] == Folder)
      else Outcome(above.fs[p := Folder], true)
  }

  function Limited(data: seq<int>): seq<int> { if |data| <= MAX_TAR_BYTES then data else data[..MAX_TAR_BYTES] }

  function WriteRegular(fs: Files, p: Path, data: seq<int>): Outcome {
    if p == [] || (p in fs && fs[p] == Folder) then Outcome(fs, false) else Outcome(fs[p := Bytes(Limited(data))], true)
  }

  function ExtractOne(fs: Files, dst: string, m: Member): Outcome {
    var target := SafeJoin(dst, m.name);
    if target.Err? then Outcome(fs, false)
    else
      var p := Parts(target.value);
      match m.kind
      case DirMember => MkdirAll(fs, p)
      case FileMember =>
        if p == [] then Outcome(fs, false)
        else
          var above := MkdirAll(fs, Parent(p));
          if above.ok then WriteRegular(above.fs, p, m.data) else above
      case OtherMember => Outcome(fs, false)
  }

  function ExtractAll(fs: Files, dst: string, members: seq<Member>): Outcome
    decreases |members|
  {
    if members == [] then Outcome(fs, true)
    else
      var one := ExtractOne(fs, dst, members[0]);
      if one.ok then ExtractAll(one.fs, dst, members[1..]) else one
  }

  predicate IsFile(fs: Files, p: Path) { p != [] && p in fs && fs[p] != Folder }

  // os.MkdirAll on a text that may not be clean: from left to right each prefix
  // is resolved against the directories made so far, and made if it is missing.
  function MakeEach(fs: Files, at: Path, parts: seq<string>): Outcome
    decreases |parts|
  {
    if parts == [] then Outcome(fs, true)
    else
      var p := Keep(at, parts[0], true);
      if IsFile(fs, p) then Outcome(fs, false)
      else if p == [] || p in fs then MakeEach(fs, p, parts[1..])
      else MakeEach(fs[p := Folder], p, parts[1..])
  }

  function Untar(fs: Files, dst: string, members: seq<Member>): Outcome {
    var made := MakeEach(fs, [], Split(dst));
    if made.ok then ExtractAll(made.fs, dst, members) else made
  }

  // Extraction stops at the first member it refuses, keeping what it wrote.
  method UntarDir(fs: Files, dst: string, members: seq<Member>) returns (fs': Files, ok: bool)
    ensures Outcome(fs', ok) == Untar(fs, dst, members)
  {
    var made := MakeEach(fs, [], Split(dst));
    if !made.ok { return made.fs, false; }
    fs' := made.fs;
    for i := 0 to |members|
      invariant ExtractAll(made.fs, dst, members) == ExtractAll(fs', dst, members[i..])
    {
      assert members[i..][0] == members[i] && members[i..][1..] == members[i + 1..];
      var one := ExtractOne(fs', dst, members[i]);
      if !one.ok { return one.fs, false; }
      fs' := one.fs;
    }
    return fs', true;
  }

  // ------------------------------------------------- where any archive can write

  // Outside the target tree nothing changes, except that directories leading
  // to the target may appear.
  ghost predicate Confined(dir: Path, fs: Files, fs': Files) {
    forall p :: p != dir && !Below(dir, p) ==>
      && (p in fs ==> p in fs' && fs'[p] == fs[p])
      && (p in fs' && p !in fs ==> p != [] && Below(p, dir) && fs'[p] == Folder)
  }

  lemma {:induction false} MkdirChanges(fs: Files, p: Path)
    ensures var o := MkdirAll(fs, p);
      && (forall q :: q in fs ==> q in o.fs && o.fs[q] == fs[q])
      && (forall q :: q in o.fs && q !in fs ==> o.fs[q] == Folder && q != [] && (q == p || Below(q, p)))
      && (o.ok && p != [] ==> p in o.fs && o.fs[p] == Folder)
    decreases |p|
  {
    if p != [] {
      MkdirChanges(fs, Parent(p));
      forall q | Below(q, Parent(p)) ensures Below(q, p) { assert p[..|q|] == Parent(p)[..|q|]; }
      assert Below(Parent(p), p);
    }
  }

  lemma BelowTwice(a: Path, b: Path, c: Path)
    requires Below(a, b) && Below(b, c)
    ensures Below(a, c)
  {
  }

  // What leads to a path at or below the target leads to the target, is it, or
  // is below it.
  lemma Between(dir: Path, q: Path, p: Path)
    requires (p == dir || Below(dir, p)) && Below(q, p)
    ensures q == dir || Below(dir, q) || Below(q, dir)
  {
  }

  lemma MkdirConfined(dir: Path, fs: Files, p: Path)
    requires p == dir || Below(dir, p) || (dir != [] && p == Parent(dir))
    ensures Confined(dir, fs, MkdirAll(fs, p).fs)
  {
    MkdirChanges(fs, p);
    var o := MkdirAll(fs, p);
    forall q | q in o.fs && q !in fs && q != dir && !Below(dir, q) ensures Below(q, dir) {
      if dir != [] && p == Parent(dir) {
        assert Below(p, dir);
        if q != p { BelowTwice(q, p, dir); }
      } else if q != p {
        Between(dir, q, p);
      }
    }
  }

  lemma ConfinedTwice(dir: Path, a: Files, b: Files, c: Files)
    requires Confined(dir, a, b) && Confined(dir, b, c)
    ensures Confined(dir, a, c)
  {
  }

  lemma WriteConfined(dir: Path, fs: Files, p: Path, data: seq<int>)
    requires p == dir || Below(dir, p)
    ensures Confined(dir, fs, WriteRegular(fs, p, data).fs)
  {
  }

  // A file, after the directories leading to it.
  lemma FileConfined(dir: Path, fs: Files, p: Path, data: seq<int>)
    requires p != [] && (p == dir || Below(dir, p))
    ensures var above := MkdirAll(fs, Parent(p));
      Confined(dir, fs, (if above.ok then WriteRegular(above.fs, p, data) else above).fs)
  {
    var above := MkdirAll(fs, Parent(p));
    assert p == dir || Parent(p) == dir || Below(dir, Parent(p));
    MkdirConfined(dir, fs, Parent(p));
    if above.ok {
      WriteConfined(dir, above.fs, p, data);
      ConfinedTwice(dir, fs, above.fs, WriteRegular(above.fs, p, data).fs);
    }
  }

  lemma ExtractOneConfined(dir: Path, fs: Files, m: Member)
    requires AllPlain(dir) && dir != []
    ensures Confined(dir, fs, ExtractOne(fs, Absolute(dir), m).fs)
  {
    SafeJoinConfines(dir, m.name);
    if SafeJoin(Absolute(dir), m.name).Ok? {
      var p := dir + Parts(m.name);
      AbsoluteIsClean(p);
      assert p == dir || Below(dir, p);
      if m.kind.DirMember? { MkdirConfined(dir, fs, p); }
      if m.kind.FileMember? { FileConfined(dir, fs, p, m.data); }
    }
  }

  // Whatever the archive, and wherever extraction stops, every path written is
  // the target or lexically below it.
  lemma {:induction false} UntarConfined(dir: Path, fs: Files, members: seq<Member>)
    requires AllPlain(dir) && dir != []
    ensures Confined(dir, fs, ExtractAll(fs, Absolute(dir), members).fs)
    decreases |members|
  {
    if members != [] {
      ExtractOneConfined(dir, fs, members[0]);
      var one := ExtractOne(fs, Absolute(dir), members[0]);
      if one.ok {
        UntarConfined(dir, one.fs, members[1..]);
        ConfinedTwice(dir, fs, one.fs, ExtractAll(one.fs, Absolute(dir), members[1..]).fs);
      }
    }
  }

  // A target that is not in clean form gets no member.
  lemma UncleanGetsNothing(fs: Files, dst: string, members: seq<Member>)
    requires Rooted(dst) && Clean(dst) != dst
    ensures ExtractAll(fs, dst, members).fs == fs
  {
    if members != [] && SafeJoin(dst, members[0].name).Ok? { TargetMustBeClean(dst, members[0].name); }
  }

  // ------------------------------------------------- what making the target does

  // The directories that are missing along the text, up to a prefix that is a file.
  function Missing(fs: Files, at: Path, parts: seq<string>): set<Path>
    decreases |parts|
  {
    if parts == [] then {}
    else
      var p := Keep(at, parts[0], true);
      if IsFile(fs, p) then {}
      else (if p == [] || p in fs then {} else {p}) + Missing(fs, p, parts[1..])
  }

  lemma {:induction false} MissingLess(fs: Files, q: Path, at: Path, parts: seq<string>)
    requires q !in fs
    ensures Missing(fs[q := Folder], at, parts) == Missing(fs, at, parts) - {q}
    decreases |parts|
  {
    if parts != [] { MissingLess(fs, q, Keep(at, parts[0], true), parts[1..]); }
  }

  function WithFolders(fs: Files, made: set<Path>): Files { fs + map q | q in made :: Folder }

  lemma {:induction false} MissingIsNew(fs: Files, at: Path, parts: seq<string>)
    ensures forall q :: q in Missing(fs, at, parts) ==> q != [] && q !in fs
    decreases |parts|
  {
    if parts != [] { MissingIsNew(fs, Keep(at, parts[0], true), parts[1..]); }
  }

  // Exactly those are made, and nothing else changes.
  lemma {:induction false} MakesMissing(fs: Files, at: Path, parts: seq<string>)
    ensures MakeEach(fs, at, parts).fs == WithFolders(fs, Missing(fs, at, parts))
    decreases |parts|
  {
    if parts != [] {
      var p := Keep(at, parts[0], true);
      if IsFile(fs, p) {
      } else if p == [] || p in fs {
        MakesMissing(fs, p, parts[1..]);
        assert {} + Missing(fs, p, parts[1..]) == Missing(fs, p, parts[1..]);
      } else {
        MakesMissing(fs[p := Folder], p, parts[1..]);
        MissingLess(fs, p, p, parts[1..]);
      }
    }
  }

  // The i-th prefix of the text, resolved; it is looked at if none before it,
  // nor it, is a file.
  function Prefix(at: Path, parts: seq<string>, i: nat): Path
    requires i <= |parts|
  {
    Resolve(at, parts[..i], true)
  }

  ghost predicate LookedAt(fs: Files, at: Path, parts: seq<string>, i: nat) {
    0 < i <= |parts| && forall j: nat :: 0 < j <= i ==> !IsFile(fs, Prefix(at, parts, j))
  }

  lemma PrefixNext(at: Path, parts: seq<string>, i: nat)
    requires 0 < i <= |parts|
    ensures Prefix(at, parts, i) == Prefix(Keep(at, parts[0], true), parts[1..], i - 1)
  {
    assert parts[..i][1..] == parts[1..][..i - 1];
  }

  lemma LookedAtNext(fs: Files, at: Path, parts: seq<string>, i: nat)
    requires 1 < i <= |parts|
    ensures LookedAt(fs, at, parts, i) <==>
      !IsFile(fs, Keep(at, parts[0], true)) && LookedAt(fs, Keep(at, parts[0], true), parts[1..], i - 1)
  {
    var p := Keep(at, parts[0], true);
    PrefixNext(at, parts, 1);
    assert parts[1..][..0] == [];
    forall j: nat | 1 < j <= i ensures Prefix(at, parts, j) == Prefix(p, parts[1..], j - 1) {
      PrefixNext(at, parts, j);
    }
    if LookedAt(fs, at, parts, i) {
      forall j: nat | 0 < j <= i - 1 ensures !IsFile(fs, Prefix(p, parts[1..], j)) {
        assert !IsFile(fs, Prefix(at, parts, j + 1));
      }
    }
    if !IsFile(fs, p) && LookedAt(fs, p, parts[1..], i - 1) {
      forall j: nat | 0 < j <= i ensures !IsFile(fs, Prefix(at, parts, j)) {
        if j > 1 { assert !IsFile(fs, Prefix(p, parts[1..], j - 1)); }
      }
    }
  }

  ghost predicate MissingAt(fs: Files, at: Path, parts: seq<string>, q: Path, i: nat) {
    LookedAt(fs, at, parts, i) && q == Prefix(at, parts, i) && q != [] && q !in fs
  }

  lemma MissingFirst(fs: Files, at: Path, parts: seq<string>, q: Path)
    requires parts != []
    ensures MissingAt(fs, at, parts, q, 1) <==> q == Keep(at, parts[0], true) && q != [] && q !in fs
  {
    PrefixNext(at, parts, 1);
    assert parts[1..][..0] == [];
  }

  lemma MissingNext(fs: Files, at: Path, parts: seq<string>, q: Path, i: nat)
    requires parts != [] && i > 0
    ensures var p := Keep(at, parts[0], true);
      MissingAt(fs, at, parts, q, i + 1) <==> !IsFile(fs, p) && MissingAt(fs, p, parts[1..], q, i)
  {
    if i + 1 <= |parts| {
      LookedAtNext(fs, at, parts, i + 1);
      PrefixNext(at, parts, i + 1);
    }
  }

  lemma {:induction false} MissingArePrefixes(fs: Files, at: Path, parts: seq<string>, q: Path)
    ensures q in Missing(fs, at, parts) <==> exists i: nat :: MissingAt(fs, at, parts, q, i)
    decreases |parts|
  {
    if parts != [] {
      var p := Keep(at, parts[0], true);
      MissingArePrefixes(fs, p, parts[1..], q);
      MissingFirst(fs, at, parts, q);
      if q in Missing(fs, at, parts) && !MissingAt(fs, at, parts, q, 1) {
        var i: nat :| MissingAt(fs, p, parts[1..], q, i);
        MissingNext(fs, at, parts, q, i);
      }
      if i: nat :| MissingAt(fs, at, parts, q, i) {
        if i > 1 { MissingNext(fs, at, parts, q, i - 1); }
      }
    }
  }

  // On a clean text that is MkdirAll of its components.
  lemma {:induction false} MkdirFails(fs: Files, p: Path, rest: Path)
    requires !MkdirAll(fs, p).ok
    ensures MkdirAll(fs, p + rest) == MkdirAll(fs, p)
    decreases |rest|
  {
    if rest == [] {
      assert p + rest == p;
    } else {
      MkdirFails(fs, p, rest[..|rest| - 1]);
      assert Parent(p + rest) == p + rest[..|rest| - 1];
    }
  }

  lemma {:induction false} EachIsAll(fs: Files, at: Path, rest: Path)
    requires AllPlain(rest) && MkdirAll(fs, at).ok
    ensures MakeEach(MkdirAll(fs, at).fs, at, rest) == MkdirAll(fs, at + rest)
    decreases |rest|
  {
    if rest == [] {
      assert at + rest == at;
    } else {
      var p := at + [rest[0]];
      assert Parent(p) == at && p + rest[1..] == at + rest && Keep(at, rest[0], true) == p;
      if MkdirAll(fs, p).ok { EachIsAll(fs, p, rest[1..]); } else { MkdirFails(fs, p, rest[1..]); }
    }
  }

  lemma CleanMakes(fs: Files, dir: Path)
    requires AllPlain(dir) && dir != []
    ensures MakeEach(fs, [], Split(Absolute(dir))) == MkdirAll(fs, dir)
  {
    AbsoluteSplit(dir);
    assert ([""] + dir)[1..] == dir && [] + dir == dir;
    EachIsAll(fs, [], dir);
  }

  // ---------------------------------------------------------- the whole transfer

  predicate InWorkspace(p: Path) { p != [] && p[0] == "workspace" }

  // Outside the workspace nothing changes.
  ghost predicate WorkspaceOnly(fs: Files, fs': Files) {
    forall p :: !InWorkspace(p) ==> (p in fs <==> p in fs') && (p in fs ==> fs'[p] == fs[p])
  }

  // Every prefix of the text that is looked at exists or is in the workspace.
  ghost predicate PrefixesWithin(fs: Files, dst: string) {
    forall i: nat :: LookedAt(fs, [], Split(dst), i) ==>
      var p := Prefix([], Split(dst), i); p == [] || p in fs || InWorkspace(p)
  }

  lemma ConfinedToWorkspace(dir: Path, fs: Files, fs': Files)
    requires InWorkspace(dir) && Confined(dir, fs, fs')
    ensures WorkspaceOnly(fs, fs')
  {
    forall p: Path | !InWorkspace(p) ensures (p in fs <==> p in fs') && (p in fs ==> fs'[p] == fs[p]) {
      assert p != dir && !Below(dir, p);
      assert p != [] ==> !Below(p, dir);
    }
  }

  lemma MakesWithinExactly(fs: Files, dst: string)
    ensures WorkspaceOnly(fs, MakeEach(fs, [], Split(dst)).fs) <==> PrefixesWithin(fs, dst)
  {
    var parts := Split(dst);
    MakesMissing(fs, [], parts);
    var fs' := MakeEach(fs, [], parts).fs;
    if PrefixesWithin(fs, dst) {
      forall q: Path | !InWorkspace(q) ensures (q in fs <==> q in fs') && (q in fs ==> fs'[q] == fs[q]) {
        MissingIsNew(fs, [], parts);
        MissingArePrefixes(fs, [], parts, q);
      }
    } else {
      var i: nat :| LookedAt(fs, [], parts, i) &&
        var p := Prefix([], parts, i); !(p == [] || p in fs || InWorkspace(p));
      var p := Prefix([], parts, i);
      MissingArePrefixes(fs, [], parts, p);
      assert MissingAt(fs, [], parts, p, i);
      assert p in fs' && p !in fs;
    }
  }

  // After the target is made every path written is the target or below it.
  lemma MembersConfined(fs: Files, dst: string, members: seq<Member>)
    requires PathAllowed(dst)
    ensures InWorkspace(Parts(dst)) && Confined(Parts(dst), fs, ExtractAll(fs, dst, members).fs)
  {
    PathAllowedExactly(dst);
    PartsShape(dst);
    if Clean(dst) == dst { UntarConfined(Parts(dst), fs, members); } else { UncleanGetsNothing(fs, dst, members); }
  }

  lemma WorkspaceOnlyTwice(a: Files, b: Files, c: Files)
    requires WorkspaceOnly(b, c)
    ensures WorkspaceOnly(a, c) <==> WorkspaceOnly(a, b)
  {
    assert forall p :: !InWorkspace(p) ==> (p in b <==> p in c) && (p in b ==> c[p] == b[p]);
  }

  // Whatever target the allowlist admits and whatever the archive: apart from
  // directories along the target's text, every path written is the target, which
  // is in the workspace, or below it.
  lemma TransferConfined(fs: Files, dst: string, members: seq<Member>)
    requires PathAllowed(dst)
    ensures InWorkspace(Parts(dst))
    ensures Confined(Parts(dst), WithFolders(fs, Missing(fs, [], Split(dst))), Untar(fs, dst, members).fs)
  {
    MakesMissing(fs, [], Split(dst));
    MembersConfined(MakeEach(fs, [], Split(dst)).fs, dst, members);
  }

  // So nothing outside the workspace changes if and only if every prefix of the
  // text, up to one that is a file, exists or is in the workspace.
  lemma TransferWithinExactly(fs: Files, dst: string, members: seq<Member>)
    requires PathAllowed(dst)
    ensures WorkspaceOnly(fs, Untar(fs, dst, members).fs) <==> PrefixesWithin(fs, dst)
  {
    var made := MakeEach(fs, [], Split(dst));
    MakesWithinExactly(fs, dst);
    if made.ok {
      MembersConfined(made.fs, dst, members);
      ConfinedToWorkspace(Parts(dst), made.fs, ExtractAll(made.fs, dst, members).fs);
      WorkspaceOnlyTwice(fs, made.fs, ExtractAll(made.fs, dst, members).fs);
    }
  }

  // A target in clean form is always fine.
  lemma CleanStaysWithin(fs: Files, dst: string)
    requires PathAllowed(dst) && Clean(dst) == dst
    ensures PrefixesWithin(fs, dst)
  {
    PathAllowedExactly(dst);
    PartsShape(dst);
    var dir := Parts(dst);
    AbsoluteSplit(dir);
    forall i: nat | LookedAt(fs, [], Split(dst), i)
      ensures var p := Prefix([], Split(dst), i); p == [] || InWorkspace(p)
    {
      CleanPrefix(dir, i);
    }
  }

  lemma CleanPrefix(dir: Path, i: nat)
    requires AllPlain(dir) && 0 < i <= |dir| + 1
    ensures Prefix([], [""] + dir, i) == dir[..i - 1]
  {
    PrefixNext([], [""] + dir, i);
    assert ([""] + dir)[1..] == dir;
    ResolvePlain([], dir[..i - 1], true);
    assert [] + dir[..i - 1] == dir[..i - 1];
  }

  // A text that is not clean need not be: here the workspace is reached through
  // a directory next to it, which is made and stays.
  lemma OutsideIsMade()
    ensures var fs: Files, dst := map[["workspace"] := Folder], "/x/../workspace";
      && PathAllowed(dst)
      && Untar(fs, dst, []) == Outcome(fs[["x"] := Folder], true)
      && !WorkspaceOnly(fs, Untar(fs, dst, []).fs)
  {
    var fs: Files, dst := map[["workspace"] := Folder], "/x/../workspace";
    SplitExample();
    PathAllowedExactly(dst);
    WalkExample(fs);
    assert ["x"] in fs[["x"] := Folder] && ["x"] !in fs && !InWorkspace(["x"]);
  }

  const UP := ["..", "workspace"]

  lemma WalkExample(fs: Files)
    requires fs == map[["workspace"] := Folder]
    ensures MakeEach(fs, [], ["", "x"] + UP) == Outcome(fs[["x"] := Folder], true)
    ensures Resolve([], ["", "x"] + UP, true) == ["workspace"]
  {
    var made: Files, parts := fs[["x"] := Folder], ["", "x"] + UP;
    assert parts[1..] == ["x"] + UP && parts[1..][1..] == UP && UP[1..] == ["workspace"];
    assert ["x"][..0] == [] && [] + ["x"] == ["x"] && [] + ["workspace"] == ["workspace"];
    assert Resolve([], ["workspace"], true) == ["workspace"] && Resolve(["x"], UP, true) == ["workspace"];
    assert MakeEach(made, [], ["workspace"]) == Outcome(made, true);
    assert MakeEach(made, ["x"], UP) == Outcome(made, true);
    assert MakeEach(fs, [], parts[1..]) == Outcome(made, true);
  }

  lemma SplitExample()
    ensures Split("/x/../workspace") == ["", "x"] + UP
  {
    var parts := ["x"] + UP;
    JoinExample();
    AbsoluteSplit(parts);
    assert [""] + parts == ["", "x"] + UP;
  }

  lemma JoinExample()
    ensures Absolute(["x"] + UP) == "/x/../workspace"
  {
    assert (["x"] + UP)[1..] == UP && UP[1..] == ["workspace"];
    assert Join(["workspace"]) == "workspace";
    assert Join(UP) == "../workspace";
  }

  // A request to untar, for any path and any archive, `size` bytes long: nothing
  // outside the workspace changes exactly if it is refused or the prefixes of
  // its path are within.
  method HandleUntar(fs: Files, path: string, size: nat, members: seq<Member>) returns (fs': Files, ok: bool)
    ensures var accepted := PathAllowed(path) && size <= 67_108_864;
      && Outcome(fs', ok) == (if accepted then Untar(fs, path, members) else Outcome(fs, false))
      && (WorkspaceOnly(fs, fs') <==> !accepted || PrefixesWithin(fs, path))
  {
    if !PathAllowed(path) { return fs, false; }
    if size > MAX_TAR_BYTES { return fs, false; }
    TransferWithinExactly(fs, path, members);
    fs', ok := UntarDir(fs, path, members);
  }

  // ------------------------------------------------------------- round trip

  // A directory's entries in walking order.
  datatype Forest = Empty | Plant(name: string, node: Node, rest: Forest)
  datatype Node = Dir(children: Forest) | File(data: seq<int>) | Special

  predicate Names(f: Forest, name: string) { f.Plant? && (f.name == name || Names(f.rest, name)) }

  // Entry names are what a directory can hold, each once, and files fit the limit.
  predicate Wellformed(f: Forest) {
    f.Plant? ==>
      && Plain(f.name) && !Names(f.rest, f.name) && Wellformed(f.rest)
      && (f.node.Dir? ==> Wellformed(f.node.children))
      && (f.node.File? ==> |f.node.data| <= MAX_TAR_BYTES)
  }

  // The members written for the entries of the directory at `at`, relative to
  // the directory being archived.
  function Tar(at: Path, f: Forest): seq<Member>
    decreases f
  {
    if f.Empty? then [] else TarNode(at + [f.name], f.node) + Tar(at, f.rest)
  }

  function TarNode(rel: Path, node: Node): seq<Member>
    decreases node
  {
    match node
    case Dir(children) => [Member(Join(rel) + "/", DirMember, [])] + Tar(rel, children)
    case File(data) => [Member(Join(rel), FileMember, data)]
    case Special => []
  }

  // What the tree holds at a relative path; links and devices do not count.
  function Lookup(f: Forest, rel: Path): (e: Result<Entry>)
    decreases f
  {
    if f.Empty? || rel == [] then Err
    else if f.name != rel[0] then Lookup(f.rest, rel)
    else match f.node
      case Dir(children) => if |rel| == 1 then Ok(Folder) else Lookup(children, rel[1..])
      case File(data) => if |rel| == 1 then Ok(Bytes(data)) else Err
      case Special => Err
  }

  // The same tree as a map of absolute paths.
  function Placed(base: Path, f: Forest): Files
    decreases f
  {
    if f.Empty? then map[] else PlacedNode(base + [f.name], f.node) + Placed(base, f.rest)
  }

  function PlacedNode(p: Path, node: Node): Files
    decreases node
  {
    match node
    case Dir(children) => map[p := Folder] + Placed(p, children)
    case File(data) => map[p := Bytes(data)]
    case Special => map[]
  }

  // Every name the archive contains is accepted and means its own path.
  lemma MemberAccepted(dir: Path, rel: Path, slash: bool)
    requires AllPlain(dir) && dir != [] && AllPlain(rel) && rel != []
    ensures SafeJoin(Absolute(dir), Join(rel) + (if slash then "/" else "")) == Ok(Absolute(dir + rel))
    ensures Parts(Absolute(dir + rel)) == dir + rel
  {
    var name := Join(rel) + (if slash then "/" else "");
    RelativeParts(rel, slash);
    SafeJoinConfines(dir, name);
    AbsoluteIsClean(dir + rel);
  }

  lemma RelativeParts(rel: Path, slash: bool)
    requires AllPlain(rel) && rel != []
    ensures var name := Join(rel) + (if slash then "/" else "");
      name != "" && !Rooted(name) && Parts(name) == rel
  {
    var name := Join(rel) + (if slash then "/" else "");
    assert Join(rel) != "" && Join(rel)[0] == rel[0][0];
    assert name[0] == rel[0][0];
    SplitJoin(rel);
    ResolvePlain([], rel, false);
    assert [] + rel == rel;
    if slash {
      assert name == Join(rel) + "/" + "";
      SplitConcat(Join(rel), "");
      ResolveConcat([], rel, [""], false);
      assert [""][1..] == [];
    } else {
      assert name == Join(rel);
    }
  }

  lemma {:induction false} MkdirExisting(fs: Files, p: Path)
    requires forall n :: 0 < n <= |p| ==> p[..n] in fs && fs[p[..n]] == Folder
    ensures MkdirAll(fs, p) == Outcome(fs, true)
    decreases |p|
  {
    if p != [] {
      forall n | 0 < n <= |Parent(p)| ensures Parent(p)[..n] in fs && fs[Parent(p)[..n]] == Folder {
        assert Parent(p)[..n] == p[..n];
      }
      MkdirExisting(fs, Parent(p));
      assert p[..|p|] == p;
    }
  }

  ghost predicate Dirs(fs: Files, p: Path) { forall n :: 0 < n <= |p| ==> p[..n] in fs && fs[p[..n]] == Folder }

  // Nothing is in the way of the forest's entries.
  ghost predicate Clear(fs: Files, base: Path, f: Forest) {
    forall q :: q in fs && Below(base, q) ==> !Names(f, q[|base|])
  }

  lemma {:induction false} ExtractConcat(fs: Files, dst: string, a: seq<Member>, b: seq<Member>)
    ensures var o := ExtractAll(fs, dst, a);
      ExtractAll(fs, dst, a + b) == if o.ok then ExtractAll(o.fs, dst, b) else o
    decreases |a|
  {
    if a == [] {
      assert a + b == b;
    } else {
      assert (a + b)[0] == a[0] && (a + b)[1..] == a[1..] + b;
      var one := ExtractOne(fs, dst, a[0]);
      if one.ok { ExtractConcat(one.fs, dst, a[1..], b); }
    }
  }

  lemma {:induction false} PlacedKeys(base: Path, f: Forest, q: Path)
    requires q in Placed(base, f)
    ensures Below(base, q) && Names(f, q[|base|])
    decreases f
  {
    if q in Placed(base, f.rest) {
      PlacedKeys(base, f.rest, q);
    } else {
      PlacedNodeKeys(base, f.name, f.node, q);
    }
  }

  lemma PlacedNodeKeys(base: Path, name: string, node: Node, q: Path)
    requires q in PlacedNode(base + [name], node)
    ensures Below(base, q) && q[|base|] == name
    decreases node
  {
    var p := base + [name];
    if q != p {
      PlacedKeys(p, node.children, q);
      assert q[..|base|] == q[..|p|][..|base|] && q[|base|] == q[..|p|][|base|];
    } else {
      assert p[..|base|] == base;
    }
  }

  // A directory or file member adds its own entry and nothing else.
  lemma ExtractEntry(dir: Path, at: Path, name: string, fs: Files, folder: bool, data: seq<int>)
    requires AllPlain(dir) && dir != [] && AllPlain(at) && Plain(name) && |data| <= MAX_TAR_BYTES
    requires Dirs(fs, dir + at) && dir + at + [name] !in fs
    ensures var rel := at + [name];
      var m := if folder then Member(Join(rel) + "/", DirMember, []) else Member(Join(rel), FileMember, data);
      ExtractOne(fs, Absolute(dir), m) == Outcome(fs[dir + at + [name] := if folder then Folder else Bytes(data)], true)
  {
    var rel := at + [name];
    MemberAccepted(dir, rel, folder);
    var p := dir + at + [name];
    assert dir + rel == p && Parent(p) == dir + at;
    assert Join(rel) + "" == Join(rel);
    MkdirExisting(fs, dir + at);
  }

  // After an entry is added its siblings' places are still clear.
  lemma StillClear(fs: Files, base: Path, f: Forest, added: Files)
    requires f.Plant? && !Names(f.rest, f.name) && Clear(fs, base, f) && Dirs(fs, base)
    requires forall q :: q in added ==> Below(base, q) && q[|base|] == f.name
    ensures Clear(fs + added, base, f.rest) && Dirs(fs + added, base)
  {
  }

  // The place of a new directory is clear for its children.
  lemma ClearInside(fs: Files, base: Path, f: Forest)
    requires f.Plant? && Clear(fs, base, f) && Dirs(fs, base)
    ensures base + [f.name] !in fs
    ensures f.node.Dir? ==> Clear(fs[base + [f.name] := Folder], base + [f.name], f.node.children)
    ensures Dirs(fs[base + [f.name] := Folder], base + [f.name])
  {
    var p := base + [f.name];
    var fs' := fs[p := Folder];
    assert Below(base, p) && p[|base|] == f.name;
    forall q | Below(p, q) ensures Below(base, q) && q[|base|] == f.name {
      assert q[..|base|] == q[..|p|][..|base|] && q[|base|] == q[..|p|][|base|];
    }
    forall n | 0 < n <= |p| ensures p[..n] in fs' && fs'[p[..n]] == Folder {
      if n <= |base| { assert p[..n] == base[..n]; } else { assert p[..n] == p; }
    }
  }

  lemma MergeTwice(a: Files, b: Files, c: Files)
    ensures a + b + c == a + (b + c)
  {
  }

  lemma PutThenMerge(fs: Files, p: Path, e: Entry, below: Files)
    ensures fs[p := e] + below == fs + (map[p := e] + below)
  {
  }

  // Extracting the members of a forest adds exactly the forest.
  lemma {:induction false} Replant(dir: Path, at: Path, f: Forest, fs: Files)
    requires AllPlain(dir) && dir != [] && AllPlain(at) && Wellformed(f) && Dirs(fs, dir + at) && Clear(fs, dir + at, f)
    ensures ExtractAll(fs, Absolute(dir), Tar(at, f)) == Outcome(fs + Placed(dir + at, f), true)
    decreases f
  {
    if f.Empty? {
      assert fs + map[] == fs;
    } else {
      var base := dir + at;
      var first := PlacedNode(base + [f.name], f.node);
      forall q | q in first ensures Below(base, q) && q[|base|] == f.name {
        PlacedNodeKeys(base, f.name, f.node, q);
      }
      ReplantNode(dir, at, f, fs);
      StillClear(fs, base, f, first);
      Replant(dir, at, f.rest, fs + first);
      ExtractConcat(fs, Absolute(dir), TarNode(at + [f.name], f.node), Tar(at, f.rest));
      MergeTwice(fs, first, Placed(base, f.rest));
    }
  }

  lemma ReplantNode(dir: Path, at: Path, f: Forest, fs: Files)
    requires f.Plant? && AllPlain(dir) && dir != [] && AllPlain(at) && Wellformed(f)
    requires Dirs(fs, dir + at) && Clear(fs, dir + at, f)
    ensures ExtractAll(fs, Absolute(dir), TarNode(at + [f.name], f.node)) ==
      Outcome(fs + PlacedNode(dir + at + [f.name], f.node), true)
    decreases f, 0
  {
    var p := dir + at + [f.name];
    ClearInside(fs, dir + at, f);
    match f.node
    case Special => assert fs + map[] == fs;
    case File(data) => ReplantFile(dir, at, f.name, data, fs);
    case Dir(children) =>
      assert dir + (at + [f.name]) == p;
      Replant(dir, at + [f.name], children, fs[p := Folder]);
      ReplantDir(dir, at, f.name, children, fs);
  }

  lemma ReplantFile(dir: Path, at: Path, name: string, data: seq<int>, fs: Files)
    requires AllPlain(dir) && dir != [] && AllPlain(at) && Plain(name) && |data| <= MAX_TAR_BYTES
    requires Dirs(fs, dir + at) && dir + at + [name] !in fs
    ensures ExtractAll(fs, Absolute(dir), TarNode(at + [name], File(data))) ==
      Outcome(fs + PlacedNode(dir + at + [name], File(data)), true)
  {
    var p := dir + at + [name];
    ExtractEntry(dir, at, name, fs, false, data);
    var m := Member(Join(at + [name]), FileMember, data);
    ExtractFirst(fs, Absolute(dir), m, [], fs[p := Bytes(data)]);
    assert [m] + [] == [m];
    assert fs[p := Bytes(data)] == fs + map[p := Bytes(data)];
  }

  lemma ExtractFirst(fs: Files, dst: string, m: Member, rest: seq<Member>, next: Files)
    requires ExtractOne(fs, dst, m) == Outcome(next, true)
    ensures ExtractAll(fs, dst, [m] + rest) == ExtractAll(next, dst, rest)
  {
  }

  lemma ExtractFolder(fs: Files, dst: string, m: Member, p: Path, rest: seq<Member>, below: Files)
    requires ExtractOne(fs, dst, m) == Outcome(fs[p := Folder], true)
    requires ExtractAll(fs[p := Folder], dst, rest) == Outcome(fs[p := Folder] + below, true)
    ensures ExtractAll(fs, dst, [m] + rest) == Outcome(fs + (map[p := Folder] + below), true)
  {
    ExtractFirst(fs, dst, m, rest, fs[p := Folder]);
    PutThenMerge(fs, p, Folder, below);
  }

  lemma ReplantDir(dir: Path, at: Path, name: string, children: Forest, fs: Files)
    requires AllPlain(dir) && dir != [] && AllPlain(at) && Plain(name)
    requires Dirs(fs, dir + at) && dir + at + [name] !in fs
    requires var p := dir + at + [name];
      ExtractAll(fs[p := Folder], Absolute(dir), Tar(at + [name], children)) ==
        Outcome(fs[p := Folder] + Placed(p, children), true)
    ensures ExtractAll(fs, Absolute(dir), TarNode(at + [name], Dir(children))) ==
      Outcome(fs + PlacedNode(dir + at + [name], Dir(children)), true)
  {
    var p, m := dir + at + [name], Member(Join(at + [name]) + "/", DirMember, []);
    ExtractEntry(dir, at, name, fs, true, []);
    ExtractFolder(fs, Absolute(dir), m, p, Tar(at + [name], children), Placed(p, children));
  }

  // ---------------------------------------------------------------- theorem

  lemma {:induction false} PlacedIsLookup(base: Path, f: Forest, rel: Path)
    requires Wellformed(f)
    ensures base + rel in Placed(base, f) <==> Lookup(f, rel).Ok?
    ensures Lookup(f, rel).Ok? ==> Placed(base, f)[base + rel] == Lookup(f, rel).value
    decreases f
  {
    var q := base + rel;
    if rel == [] {
      assert q == base;
      if q in Placed(base, f) { PlacedKeys(base, f, q); }
    } else if f.Plant? {
      assert q[..|base|] == base && q[|base|] == rel[0];
      PlacedIsLookup(base, f.rest, rel);
      if f.name != rel[0] {
        if q in PlacedNode(base + [f.name], f.node) { PlacedNodeKeys(base, f.name, f.node, q); }
      } else {
        if q in Placed(base, f.rest) { PlacedKeys(base, f.rest, q); }
        PlacedNodeIsLookup(base, f, rel);
      }
    }
  }

  lemma PlacedNodeIsLookup(base: Path, f: Forest, rel: Path)
    requires Wellformed(f) && f.Plant? && rel != [] && f.name == rel[0]
    ensures base + rel in PlacedNode(base + [f.name], f.node) <==> Lookup(f, rel).Ok?
    ensures Lookup(f, rel).Ok? ==> PlacedNode(base + [f.name], f.node)[base + rel] == Lookup(f, rel).value
    decreases f, 0
  {
    var p, q := base + [f.name], base + rel;
    assert q == p + rel[1..];
    assert |rel| == 1 ==> q == p;
    if f.node.Dir? {
      PlacedIsLookup(p, f.node.children, rel[1..]);
      if p in Placed(p, f.node.children) { PlacedKeys(p, f.node.children, p); }
    }
  }

  // Untarring the tar of a tree into an empty, clean target recreates exactly
  // the tree's directories and regular files, with their contents, and touches
  // nothing else.
  lemma RoundTrip(dir: Path, tree: Forest, fs: Files)
    requires AllPlain(dir) && dir != [] && Wellformed(tree)
    requires MkdirAll(fs, dir).ok && forall q :: q in fs ==> !Below(dir, q)
    ensures var o := Untar(fs, Absolute(dir), Tar([], tree));
      && o.ok && Confined(dir, fs, o.fs)
      && forall rel :: rel != [] ==>
           && (dir + rel in o.fs <==> Lookup(tree, rel).Ok?)
           && (Lookup(tree, rel).Ok? ==> o.fs[dir + rel] == Lookup(tree, rel).value)
  {
    var made := MkdirAll(fs, dir).fs;
    MkdirChanges(fs, dir);
    MkdirMakes(fs, dir);
    CleanMakes(fs, dir);
    assert dir + [] == dir;
    Replant(dir, [], tree, made);
    var o := ExtractAll(made, Absolute(dir), Tar([], tree));
    assert o == Outcome(made + Placed(dir, tree), true);
    forall rel | rel != []
      ensures dir + rel in o.fs <==> Lookup(tree, rel).Ok?
      ensures Lookup(tree, rel).Ok? ==> o.fs[dir + rel] == Lookup(tree, rel).value
    {
      PlacedIsLookup(dir, tree, rel);
      assert Below(dir, dir + rel);
    }
    MkdirConfined(dir, fs, dir);
    UntarConfined(dir, made, Tar([], tree));
    ConfinedTwice(dir, fs, made, o.fs);
  }

  lemma {:induction false} MkdirMakes(fs: Files, p: Path)
    requires MkdirAll(fs, p).ok
    ensures Dirs(MkdirAll(fs, p).fs, p)
    decreases |p|
  {
    if p != [] {
      MkdirMakes(fs, Parent(p));
      var above, made := MkdirAll(fs, Parent(p)).fs, MkdirAll(fs, p).fs;
      forall n | 0 < n <= |p| ensures p[..n] in made && made[p[..n]] == Folder {
        if n < |p| { assert Parent(p)[..n] == p[..n]; } else { assert p[..n] == p; }
      }
    }
  }
}
