/**
 What an archive does, member by member: which members are accepted, and what
 the target holds once all of them were (guest/agent/tardir.go).
 */
module TarMembers {
  import opened Wrappers
  import opened Paths
  import opened TarDir

  // The path a member means below the target.
  function PathIn(dir: Path, m: Member): Path { dir + Parts(m.name) }

  ghost predicate NoFileAbove(fs: Files, p: Path) { forall n :: 0 < n < |p| ==> !IsFile(fs, p[..n]) }

  lemma {:induction false} MkdirExactly(fs: Files, p: Path)
    ensures MkdirAll(fs, p).ok <==> NoFileAbove(fs, p) && !IsFile(fs, p)
    decreases |p|
  {
    if p != [] {
      var up := Parent(p);
      MkdirExactly(fs, up);
      MkdirChanges(fs, up);
      forall n | 0 < n < |up| ensures up[..n] == p[..n] {}
      if NoFileAbove(fs, p) {
        forall n | 0 < n < |up| ensures !IsFile(fs, up[..n]) { assert !IsFile(fs, p[..n]); }
        assert up == p[..|p| - 1];
      }
      if NoFileAbove(fs, up) && !IsFile(fs, up) {
        forall n | 0 < n < |p| ensures !IsFile(fs, p[..n]) {
          if n < |up| { assert !IsFile(fs, up[..n]); } else { assert p[..n] == up; }
        }
      }
    }
  }

  // A member is accepted if and only if it is a directory or a regular file with
  // a relative name that does not climb, no file is in the way, and a regular
  // file does not come where a directory is.
  lemma AcceptsExactly(dir: Path, fs: Files, m: Member)
    requires AllPlain(dir) && dir != []
    ensures ExtractOne(fs, Absolute(dir), m).ok <==>
      && m.kind != OtherMember && m.name != "" && m.name[0] != '/' && !(Parts(m.name) != [] && Parts(m.name)[0] == "..")
      && NoFileAbove(fs, PathIn(dir, m))
      && if m.kind == DirMember then !IsFile(fs, PathIn(dir, m))
         else !(PathIn(dir, m) in fs && fs[PathIn(dir, m)] == Folder)
  {
    SafeJoinConfines(dir, m.name);
    if SafeJoin(Absolute(dir), m.name).Ok? {
      var p := PathIn(dir, m);
      AbsoluteIsClean(p);
      if m.kind.DirMember? { MkdirExactly(fs, p); }
      if m.kind.FileMember? { FileAccepted(fs, p, m.data); }
    }
  }

  lemma FileAccepted(fs: Files, p: Path, data: seq<int>)
    requires p != []
    ensures var above := MkdirAll(fs, Parent(p));
      (above.ok && WriteRegular(above.fs, p, data).ok) <==> NoFileAbove(fs, p) && !(p in fs && fs[p] == Folder)
  {
    var up := Parent(p);
    MkdirExactly(fs, up);
    MkdirChanges(fs, up);
    forall n | 0 < n < |up| ensures up[..n] == p[..n] {}
    if NoFileAbove(fs, p) {
      forall n | 0 < n < |up| ensures !IsFile(fs, up[..n]) { assert !IsFile(fs, p[..n]); }
      assert up == p[..|p| - 1];
    }
    if NoFileAbove(fs, up) && !IsFile(fs, up) {
      forall n | 0 < n < |p| ensures !IsFile(fs, p[..n]) {
        if n < |up| { assert !IsFile(fs, up[..n]); } else { assert p[..n] == up; }
      }
    }
    assert !Below(p, up);
  }

  // What an accepted member does: a file is there with the first 64 MiB of its
  // data, a directory is there, and nothing else that was there changes.
  ghost predicate Applied(dir: Path, fs: Files, fs': Files, m: Member) {
    var p := PathIn(dir, m);
    && p in fs'
    && (m.kind == DirMember ==> fs'[p] == Folder)
    && (m.kind == FileMember ==>
          fs'[p] == Bytes(if |m.data| <= 67_108_864 then m.data else m.data[..67_108_864]))
    && forall q :: q in fs && !(m.kind == FileMember && q == p) ==> q in fs' && fs'[q] == fs[q]
  }

  lemma AcceptedIsApplied(dir: Path, fs: Files, m: Member)
    requires AllPlain(dir) && dir != [] && ExtractOne(fs, Absolute(dir), m).ok
    ensures Applied(dir, fs, ExtractOne(fs, Absolute(dir), m).fs, m)
  {
    SafeJoinConfines(dir, m.name);
    var p := PathIn(dir, m);
    AbsoluteIsClean(p);
    MkdirChanges(fs, p);
    MkdirChanges(fs, Parent(p));
  }

  // A path that no file member means keeps what it holds.
  lemma {:induction false} Untouched(dir: Path, fs: Files, members: seq<Member>, q: Path)
    requires AllPlain(dir) && dir != [] && q in fs && ExtractAll(fs, Absolute(dir), members).ok
    requires forall i :: 0 <= i < |members| ==> !(members[i].kind == FileMember && PathIn(dir, members[i]) == q)
    ensures var fs' := ExtractAll(fs, Absolute(dir), members).fs; q in fs' && fs'[q] == fs[q]
    decreases |members|
  {
    if members != [] {
      var one := ExtractOne(fs, Absolute(dir), members[0]);
      AcceptedIsApplied(dir, fs, members[0]);
      assert one.fs[q] == fs[q];
      Untouched(dir, one.fs, members[1..], q);
    }
  }

  // Once a path is a directory it stays one.
  lemma {:induction false} FolderStays(dir: Path, fs: Files, members: seq<Member>, q: Path)
    requires AllPlain(dir) && dir != [] && q in fs && fs[q] == Folder && ExtractAll(fs, Absolute(dir), members).ok
    ensures var fs' := ExtractAll(fs, Absolute(dir), members).fs; q in fs' && fs'[q] == Folder
    decreases |members|
  {
    if members != [] {
      var one := ExtractOne(fs, Absolute(dir), members[0]);
      AcceptsExactly(dir, fs, members[0]);
      AcceptedIsApplied(dir, fs, members[0]);
      FolderStays(dir, one.fs, members[1..], q);
    }
  }

  // After an archive was extracted whole, every directory member is there, and
  // every path that file members mean holds what the last of them carries,
  // whatever was there before.
  lemma {:induction false} LastWriteWins(dir: Path, fs: Files, members: seq<Member>, i: nat)
    requires AllPlain(dir) && dir != [] && i < |members| && ExtractAll(fs, Absolute(dir), members).ok
    ensures var fs', m := ExtractAll(fs, Absolute(dir), members).fs, members[i];
      var p := PathIn(dir, m);
      && (m.kind == DirMember || m.kind == FileMember) && p in fs'
      && (m.kind == DirMember ==> fs'[p] == Folder)
      && (m.kind == FileMember && (forall j :: i < j < |members| && members[j].kind == FileMember ==>
                                     Parts(members[j].name) != Parts(m.name)) ==>
            fs'[p] == Bytes(if |m.data| <= 67_108_864 then m.data else m.data[..67_108_864]))
    decreases i
  {
    var one, rest := ExtractOne(fs, Absolute(dir), members[0]), members[1..];
    if i > 0 {
      LastWriteWins(dir, one.fs, rest, i - 1);
      assert rest[i - 1] == members[i];
      assert forall j :: i < j < |members| ==> rest[j - 1] == members[j];
    } else {
      FirstWrite(dir, fs, members);
    }
  }

  lemma FirstWrite(dir: Path, fs: Files, members: seq<Member>)
    requires AllPlain(dir) && dir != [] && members != [] && ExtractAll(fs, Absolute(dir), members).ok
    ensures var fs', m := ExtractAll(fs, Absolute(dir), members).fs, members[0];
      var p := PathIn(dir, m);
      && (m.kind == DirMember || m.kind == FileMember) && p in fs'
      && (m.kind == DirMember ==> fs'[p] == Folder)
      && (m.kind == FileMember && (forall j :: 0 < j < |members| && members[j].kind == FileMember ==>
                                     Parts(members[j].name) != Parts(m.name)) ==>
            fs'[p] == Bytes(if |m.data| <= 67_108_864 then m.data else m.data[..67_108_864]))
  {
    var one, rest, m := ExtractOne(fs, Absolute(dir), members[0]), members[1..], members[0];
    var p := PathIn(dir, m);
    AcceptsExactly(dir, fs, m);
    AcceptedIsApplied(dir, fs, m);
    StaysThere(dir, one.fs, rest, p);
    if m.kind == DirMember {
      FolderStays(dir, one.fs, rest, p);
    } else if forall j :: 0 < j < |members| && members[j].kind == FileMember ==>
                Parts(members[j].name) != Parts(m.name) {
      forall j | 0 <= j < |rest| && rest[j].kind == FileMember ensures PathIn(dir, rest[j]) != p {
        assert rest[j] == members[j + 1];
        assert PathIn(dir, rest[j])[|dir|..] == Parts(rest[j].name) && p[|dir|..] == Parts(m.name);
      }
      Untouched(dir, one.fs, rest, p);
    }
  }

  lemma {:induction false} StaysThere(dir: Path, fs: Files, members: seq<Member>, q: Path)
    requires AllPlain(dir) && dir != [] && q in fs && ExtractAll(fs, Absolute(dir), members).ok
    ensures q in ExtractAll(fs, Absolute(dir), members).fs
    decreases |members|
  {
    if members != [] {
      AcceptedIsApplied(dir, fs, members[0]);
      StaysThere(dir, ExtractOne(fs, Absolute(dir), members[0]).fs, members[1..], q);
    }
  }

  // The members of a directory with a file in it, a file beside it and a link.
  lemma MembersWrittenOut(data: seq<int>, more: seq<int>)
    ensures Tar([], Plant("a", Dir(Plant("b", File(data), Empty)), Plant("c", File(more), Plant("l", Special, Empty))))
      == [Member("a/", DirMember, []), Member("a/b", FileMember, data), Member("c", FileMember, more)]
  {
    var l := Plant("l", Special, Empty);
    var inner := Plant("b", File(data), Empty);
    assert [] + ["a"] == ["a"] && ["a"] + ["b"] == ["a", "b"] && [] + ["c"] == ["c"] && ["a", "b"][1..] == ["b"];
    assert Join(["a", "b"]) == "a/b";
    assert Tar([], l) == [];
    assert Tar(["a"], inner) == [Member("a/b", FileMember, data)];
    assert Tar([], Plant("c", File(more), l)) == [Member("c", FileMember, more)];
    assert Join(["a"]) + "/" == "a/";
    assert TarNode(["a"], Dir(inner)) == [Member("a/", DirMember, []), Member("a/b", FileMember, data)];
  }
}
