// Slash-separated paths and their lexical cleaning, as path/filepath does it.
module Paths {
  predicate NoSlash(s: string) { '/' !in s }

  // An ordinary component: a name a directory entry can have.
  predicate Plain(s: string) { s != "" && s != "." && s != ".." && NoSlash(s) }

  predicate AllPlain(parts: seq<string>) { forall i :: 0 <= i < |parts| ==> Plain(parts[i]) }
  predicate NoSlashes(parts: seq<string>) { forall i :: 0 <= i < |parts| ==> NoSlash(parts[i]) }

  function Split(s: string): (parts: seq<string>)
    ensures parts != [] && NoSlashes(parts)
  {
    if s == "" then [""]
    else if s[0] == '/' then [""] + Split(s[1..])
    else var rest := Split(s[1..]); [[s[0]] + rest[0]] + rest[1..]
  }

  function Join(parts: seq<string>): string {
    if parts == [] then "" else if |parts| == 1 then parts[0] else parts[0] + "/" + Join(parts[1..])
  }

  lemma {:induction false} SplitWord(s: string)
    requires NoSlash(s)
    ensures Split(s) == [s]
  {
    if s != "" {
      assert NoSlash(s[1..]);
      SplitWord(s[1..]);
      assert [s[0]] + s[1..] == s;
    }
  }

  lemma Regroup(head: string, rest: seq<string>, more: seq<string>)
    requires rest != []
    ensures [head] + (rest + more)[1..] == ([head] + rest[1..]) + more
    ensures [head] + (rest + more) == ([head] + rest) + more
  {
  }

  lemma {:induction false} SplitConcat(a: string, b: string)
    ensures Split(a + "/" + b) == Split(a) + Split(b)
  {
    var s := a + "/" + b;
    if a == "" {
      assert s == "/" + b && s[1..] == b;
    } else {
      assert s[0] == a[0] && s[1..] == a[1..] + "/" + b;
      SplitConcat(a[1..], b);
      var rest := Split(a[1..]);
      Regroup(if a[0] == '/' then "" else [a[0]] + rest[0], rest, Split(b));
    }
  }

  lemma {:induction false} SplitJoin(parts: seq<string>)
    requires parts != [] && NoSlashes(parts)
    ensures Split(Join(parts)) == parts
  {
    SplitWord(parts[0]);
    if |parts| == 1 {
      assert parts == [parts[0]];
    } else {
      SplitJoin(parts[1..]);
      SplitConcat(parts[0], Join(parts[1..]));
    }
  }

  lemma {:induction false} JoinSplit(s: string)
    ensures Join(Split(s)) == s
  {
    if s != "" {
      JoinSplit(s[1..]);
      var rest := Split(s[1..]);
      if s[0] == '/' {
        assert ([""] + rest)[1..] == rest;
        assert "" + "/" + s[1..] == s;
      } else {
        var first := [s[0]] + rest[0];
        assert ([first] + rest[1..])[1..] == rest[1..];
        if |rest| > 1 {
          assert first + "/" + Join(rest[1..]) == [s[0]] + (rest[0] + "/" + Join(rest[1..]));
        }
        assert [s[0]] + s[1..] == s;
      }
    }
  }

  lemma {:induction false} JoinConcat(a: seq<string>, b: seq<string>)
    requires a != [] && b != []
    ensures Join(a + b) == Join(a) + "/" + Join(b)
  {
    if |a| == 1 {
      assert (a + b)[1..] == b;
    } else {
      assert (a + b)[1..] == a[1..] + b;
      JoinConcat(a[1..], b);
      assert a[0] + "/" + (Join(a[1..]) + "/" + Join(b)) == (a[0] + "/" + Join(a[1..])) + "/" + Join(b);
    }
  }

  // --------------------------------------------------------------- cleaning

  // Resolves one component against those kept so far.
  function Keep(kept: seq<string>, p: string, rooted: bool): seq<string> {
    if p == "" || p == "." then kept
    else if p != ".." then kept + [p]
    else if kept != [] && kept[|kept| - 1] != ".." then kept[..|kept| - 1]
    else if rooted then kept
    else kept + [p]
  }

  function Resolve(kept: seq<string>, parts: seq<string>, rooted: bool): seq<string>
    decreases parts
  {
    if parts == [] then kept else Resolve(Keep(kept, parts[0], rooted), parts[1..], rooted)
  }

  predicate Rooted(s: string) { s != "" && s[0] == '/' }

  function Parts(s: string): seq<string> { Resolve([], Split(s), Rooted(s)) }

  function Clean(s: string): string {
    var parts := Parts(s);
    if Rooted(s) then "/" + Join(parts) else if parts == [] then "." else Join(parts)
  }

  // What is kept is some ".." (none when rooted), then ordinary components.
  ghost predicate Resolved(kept: seq<string>, rooted: bool) {
    exists n :: 0 <= n <= |kept| && (rooted ==> n == 0) && UpThenDown(kept, n)
  }

  predicate UpThenDown(kept: seq<string>, n: int) {
    && 0 <= n <= |kept|
    && (forall i :: 0 <= i < n ==> kept[i] == "..")
    && (forall i :: n <= i < |kept| ==> Plain(kept[i]))
  }

  lemma {:induction false} ResolveShape(kept: seq<string>, parts: seq<string>, rooted: bool)
    requires Resolved(kept, rooted) && NoSlashes(parts)
    ensures Resolved(Resolve(kept, parts, rooted), rooted)
    decreases parts
  {
    if parts != [] {
      var p := parts[0];
      var n :| 0 <= n <= |kept| && (rooted ==> n == 0) && UpThenDown(kept, n);
      assert NoSlashes(parts[1..]);
      if p == "" || p == "." {
        ResolveShape(kept, parts[1..], rooted);
      } else if p != ".." {
        assert UpThenDown(kept + [p], n);
        ResolveShape(kept + [p], parts[1..], rooted);
      } else if kept != [] && kept[|kept| - 1] != ".." {
        assert UpThenDown(kept[..|kept| - 1], n);
        ResolveShape(kept[..|kept| - 1], parts[1..], rooted);
      } else if rooted {
        ResolveShape(kept, parts[1..], rooted);
      } else {
        assert UpThenDown(kept + [p], |kept| + 1);
        ResolveShape(kept + [p], parts[1..], rooted);
      }
    }
  }

  // Cleaned paths have ordinary components, unless they climb out at the start.
  lemma PartsShape(s: string)
    ensures var parts := Parts(s); AllPlain(parts) || (!Rooted(s) && parts[0] == "..")
  {
    assert UpThenDown([], 0) && Resolved([], Rooted(s));
    ResolveShape([], Split(s), Rooted(s));
    var parts := Parts(s);
    var n :| 0 <= n <= |parts| && (Rooted(s) ==> n == 0) && UpThenDown(parts, n);
  }

  lemma {:induction false} ResolveConcat(kept: seq<string>, a: seq<string>, b: seq<string>, rooted: bool)
    ensures Resolve(kept, a + b, rooted) == Resolve(Resolve(kept, a, rooted), b, rooted)
    decreases a
  {
    if a == [] {
      assert a + b == b;
    } else {
      assert (a + b)[1..] == a[1..] + b;
      ResolveConcat(Keep(kept, a[0], rooted), a[1..], b, rooted);
    }
  }

  lemma {:induction false} ResolvePlain(kept: seq<string>, parts: seq<string>, rooted: bool)
    requires AllPlain(parts)
    ensures Resolve(kept, parts, rooted) == kept + parts
    decreases parts
  {
    if parts == [] {
      assert kept + parts == kept;
    } else {
      ResolvePlain(kept + [parts[0]], parts[1..], rooted);
      assert kept + [parts[0]] + parts[1..] == kept + parts;
    }
  }

  // ------------------------------------------------------ clean absolute paths

  function Absolute(parts: seq<string>): string { "/" + Join(parts) }

  lemma AbsoluteSplit(parts: seq<string>)
    requires parts != [] && NoSlashes(parts)
    ensures Split(Absolute(parts)) == [""] + parts
  {
    SplitJoin(parts);
    SplitConcat("", Join(parts));
    assert "" + "/" + Join(parts) == Absolute(parts);
  }

  lemma AbsoluteIsClean(parts: seq<string>)
    requires AllPlain(parts) && parts != []
    ensures Parts(Absolute(parts)) == parts && Clean(Absolute(parts)) == Absolute(parts)
  {
    AbsoluteSplit(parts);
    ResolveConcat([], [""], parts, true);
    ResolvePlain([], parts, true);
    assert [] + parts == parts;
  }
}
