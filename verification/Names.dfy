// Names in the byte order Go sorts strings in.
module Names {
  import opened Utf8
  import opened Sorting

  predicate StringLe(a: string, b: string) {
    !Less(b, a)
  }

  lemma StringLePreorder()
    ensures TotalPreorder(StringLe)
  {
    forall x: string, y: string ensures StringLe(x, y) || StringLe(y, x) {
      LessIsStrictTotal(x, y);
    }
    forall x: string, y: string, z: string | StringLe(x, y) && StringLe(y, z) ensures StringLe(x, z) {
      LessIsStrictTotal(x, y);
      LessIsStrictTotal(y, z);
      LessIsStrictTotal(x, z);
      if Less(z, x) && x != y && y != z {
        BytesLessTransitive(Encode(x), Encode(y), Encode(z));
      }
    }
  }

  method SortedNames(keys: set<string>) returns (names: seq<string>)
    ensures Sorted(StringLe, names) && Distinct(names)
    ensures forall n :: n in names <==> n in keys
  {
    var listed := Enumerate(keys);
    names := Sort(StringLe, listed);
    StringLePreorder();
    SortSorts(StringLe, listed);
    SortMembers(StringLe, listed);
    DistinctByCount(listed, names);
  }
}
