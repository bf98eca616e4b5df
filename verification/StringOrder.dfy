/**
 The order of strings in ordered maps and sorted lists, and lists kept strictly ascending.
 */
module StringOrder {
  /** Lexicographic order of the characters. */
  predicate Less(a: string, b: string) {
    b != "" && (a == "" || a[0] < b[0] || (a[0] == b[0] && Less(a[1..], b[1..])))
  }

  lemma {:induction false} LessIsTransitive(a: string, b: string, c: string)
    requires Less(a, b) && Less(b, c)
    ensures Less(a, c)
  {
    if a != "" && a[0] == b[0] == c[0] {
      LessIsTransitive(a[1..], b[1..], c[1..]);
    }
  }

  lemma {:induction false} LessIsTotal(a: string, b: string)
    ensures Less(a, b) || a == b || Less(b, a)
    ensures !(Less(a, b) && Less(b, a)) && !Less(a, a)
  {
    if a != "" && b != "" {
      LessIsTotal(a[1..], b[1..]);
      assert a == [a[0]] + a[1..] && b == [b[0]] + b[1..];
    }
    if a != "" {
      LessIsTotal(a[1..], a[1..]);
    }
  }

  /** Each element is below its right-hand neighbour: what a walk over adjacent pairs establishes. */
  predicate AscendingNeighbours(s: seq<string>) {
    forall i :: 0 < i < |s| ==> Less(s[i - 1], s[i])
  }

  lemma {:induction false} NeighboursOrderAll(s: seq<string>, i: nat, j: nat)
    requires AscendingNeighbours(s) && i < j < |s|
    ensures Less(s[i], s[j])
  {
    if i < j - 1 {
      NeighboursOrderAll(s, i, j - 1);
      LessIsTransitive(s[i], s[j - 1], s[j]);
    }
  }

  predicate Distinct(s: seq<string>) {
    forall i, j :: 0 <= i < j < |s| ==> s[i] != s[j]
  }

  lemma DistinctTail(s: seq<string>)
    requires Distinct(s) && s != []
    ensures Distinct(s[1..]) && s[0] !in s[1..] && s == [s[0]] + s[1..]
  {
    var rest := s[1..];
    assert forall i :: 0 <= i < |rest| ==> rest[i] == s[i + 1];
  }

  lemma AscendingIsDistinct(s: seq<string>)
    requires AscendingNeighbours(s)
    ensures Distinct(s)
  {
    forall i, j | 0 <= i < j < |s|
      ensures s[i] != s[j]
    {
      NeighboursOrderAll(s, i, j);
      LessIsTotal(s[i], s[j]);
    }
  }

  /** A non-empty finite set has a least element. */
  lemma {:induction false} LeastExists(ids: set<string>)
    requires ids != {}
    ensures exists least :: least in ids && IsLeast(least, ids)
  {
    var x :| x in ids;
    if ids == {x} {
      assert IsLeast(x, ids);
    } else {
      LeastExists(ids - {x});
      var y :| y in ids - {x} && IsLeast(y, ids - {x});
      LessIsTotal(x, y);
      if Less(x, y) {
        forall z | z in ids && z != x
          ensures Less(x, z)
        {
          if z != y {
            LessIsTransitive(x, y, z);
          }
        }
        assert IsLeast(x, ids);
      } else {
        assert IsLeast(y, ids);
      }
    }
  }

  predicate IsLeast(least: string, ids: set<string>) {
    forall z :: z in ids && z != least ==> Less(least, z)
  }
}
