/** Sequences without repetition, as the contents of linked lists. */
module Lists {

  ghost predicate Distinct(s: seq<int>) {
    forall i, j | 0 <= i < j < |s| :: s[i] != s[j]
  }

  function RemoveAt<T>(s: seq<T>, k: nat): (r: seq<T>)
    requires k < |s|
    ensures |r| == |s| - 1
    ensures forall i | 0 <= i < |r| :: r[i] == s[if i < k then i else i + 1]
  {
    s[..k] + s[k + 1..]
  }

  function Index(s: seq<int>, x: int): (k: nat)
    requires x in s
    ensures k < |s| && s[k] == x
  {
    if s[0] == x then 0 else 1 + Index(s[1..], x)
  }

  function Without(s: seq<int>, x: int): seq<int>
    requires x in s
  {
    RemoveAt(s, Index(s, x))
  }

  function Renamed(s: seq<int>, x: int, y: int): seq<int>
    requires x in s
  {
    s[Index(s, x) := y]
  }

  lemma IndexUnique(s: seq<int>, k: nat)
    requires Distinct(s) && k < |s|
    ensures s[k] in s && Index(s, s[k]) == k
  {
  }

  lemma WithoutElements(s: seq<int>, x: int)
    requires x in s && Distinct(s)
    ensures Distinct(Without(s, x))
    ensures forall y :: y in Without(s, x) <==> y in s && y != x
  {
    var k, r := Index(s, x), Without(s, x);
    forall y | y in s && y != x ensures y in r {
      var i :| 0 <= i < |s| && s[i] == y;
      assert r[if i < k then i else i - 1] == y;
    }
  }

  lemma RenamedElements(s: seq<int>, x: int, y: int)
    requires x in s && y !in s && Distinct(s)
    ensures Distinct(Renamed(s, x, y))
    ensures forall z :: z in Renamed(s, x, y) <==> (z in s && z != x) || z == y
  {
    var k, r := Index(s, x), Renamed(s, x, y);
    forall z | z in s && z != x ensures z in r {
      var i :| 0 <= i < |s| && s[i] == z;
      assert r[i] == z;
    }
    assert r[k] == y;
  }

  lemma AddedElements(s: seq<int>, x: int)
    requires x !in s && Distinct(s)
    ensures Distinct([x] + s)
    ensures forall y :: y in [x] + s <==> y == x || y in s
  {
    var r := [x] + s;
    assert r[0] == x;
    assert forall i | 0 < i < |r| :: r[i] == s[i - 1];
  }

  lemma AppendDistinct(s: seq<int>, x: int)
    requires Distinct(s) && x !in s
    ensures Distinct(s + [x])
    ensures forall y :: y in s + [x] <==> y in s || y == x
  {
    assert (s + [x])[|s|] == x;
    assert forall i | 0 <= i < |s| :: (s + [x])[i] == s[i] && s[i] in s;
  }

  lemma TailDistinct(s: seq<int>)
    requires Distinct(s) && s != []
    ensures Distinct(s[1..]) && forall x :: x in s[1..] <==> x in s && x != s[0]
    ensures s[0] in s && s[0] !in s[1..]
  {
    var r := s[1..];
    assert forall i | 0 <= i < |r| :: r[i] == s[i + 1];
    forall x | x in s && x != s[0] ensures x in r {
      var i :| 0 <= i < |s| && s[i] == x;
      assert r[i - 1] == x;
    }
  }
}
