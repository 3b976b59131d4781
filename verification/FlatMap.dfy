/** The order in which a flat map is walked: its keys, ascending. Also sequences without repetition. */
module FlatMap {

  // The keys are 64-bit numbers.
  type Id = k: int | -0x8000_0000_0000_0000 <= k < 0x8000_0000_0000_0000

  lemma SomeElement<T>(s: set<T>) returns (x: T)
    requires s != {}
    ensures x in s
  {
    x :| x in s;
  }

  lemma NoElement(keys: set<Id>)
    requires forall k :: k !in keys
    ensures keys == {}
  {
    if keys != {} {
      var k := SomeElement(keys);
    }
  }

  predicate IsLeast(keys: set<Id>, k: Id) {
    k in keys && forall j :: j in keys ==> k <= j
  }

  lemma HasLeast(keys: set<Id>, k: Id) returns (l: Id)
    requires k in keys
    ensures IsLeast(keys, l)
    decreases keys
  {
    var others := keys - {k};
    l := k;
    if j :| j in others {
      var m := HasLeast(others, j);
      l := if m < k then m else k;
      assert forall i :: i in keys ==> i == k || i in others;
    } else {
      assert forall i :: i in keys ==> i == k || i in others;
    }
  }

  lemma SomeLeast(keys: set<Id>)
    requires keys != {}
    ensures exists k :: IsLeast(keys, k)
  {
    var k := SomeElement(keys);
    var l := HasLeast(keys, k);
  }

  function Least(keys: set<Id>): (k: Id)
    requires keys != {}
    ensures IsLeast(keys, k)
  {
    SomeLeast(keys);
    var k :| IsLeast(keys, k);
    k
  }

  function Ascending(keys: set<Id>): (s: seq<Id>)
  {
    if keys == {} then [] else [Least(keys)] + Ascending(keys - {Least(keys)})
  }

  predicate Distinct<T(==)>(s: seq<T>) {
    forall i, j :: 0 <= i < j < |s| ==> s[i] != s[j]
  }

  predicate Rising(s: seq<Id>) {
    forall i, j :: 0 <= i < j < |s| ==> s[i] < s[j]
  }

  lemma {:induction false} AscendingLists(keys: set<Id>)
    ensures forall k :: k in Ascending(keys) <==> k in keys
    ensures Rising(Ascending(keys)) && Distinct(Ascending(keys))
  {
    if keys != {} {
      var rest := keys - {Least(keys)};
      AscendingLists(rest);
      var (s, t) := (Ascending(keys), Ascending(rest));
      assert s == [Least(keys)] + t;
      forall i, j | 0 <= i < j < |s|
        ensures s[i] < s[j]
      {
        assert s[j] == t[j - 1] && t[j - 1] in t;
      }
    }
  }

  lemma DistinctConcat<T>(a: seq<T>, b: seq<T>)
    requires Distinct(a) && Distinct(b) && forall x :: x in a ==> x !in b
    ensures Distinct(a + b)
  {
    var s := a + b;
    forall i, j | 0 <= i < j < |s|
      ensures s[i] != s[j]
    {
      assert i < |a| ==> s[i] == a[i] && a[i] in a;
      assert j >= |a| ==> s[j] == b[j - |a|] && b[j - |a|] in b;
    }
  }

  // There is one ascending list of a set.
  lemma {:induction false} RisingIsAscending(s: seq<Id>, keys: set<Id>)
    requires Rising(s) && forall k :: k in s <==> k in keys
    ensures s == Ascending(keys)
  {
    if s == [] {
      NoElement(keys);
    } else {
      assert s[0] in s;
      assert Least(keys) == s[0];
      forall k
        ensures k in s[1..] <==> k in keys - {s[0]}
      {
        assert s == [s[0]] + s[1..];
        assert s[0] !in s[1..];
      }
      RisingIsAscending(s[1..], keys - {s[0]});
    }
  }
}
