/** `sort.Strings`: ascending in the byte-wise order, as a permutation of the input. */
module Sorting {
  import Text

  predicate AtMost(a: string, b: string) {
    Text.CompareText(a, b) <= 0
  }

  predicate Sorted(names: seq<string>) {
    forall i, j :: 0 <= i < j < |names| ==> AtMost(names[i], names[j])
  }

  method SortStrings(names: seq<string>) returns (sorted: seq<string>)
    ensures Sorted(sorted) && multiset(sorted) == multiset(names)
  {
    sorted := [];
    for i := 0 to |names|
      invariant Sorted(sorted) && multiset(sorted) == multiset(names[..i])
    {
      assert names[..i + 1] == names[..i] + [names[i]];
      sorted := Insert(sorted, names[i]);
    }
    assert names[..|names|] == names;
  }

  method Insert(names: seq<string>, x: string) returns (r: seq<string>)
    requires Sorted(names)
    ensures Sorted(r) && multiset(r) == multiset(names) + multiset{x}
  {
    hide AtMost;
    var k := |names|;
    while k > 0 && !AtMost(names[k - 1], x)
      invariant 0 <= k <= |names|
      invariant forall j :: k <= j < |names| ==> AtMost(x, names[j])
    {
      Total(names[k - 1], x);
      k := k - 1;
    }
    forall i | 0 <= i < k ensures AtMost(names[i], x) {
      if i < k - 1 {
        Transitive(names[i], names[k - 1], x);
      }
    }
    r := names[..k] + [x] + names[k..];
    assert names == names[..k] + names[k..];
  }

  lemma Total(a: string, b: string)
    ensures AtMost(a, b) || AtMost(b, a)
  {
    Text.CompareTextLaws(a, b);
  }

  lemma Transitive(a: string, b: string, c: string)
    requires AtMost(a, b) && AtMost(b, c)
    ensures AtMost(a, c)
  {
    Text.CompareTextTransitive(a, b, c);
  }
}
