/** The elements of a sequence as a set. */
module Sequences {
  ghost function Elements<T>(items: seq<T>): set<T> {
    set i | 0 <= i < |items| :: items[i]
  }

  ghost predicate AllDifferent<T(!new)>(items: seq<T>) {
    forall i, j :: 0 <= i < j < |items| ==> items[i] != items[j]
  }

  lemma {:induction false} DifferentCount<T(!new)>(items: seq<T>)
    requires AllDifferent(items)
    ensures |Elements(items)| == |items|
  {
    if items != [] {
      var n := |items| - 1;
      DifferentCount(items[..n]);
      assert Elements(items) == Elements(items[..n]) + {items[n]};
    }
  }

  lemma InsertedElements<T>(items: seq<T>, k: nat, item: T)
    requires k <= |items|
    ensures Elements(items[..k] + [item] + items[k..]) == Elements(items) + {item}
  {
    var more := items[..k] + [item] + items[k..];
    forall i | 0 <= i < |items|
      ensures items[i] == more[if i < k then i else i + 1]
    {
    }
    assert more[k] == item;
    forall i | 0 <= i < |more|
      ensures more[i] == if i == k then item else items[if i < k then i else i - 1]
    {
    }
  }
}
