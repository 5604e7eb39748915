/** Lists of ids: removing one, and never listing one twice. */
module Sequences {
  /** The list without `x`, in order. */
  function Without<T(==)>(items: seq<T>, x: T): seq<T> {
    if items == [] then []
    else
      var before, last := Without(items[..|items| - 1], x), items[|items| - 1];
      if last == x then before else before + [last]
  }

  ghost predicate NoRepeats<T>(items: seq<T>) {
    forall i, j | 0 <= i < j < |items| :: items[i] != items[j]
  }

  lemma NoRepeatsSnoc<T>(items: seq<T>, last: T)
    ensures NoRepeats(items + [last]) <==> NoRepeats(items) && last !in items
  {
    var all := items + [last];
    assert forall i | 0 <= i < |items| :: all[i] == items[i];
    assert NoRepeats(all) ==> forall i | 0 <= i < |items| :: items[i] != all[|items|];
  }

  lemma WithoutAppend<T>(items: seq<T>, last: T, x: T)
    ensures Without(items + [last], x) == if last == x then Without(items, x) else Without(items, x) + [last]
  {
    assert (items + [last])[..|items|] == items;
  }

  lemma {:induction false} WithoutAbsent<T>(items: seq<T>, x: T)
    requires x !in items
    ensures Without(items, x) == items
  {
    if items != [] {
      WithoutAbsent(items[..|items| - 1], x);
      assert items == items[..|items| - 1] + [items[|items| - 1]];
    }
  }

  lemma {:induction false} WithoutMembers<T>(items: seq<T>, x: T)
    ensures |Without(items, x)| <= |items|
    ensures forall y :: y in Without(items, x) <==> y in items && y != x
    ensures NoRepeats(items) ==> NoRepeats(Without(items, x))
  {
    if items != [] {
      var before, last := items[..|items| - 1], items[|items| - 1];
      WithoutMembers(before, x);
      assert items == before + [last];
      NoRepeatsSnoc(before, last);
      NoRepeatsSnoc(Without(before, x), last);
    }
  }
}
