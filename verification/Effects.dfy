/** How often an effect happened, and how often the durable file says it was attempted and completed. */
module Effects {

  datatype Pair = Pair(attempts: nat, completions: nat)

  /** What a stored counter map says of an effect; a missing key counts nothing. */
  function Of<T(==)>(counters: map<T, Pair>, effect: T): Pair {
    if effect in counters then counters[effect] else Pair(0, 0)
  }

  function Attempted<T(==)>(counters: map<T, Pair>, effect: T): map<T, Pair> {
    counters[effect := Of(counters, effect).(attempts := Of(counters, effect).attempts + 1)]
  }

  function Completed<T(==)>(counters: map<T, Pair>, effect: T): map<T, Pair> {
    counters[effect := Of(counters, effect).(completions := 1)]
  }

  ghost function Times<T>(performed: seq<T>, effect: T): nat {
    if performed == [] then 0
    else Times(performed[..|performed| - 1], effect) + if performed[|performed| - 1] == effect then 1 else 0
  }

  lemma TimesAppend<T>(performed: seq<T>, last: T, effect: T)
    ensures Times(performed + [last], effect) == Times(performed, effect) + if last == effect then 1 else 0
  {
    assert (performed + [last])[..|performed|] == performed;
  }

  /** Dropping every occurrence of one effect. */
  ghost function Without<T>(performed: seq<T>, effect: T): seq<T> {
    if performed == [] then []
    else
      var rest := Without(performed[..|performed| - 1], effect);
      if performed[|performed| - 1] == effect then rest else rest + [performed[|performed| - 1]]
  }

  lemma {:induction false} WithoutCounts<T>(performed: seq<T>, effect: T)
    ensures |performed| == |Without(performed, effect)| + Times(performed, effect)
    ensures forall e <- Without(performed, effect) :: e in performed && e != effect
    ensures forall e: T | e != effect :: Times(Without(performed, effect), e) == Times(performed, e)
  {
    if performed != [] {
      var before, last := performed[..|performed| - 1], performed[|performed| - 1];
      WithoutCounts(before, effect);
      assert performed == before + [last];
      if last != effect {
        forall e: T ensures Times(Without(before, effect) + [last], e) == Times(Without(before, effect), e) + if last == e then 1 else 0 {
          TimesAppend(Without(before, effect), last, e);
        }
      }
    }
  }

  /** Effects drawn from a finite set, each at most `bound` times, are at most `bound` per member. */
  lemma {:induction false} AtMostEach<T>(performed: seq<T>, members: set<T>, bound: nat)
    requires forall e <- performed :: e in members
    requires forall e: T :: Times(performed, e) <= bound
    ensures |performed| <= bound * |members|
    decreases |performed|
  {
    if performed != [] {
      var last := performed[|performed| - 1];
      var rest := Without(performed, last);
      WithoutCounts(performed, last);
      assert Times(performed, last) > 0;
      forall e: T ensures Times(rest, e) <= bound {
        if e != last {
        } else {
          NotThere(rest, last);
        }
      }
      AtMostEach(rest, members - {last}, bound);
      assert bound * |members| == bound * |members - {last}| + bound;
    }
  }

  lemma {:induction false} NotThere<T>(performed: seq<T>, effect: T)
    requires effect !in performed
    ensures Times(performed, effect) == 0
  {
    if performed != [] {
      NotThere(performed[..|performed| - 1], effect);
    }
  }
}
