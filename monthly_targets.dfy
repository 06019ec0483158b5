/** The monthly targets hook: the in-memory list of targets, kept newest first,
    and the keyed upsert that `setTarget` applies to it. */
module MonthlyTargetsHook {
  import opened Records

  /** The row the hook asks the store to upsert (its `updated_at` is not modelled). */
  datatype UpsertRequest = UpsertRequest(month: int, year: int, target_amount: real)

  /** `t` is the target for the month `month` of `year`: exactly the entries the
      comparator below cannot tell apart from a target for that month. */
  predicate HasKey(t: MonthlyTarget, month: int, year: int)
    ensures HasKey(t, month, year) <==> Compare(t, MonthlyTarget(t.id, month, year, t.target_amount)) == 0
  {
    t.month == month && t.year == year
  }

  // ---------------------------------------------------------------------------
  // Order

  /** The comparator `(a, b) => b.year - a.year || b.month - a.month`: negative when
      `a` goes first. A year difference of 0 is falsy, so the months decide. */
  function Compare(a: MonthlyTarget, b: MonthlyTarget): (r: int)
    ensures r < 0 <==> a.year > b.year || (a.year == b.year && a.month > b.month)
    ensures r == 0 <==> a.year == b.year && a.month == b.month
    ensures r > 0 <==> a.year < b.year || (a.year == b.year && a.month < b.month)
  {
    if b.year - a.year != 0 then b.year - a.year else b.month - a.month
  }

  /** `a` may stand before `b`: a later year, or the same year and a month no earlier. */
  predicate InOrder(a: MonthlyTarget, b: MonthlyTarget)
  {
    a.year > b.year || (a.year == b.year && a.month >= b.month)
  }

  /** The comparator puts `a` first exactly when `a` is of a later year, or of the same
      year and a later month; it ties only on the same month of the same year. */
  lemma CompareMeansOrder(a: MonthlyTarget, b: MonthlyTarget)
    ensures Compare(a, b) < 0 <==> a.year > b.year || (a.year == b.year && a.month > b.month)
    ensures Compare(a, b) == 0 <==> HasKey(a, b.month, b.year)
    ensures Compare(a, b) <= 0 <==> InOrder(a, b)
    ensures Compare(b, a) == -Compare(a, b)
  {
  }

  /** Descending by year, then by month. */
  predicate Sorted(s: seq<MonthlyTarget>)
  {
    forall i, j :: 0 <= i < j < |s| ==> InOrder(s[i], s[j])
  }

  /** Stable insertion of `x`, which came before every element of `s`: it goes in
      front of the first element that does not sort strictly before it. */
  function Insert(x: MonthlyTarget, s: seq<MonthlyTarget>): (r: seq<MonthlyTarget>)
    ensures multiset(r) == multiset(s) + multiset{x}
  {
    if s == [] || Compare(s[0], x) >= 0 then [x] + s
    else
      assert s == [s[0]] + s[1..];
      [s[0]] + Insert(x, s[1..])
  }

  /** Inserting into a list in order gives a list in order. */
  lemma {:induction false} InsertSorted(x: MonthlyTarget, s: seq<MonthlyTarget>)
    requires Sorted(s)
    ensures Sorted(Insert(x, s))
  {
    if s != [] && Compare(s[0], x) < 0 {
      var rest := Insert(x, s[1..]);
      InsertSorted(x, s[1..]);
      forall k | 0 <= k < |rest| ensures InOrder(s[0], rest[k]) {
        assert rest[k] in multiset(rest);
        if rest[k] != x {
          assert rest[k] in s[1..];
          var j :| 0 <= j < |s[1..]| && s[1..][j] == rest[k];
          assert s[j + 1] == rest[k];
        }
      }
      assert Insert(x, s) == [s[0]] + rest;
    }
  }

  /** `Array.prototype.sort` with the comparator above: a stable sort, written as an
      insertion sort. */
  function Sort(s: seq<MonthlyTarget>): (r: seq<MonthlyTarget>)
    ensures multiset(r) == multiset(s)
    ensures Sorted(r)
  {
    if s == [] then []
    else
      assert s == [s[0]] + s[1..];
      var rest := Sort(s[1..]);
      InsertSorted(s[0], rest);
      Insert(s[0], rest)
  }

  /** Sorting a list that is already in order leaves it as it is. */
  lemma {:induction false} SortKeepsSorted(s: seq<MonthlyTarget>)
    requires Sorted(s)
    ensures Sort(s) == s
  {
    if s != [] {
      SortKeepsSorted(s[1..]);
      assert s == [s[0]] + s[1..];
    }
  }

  /** The entries of `s` for the month `month` of `year`, in their order in `s`. */
  function OfKey(s: seq<MonthlyTarget>, month: int, year: int): (r: seq<MonthlyTarget>)
    ensures |r| <= |s|
    ensures forall t :: t in r <==> t in s && HasKey(t, month, year)
  {
    if s == [] then []
    else if HasKey(s[0], month, year) then [s[0]] + OfKey(s[1..], month, year)
    else OfKey(s[1..], month, year)
  }

  /** Inserting `x` puts it in front of the entries that tie with it: every element
      it passes sorts strictly before it, so none has its key. */
  lemma {:induction false} InsertOfKey(x: MonthlyTarget, s: seq<MonthlyTarget>, month: int, year: int)
    ensures OfKey(Insert(x, s), month, year)
            == (if HasKey(x, month, year) then [x] else []) + OfKey(s, month, year)
  {
    if s == [] || Compare(s[0], x) >= 0 {
      assert ([x] + s)[1..] == s;
    } else {
      InsertOfKey(x, s[1..], month, year);
      assert ([s[0]] + Insert(x, s[1..]))[1..] == Insert(x, s[1..]);
    }
  }

  /** The sort is stable: entries the comparator ties (the same month of the same
      year) come out in the order they went in. */
  lemma {:induction false} SortStable(s: seq<MonthlyTarget>, month: int, year: int)
    ensures OfKey(Sort(s), month, year) == OfKey(s, month, year)
  {
    if s != [] {
      SortStable(s[1..], month, year);
      InsertOfKey(s[0], Sort(s[1..]), month, year);
    }
  }

  // ---------------------------------------------------------------------------
  // Keys

  /** Number of entries of `s` for the month `month` of `year`. */
  function CountKey(s: seq<MonthlyTarget>, month: int, year: int): (n: nat)
    ensures n <= |s|
    ensures n == 0 <==> forall t :: t in s ==> !HasKey(t, month, year)
  {
    if s == [] then 0 else (if HasKey(s[0], month, year) then 1 else 0) + CountKey(s[1..], month, year)
  }

  /** Every month of every year has at most one target. */
  predicate UniqueKeys(s: seq<MonthlyTarget>)
  {
    forall t :: t in s ==> CountKey(s, t.month, t.year) == 1
  }

  /** `prev.filter(t => !(t.month === month && t.year === year))`. */
  function WithoutKey(prev: seq<MonthlyTarget>, month: int, year: int): (r: seq<MonthlyTarget>)
    ensures forall t :: t in r <==> t in prev && !HasKey(t, month, year)
  {
    if prev == [] then []
    else if HasKey(prev[0], month, year) then WithoutKey(prev[1..], month, year)
    else [prev[0]] + WithoutKey(prev[1..], month, year)
  }

  /** Every entry is either of the key or not: the two filters split the list. */
  lemma {:induction false} SplitByKey(prev: seq<MonthlyTarget>, month: int, year: int)
    ensures multiset(prev) == multiset(WithoutKey(prev, month, year)) + multiset(OfKey(prev, month, year))
  {
    if prev != [] {
      SplitByKey(prev[1..], month, year);
      assert prev == [prev[0]] + prev[1..];
    }
  }

  lemma {:induction false} WithoutKeyCounts(prev: seq<MonthlyTarget>, month: int, year: int, m: int, y: int)
    ensures |WithoutKey(prev, month, year)| == |prev| - CountKey(prev, month, year)
    ensures CountKey(WithoutKey(prev, month, year), m, y)
            == if m == month && y == year then 0 else CountKey(prev, m, y)
  {
    if prev != [] {
      WithoutKeyCounts(prev[1..], month, year, m, y);
    }
  }

  lemma {:induction false} WithoutKeyMultiset(prev: seq<MonthlyTarget>, month: int, year: int, t: MonthlyTarget)
    requires !HasKey(t, month, year)
    ensures multiset(WithoutKey(prev, month, year))[t] == multiset(prev)[t]
  {
    if prev != [] {
      WithoutKeyMultiset(prev[1..], month, year, t);
      assert prev == [prev[0]] + prev[1..];
    }
  }

  lemma {:induction false} InsertCountKey(x: MonthlyTarget, s: seq<MonthlyTarget>, m: int, y: int)
    ensures CountKey(Insert(x, s), m, y) == CountKey(s, m, y) + (if HasKey(x, m, y) then 1 else 0)
  {
    if s != [] && Compare(s[0], x) < 0 {
      InsertCountKey(x, s[1..], m, y);
    }
  }

  lemma {:induction false} SortCountKey(s: seq<MonthlyTarget>, m: int, y: int)
    ensures CountKey(Sort(s), m, y) == CountKey(s, m, y)
  {
    if s != [] {
      SortCountKey(s[1..], m, y);
      InsertCountKey(s[0], Sort(s[1..]), m, y);
    }
  }

  // ---------------------------------------------------------------------------
  // The update applied by setTarget

  /** The list after `setTarget(month, year, ...)`, given the store's reply: the old
      entries for that month without those of the same key, the returned row in
      front, all sorted; on error the old list. */
  function AfterSetTarget(prev: seq<MonthlyTarget>, month: int, year: int, reply: Reply<MonthlyTarget>): (next: seq<MonthlyTarget>)
    ensures reply.Ok? ==> Sorted(next)
    ensures reply.Ok? ==> multiset(next) == multiset(prev) - multiset(OfKey(prev, month, year)) + multiset{reply.data}
    ensures reply.Err? ==> next == prev
  {
    match reply
    case Ok(row) =>
      SplitByKey(prev, month, year);
      assert multiset([row] + WithoutKey(prev, month, year))
             == multiset(prev) - multiset(OfKey(prev, month, year)) + multiset{row};
      Sort([row] + WithoutKey(prev, month, year))
    case Err(_) => prev
  }

  /** The new list is in order, and holds the returned row and the entries of other
      keys and nothing else: no entry is invented or duplicated. */
  lemma SetTargetSortedPermutation(prev: seq<MonthlyTarget>, month: int, year: int, row: MonthlyTarget)
    ensures var next := AfterSetTarget(prev, month, year, Ok(row));
      Sorted(next) && multiset(next) == multiset([row] + WithoutKey(prev, month, year))
  {
  }

  /** The length drops by the entries replaced and grows by the one returned. */
  lemma SetTargetLength(prev: seq<MonthlyTarget>, month: int, year: int, row: MonthlyTarget)
    ensures |AfterSetTarget(prev, month, year, Ok(row))| == |prev| - CountKey(prev, month, year) + 1
  {
    var next := AfterSetTarget(prev, month, year, Ok(row));
    WithoutKeyCounts(prev, month, year, month, year);
    assert |next| == |multiset(next)|;
  }

  /** When the returned row is for the requested month, it is the only entry for that month. */
  lemma SetTargetSingleEntry(prev: seq<MonthlyTarget>, month: int, year: int, row: MonthlyTarget)
    requires HasKey(row, month, year)
    ensures var next := AfterSetTarget(prev, month, year, Ok(row));
      CountKey(next, month, year) == 1
      && row in next
      && forall t :: t in next && HasKey(t, month, year) ==> t == row
  {
    var next := AfterSetTarget(prev, month, year, Ok(row));
    var filtered := WithoutKey(prev, month, year);
    WithoutKeyCounts(prev, month, year, month, year);
    SortCountKey([row] + filtered, month, year);
    assert ([row] + filtered)[1..] == filtered;
    forall t | t in next && HasKey(t, month, year) ensures t == row {
      assert t in multiset(next);
      assert t in [row] + filtered;
    }
    assert row in multiset(next);
  }

  /** Every entry of another month is kept, as many times as it was there. */
  lemma SetTargetKeepsOthers(prev: seq<MonthlyTarget>, month: int, year: int, row: MonthlyTarget, t: MonthlyTarget)
    requires HasKey(row, month, year) && !HasKey(t, month, year)
    ensures multiset(AfterSetTarget(prev, month, year, Ok(row)))[t] == multiset(prev)[t]
  {
    WithoutKeyMultiset(prev, month, year, t);
  }

  /** If every month had at most one target before, that is still so after. */
  lemma SetTargetUniqueKeys(prev: seq<MonthlyTarget>, month: int, year: int, row: MonthlyTarget)
    requires UniqueKeys(prev) && HasKey(row, month, year)
    ensures UniqueKeys(AfterSetTarget(prev, month, year, Ok(row)))
  {
    var next := AfterSetTarget(prev, month, year, Ok(row));
    var filtered := WithoutKey(prev, month, year);
    SetTargetSingleEntry(prev, month, year, row);
    forall t | t in next ensures CountKey(next, t.month, t.year) == 1 {
      if !HasKey(t, month, year) {
        assert t in multiset(next);
        assert t in [row] + filtered;
        assert t in prev;
        SortCountKey([row] + filtered, t.month, t.year);
        assert ([row] + filtered)[1..] == filtered;
        WithoutKeyCounts(prev, month, year, t.month, t.year);
      }
    }
  }

  lemma {:induction false} WithoutKeySorted(prev: seq<MonthlyTarget>, month: int, year: int)
    requires Sorted(prev)
    ensures Sorted(WithoutKey(prev, month, year))
  {
    if prev != [] {
      WithoutKeySorted(prev[1..], month, year);
      var rest := WithoutKey(prev[1..], month, year);
      forall k | 0 <= k < |rest| ensures InOrder(prev[0], rest[k]) {
        assert rest[k] in prev[1..];
        var j :| 0 <= j < |prev[1..]| && prev[1..][j] == rest[k];
        assert prev[j + 1] == rest[k];
      }
    }
  }

  /** When the list was in order, as the store returns it, the re-sort only moves the
      returned row to its place among the remaining entries. */
  lemma SetTargetOnSortedList(prev: seq<MonthlyTarget>, month: int, year: int, row: MonthlyTarget)
    requires Sorted(prev)
    ensures AfterSetTarget(prev, month, year, Ok(row)) == Insert(row, WithoutKey(prev, month, year))
  {
    var filtered := WithoutKey(prev, month, year);
    WithoutKeySorted(prev, month, year);
    SortKeepsSorted(filtered);
    assert ([row] + filtered)[1..] == filtered;
  }

  /** On error the list is unchanged. */
  lemma SetTargetErrorKeeps(prev: seq<MonthlyTarget>, month: int, year: int, code: string)
    ensures AfterSetTarget(prev, month, year, Err(code)) == prev
  {
  }

  // ---------------------------------------------------------------------------
  // The hook's state

  /** The hook's state: the targets shown and whether the first fetch is still pending. */
  class TargetsStore {
    var targets: seq<MonthlyTarget>
    var loading: bool

    constructor ()
      ensures targets == [] && loading
    {
      targets := [];
      loading := true;
    }

    /** `fetchTargets`: the store's rows (ordered by year, then month, newest first)
        replace the list; on error the list is kept. Either way loading is over. */
    method FetchTargets(reply: Reply<Option<seq<MonthlyTarget>>>)
      modifies this
      ensures reply.Ok? ==> targets == if reply.data.Some? then reply.data.value else []
      ensures reply.Err? ==> targets == old(targets)
      ensures !loading
    {
      if reply.Ok? {
        targets := if reply.data.Some? then reply.data.value else [];
      }
      loading := false;
    }

    /** `setTarget(month, year, targetAmount)`: the store answers the upsert through
        `upsert`; on success the returned row replaces the entries of its month and
        the list is re-sorted. */
    method SetTarget(month: int, year: int, targetAmount: real, upsert: UpsertRequest -> Reply<MonthlyTarget>)
      modifies this`targets
      ensures targets == AfterSetTarget(old(targets), month, year, upsert(UpsertRequest(month, year, targetAmount)))
      ensures upsert(UpsertRequest(month, year, targetAmount)).Ok? ==>
        var row := upsert(UpsertRequest(month, year, targetAmount)).data;
        Sorted(targets)
        && |targets| == |old(targets)| - CountKey(old(targets), month, year) + 1
        && (HasKey(row, month, year) ==> CountKey(targets, month, year) == 1 && row in targets)
        && (HasKey(row, month, year) && UniqueKeys(old(targets)) ==> UniqueKeys(targets))
      ensures upsert(UpsertRequest(month, year, targetAmount)).Err? ==> targets == old(targets)
    {
      var reply := upsert(UpsertRequest(month, year, targetAmount));
      if reply.Ok? {
        var prev := targets;
        SetTargetLength(prev, month, year, reply.data);
        if HasKey(reply.data, month, year) {
          SetTargetSingleEntry(prev, month, year, reply.data);
          if UniqueKeys(prev) {
            SetTargetUniqueKeys(prev, month, year, reply.data);
          }
        }
        var filtered := WithoutKey(targets, month, year);
        targets := Sort([reply.data] + filtered);
      }
    }
  }
}
