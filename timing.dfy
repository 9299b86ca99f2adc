/**
 * The time estimate of main.py: every customer costs the wait before the
 * message is sent plus the wait before its tab is closed, and the total is
 * shown to the user as minutes and seconds.
 */
module Timing {
  import opened Seqs
  import opened Tables
  import opened Filtering

  /** Seconds waited before a message is sent. */
  const WaitTimePerCustomer: nat := 15

  /** Seconds waited before the tab is closed. */
  const CloseTabWaitTime: nat := 2

  /** The number of customers over all the lists (`sum(len(c) for c in lists)`). */
  function CustomerCount<T>(lists: seq<seq<T>>): nat
  {
    if lists == [] then 0 else CustomerCount(lists[..|lists| - 1]) + |lists[|lists| - 1]|
  }

  /** The lists one after the other. */
  function Flatten<T>(lists: seq<seq<T>>): seq<T>
  {
    if lists == [] then [] else Flatten(lists[..|lists| - 1]) + lists[|lists| - 1]
  }

  /** `calculate_total_time`: each customer, whichever list holds it, costs the same whole number of seconds. */
  function TotalTime<T>(lists: seq<seq<T>>): (t: nat)
    ensures t % (WaitTimePerCustomer + CloseTabWaitTime) == 0
    ensures t == 0 <==> CustomerCount(lists) == 0
  {
    CustomerCount(lists) * (WaitTimePerCustomer + CloseTabWaitTime)
  }

  /** No customers at all, whatever the number of lists, means no time. */
  lemma {:induction false} NoCustomersNoTime<T>(lists: seq<seq<T>>)
    requires forall i :: 0 <= i < |lists| ==> lists[i] == []
    ensures TotalTime(lists) == 0
  {
    if lists != [] {
      NoCustomersNoTime(lists[..|lists| - 1]);
    }
  }

  /** Counting is additive over the lists passed. */
  lemma {:induction false} CountAppend<T>(a: seq<seq<T>>, b: seq<seq<T>>)
    ensures CustomerCount(a + b) == CustomerCount(a) + CustomerCount(b)
  {
    if b != [] {
      var init := b[..|b| - 1];
      assert (a + b)[..|a + b| - 1] == a + init;
      CountAppend(a, init);
    } else {
      assert a + b == a;
    }
  }

  /** The estimate for several groups of lists is the sum of their estimates. */
  lemma TotalTimeAppend<T>(a: seq<seq<T>>, b: seq<seq<T>>)
    ensures TotalTime(a + b) == TotalTime(a) + TotalTime(b)
  {
    CountAppend(a, b);
  }

  /** The count is the length of all the lists put together: 17 seconds per customer. */
  lemma {:induction false} CountFlatten<T>(lists: seq<seq<T>>)
    ensures CustomerCount(lists) == |Flatten(lists)|
    ensures TotalTime(lists) == 17 * |Flatten(lists)|
  {
    if lists != [] {
      CountFlatten(lists[..|lists| - 1]);
    }
  }

  /**
   * The two dispatch lists of main.py (the records of two different sellers
   * picked from the same table) never cost more than 17 seconds per table row.
   */
  lemma DispatchBound(data: Table, first: string, second: string)
    requires data.Valid() && "VENDEDOR" in data.columns && first != second
    ensures TotalTime([FilterByVendor(first, data).value, FilterByVendor(second, data).value]) <= 17 * |data.rows|
  {
    var p, q := Matches("VENDEDOR", Text(first)), Matches("VENDEDOR", Text(second));
    FilterExclusive(data.rows, p, q);
    var lists := [FilterByVendor(first, data).value, FilterByVendor(second, data).value];
    assert lists[0] == Filter(data.rows, p) && lists[1] == Filter(data.rows, q);
    assert lists[..1] == [lists[0]] && [lists[0]][..0] == [];
    assert CustomerCount([lists[0]]) == |lists[0]|;
    assert CustomerCount(lists) == |lists[0]| + |lists[1]|;
  }

  /**
   * `show_confirmation_dialog`'s split of the estimate: Python's `//` and `%`
   * by 60 (flooring, like Dafny's for a positive divisor).
   */
  function SplitDuration(total: int): (r: (int, int))
    ensures r.0 * 60 + r.1 == total
    ensures 0 <= r.1 < 60
  {
    (total / 60, total % 60)
  }

  /** The split is the only one with those two properties. */
  lemma SplitUnique(total: int, minutes: int, seconds: int)
    requires minutes * 60 + seconds == total && 0 <= seconds < 60
    ensures SplitDuration(total) == (minutes, seconds)
  {
    var r := SplitDuration(total);
    assert (minutes - r.0) * 60 == r.1 - seconds;
  }
}
