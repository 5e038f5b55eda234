/**
 * Editing the weekday list of the availability template (`toggle_template_weekday`) and the
 * seven weekday rows the template form shows (`template_weekdays`).
 */
module Templates {

  // ---------------------------------------------------------------------------
  // list.remove, list.sort

  /** The position of the first occurrence of `x`. */
  function FirstIndex(xs: seq<int>, x: int): (k: int)
    requires x in xs
    ensures 0 <= k < |xs| && xs[k] == x && x !in xs[..k]
  {
    if xs[0] == x then 0
    else
      var k := FirstIndex(xs[1..], x) + 1;
      assert xs[..k] == [xs[0]] + xs[1..][..k - 1];
      k
  }

  /** `xs.remove(x)` on a list holding `x`; a list without `x` is left as it is. */
  function RemoveFirst(xs: seq<int>, x: int): (r: seq<int>)
    ensures x !in xs ==> r == xs
  {
    if xs == [] then []
    else if xs[0] == x then xs[1..]
    else
      assert x !in xs ==> x !in xs[1..];
      assert xs == [xs[0]] + xs[1..];
      [xs[0]] + RemoveFirst(xs[1..], x)
  }

  /** Removal takes away one occurrence of `x`, when there is one, and nothing else. */
  lemma {:induction false} RemoveFirstCounts(xs: seq<int>, x: int)
    ensures multiset(RemoveFirst(xs, x)) == multiset(xs) - multiset{x}
  {
    if xs != [] {
      assert xs == [xs[0]] + xs[1..];
      if xs[0] != x {
        RemoveFirstCounts(xs[1..], x);
      }
    }
  }

  /** Removal keeps every remaining element above a bound that all elements were above. */
  lemma {:induction false} RemoveFirstAbove(xs: seq<int>, x: int, lo: int)
    requires forall i :: 0 <= i < |xs| ==> lo < xs[i]
    ensures forall i :: 0 <= i < |RemoveFirst(xs, x)| ==> lo < RemoveFirst(xs, x)[i]
  {
    if xs != [] && xs[0] != x {
      RemoveFirstAbove(xs[1..], x, lo);
      var tail := RemoveFirst(xs[1..], x);
      assert RemoveFirst(xs, x) == [xs[0]] + tail;
      forall i | 1 <= i < |RemoveFirst(xs, x)| ensures lo < RemoveFirst(xs, x)[i] {
        assert RemoveFirst(xs, x)[i] == tail[i - 1];
      }
    }
  }

  /** Removal deletes the first occurrence and keeps the order of the rest. */
  lemma {:induction false} RemoveFirstAt(xs: seq<int>, x: int)
    requires x in xs
    ensures var k := FirstIndex(xs, x); RemoveFirst(xs, x) == xs[..k] + xs[k + 1..]
  {
    if xs[0] != x {
      RemoveFirstAt(xs[1..], x);
      var k := FirstIndex(xs, x);
      assert xs[..k] == [xs[0]] + xs[1..][..k - 1];
      assert xs[k + 1..] == xs[1..][k..];
    }
  }

  predicate Sorted(xs: seq<int>)
  {
    forall i, j :: 0 <= i < j < |xs| ==> xs[i] <= xs[j]
  }

  /** Sorted without repetitions. */
  predicate StrictlyIncreasing(xs: seq<int>)
  {
    forall i, j :: 0 <= i < j < |xs| ==> xs[i] < xs[j]
  }

  function InsertSorted(x: int, xs: seq<int>): (r: seq<int>)
    ensures |r| == |xs| + 1
    ensures multiset(r) == multiset(xs) + multiset{x}
  {
    if xs == [] || x <= xs[0] then [x] + xs
    else
      assert xs == [xs[0]] + xs[1..];
      [xs[0]] + InsertSorted(x, xs[1..])
  }

  lemma {:induction false} InsertSortedSorted(x: int, xs: seq<int>)
    requires Sorted(xs)
    ensures Sorted(InsertSorted(x, xs))
  {
    if xs != [] && x > xs[0] {
      var tail := InsertSorted(x, xs[1..]);
      InsertSortedSorted(x, xs[1..]);
      forall j | 0 <= j < |tail| ensures xs[0] <= tail[j] {
        assert tail[j] in multiset(tail);
        if tail[j] != x {
          assert tail[j] in multiset(xs[1..]);
          var k :| 0 <= k < |xs[1..]| && xs[1..][k] == tail[j];
          assert xs[k + 1] == tail[j];
        }
      }
      assert InsertSorted(x, xs) == [xs[0]] + tail;
    }
  }

  /** `list.sort()` on integers, as an insertion sort. */
  function SortInts(xs: seq<int>): (r: seq<int>)
    ensures |r| == |xs|
    ensures multiset(r) == multiset(xs)
  {
    if xs == [] then []
    else
      assert xs == [xs[0]] + xs[1..];
      InsertSorted(xs[0], SortInts(xs[1..]))
  }

  lemma {:induction false} SortIntsSorted(xs: seq<int>)
    ensures Sorted(SortInts(xs))
  {
    if xs != [] {
      SortIntsSorted(xs[1..]);
      InsertSortedSorted(xs[0], SortInts(xs[1..]));
    }
  }

  /** A list without repetitions in increasing order is determined by its elements. */
  lemma {:induction false} IncreasingUnique(a: seq<int>, b: seq<int>)
    requires StrictlyIncreasing(a) && StrictlyIncreasing(b)
    requires forall x :: x in a <==> x in b
    ensures a == b
  {
    if a == [] {
      HeadMember(b);
    } else {
      assert a[0] in b && b[0] in a;
      IncreasingTail(a);
      IncreasingTail(b);
      IncreasingUnique(a[1..], b[1..]);
      assert a == [a[0]] + a[1..];
      assert b == [b[0]] + b[1..];
    }
  }

  lemma HeadMember(b: seq<int>)
    ensures b != [] ==> b[0] in b
  {
  }

  /** The tail of an increasing list is increasing and holds exactly the elements other than the head. */
  lemma IncreasingTail(a: seq<int>)
    requires StrictlyIncreasing(a) && a != []
    ensures StrictlyIncreasing(a[1..])
    ensures forall x :: x in a[1..] <==> x in a && x != a[0]
    ensures forall x :: x in a ==> a[0] <= x
  {
    forall i, j | 0 <= i < j < |a[1..]| ensures a[1..][i] < a[1..][j] {
      assert a[1..][i] == a[i + 1] && a[1..][j] == a[j + 1];
    }
    forall x | x in a[1..] ensures x != a[0] {
      var k :| 0 <= k < |a[1..]| && a[1..][k] == x;
      assert a[k + 1] == x;
    }
    assert a == [a[0]] + a[1..];
  }

  // ---------------------------------------------------------------------------
  // toggle_template_weekday

  /** Remove the day when listed, otherwise append it and sort. */
  function ToggleWeekday(weekdays: seq<int>, day: int): seq<int>
  {
    if day in weekdays then RemoveFirst(weekdays, day) else SortInts(weekdays + [day])
  }

  /** The toggled day occurs once less when it was listed and once more otherwise; no other day moves in or out. */
  lemma ToggleCounts(weekdays: seq<int>, day: int)
    ensures var r := ToggleWeekday(weekdays, day);
            && (day in weekdays ==> multiset(r) == multiset(weekdays) - multiset{day})
            && (day !in weekdays ==> multiset(r) == multiset(weekdays) + multiset{day})
  {
    if day in weekdays {
      RemoveFirstCounts(weekdays, day);
    }
  }

  /** On a list without repetitions, toggling flips the membership of that one day. */
  lemma ToggleMembership(weekdays: seq<int>, day: int, x: int)
    requires StrictlyIncreasing(weekdays)
    ensures x in ToggleWeekday(weekdays, day) <==> (x in weekdays) != (x == day)
  {
    var r := ToggleWeekday(weekdays, day);
    ToggleCounts(weekdays, day);
    AtMostOnce(weekdays, x);
    assert x in r <==> multiset(r)[x] > 0;
    assert x in weekdays <==> multiset(weekdays)[x] > 0;
  }

  lemma {:induction false} RemoveFirstIncreasing(xs: seq<int>, x: int)
    requires StrictlyIncreasing(xs)
    ensures StrictlyIncreasing(RemoveFirst(xs, x))
  {
    if xs != [] && xs[0] != x {
      var rest := xs[1..];
      RemoveFirstIncreasing(rest, x);
      TailAbove(xs);
      RemoveFirstAbove(rest, x, xs[0]);
      ConsIncreasing(xs[0], RemoveFirst(rest, x));
    }
  }

  /** In a strictly increasing list every later element is above the first. */
  lemma TailAbove(xs: seq<int>)
    requires xs != [] && StrictlyIncreasing(xs)
    ensures forall i :: 0 <= i < |xs[1..]| ==> xs[0] < xs[1..][i]
  {
    forall i | 0 <= i < |xs[1..]| ensures xs[0] < xs[1..][i] {
      assert xs[1..][i] == xs[i + 1];
    }
  }

  /** A head below every element of a strictly increasing tail keeps the list strictly increasing. */
  lemma ConsIncreasing(h: int, tail: seq<int>)
    requires StrictlyIncreasing(tail) && forall i :: 0 <= i < |tail| ==> h < tail[i]
    ensures StrictlyIncreasing([h] + tail)
  {
    var r := [h] + tail;
    forall i, j | 0 <= i < j < |r| ensures r[i] < r[j] {
      assert r[j] == tail[j - 1];
      if i > 0 {
        assert r[i] == tail[i - 1];
      }
    }
  }

  /** A sorted list in which no value occurs twice is strictly increasing. */
  lemma SortedOnceIncreasing(r: seq<int>)
    requires Sorted(r) && forall v :: multiset(r)[v] <= 1
    ensures StrictlyIncreasing(r)
  {
    forall i, j | 0 <= i < j < |r| ensures r[i] < r[j] {
      if r[i] == r[j] {
        RepeatedCount(r, i, j);
      }
    }
  }

  /** Toggling keeps the weekday list sorted and free of repetitions. */
  lemma ToggleStrictlyIncreasing(weekdays: seq<int>, day: int)
    requires StrictlyIncreasing(weekdays)
    ensures StrictlyIncreasing(ToggleWeekday(weekdays, day))
  {
    if day in weekdays {
      RemoveFirstIncreasing(weekdays, day);
    } else {
      var r := SortInts(weekdays + [day]);
      SortIntsSorted(weekdays + [day]);
      forall v ensures multiset(r)[v] <= 1 {
        AtMostOnce(weekdays, v);
        assert multiset(weekdays)[day] == 0;
      }
      SortedOnceIncreasing(r);
    }
  }

  /** An element at two positions occurs at least twice. */
  lemma RepeatedCount(xs: seq<int>, i: int, j: int)
    requires 0 <= i < j < |xs| && xs[i] == xs[j]
    ensures multiset(xs)[xs[i]] >= 2
  {
    assert xs == xs[..i] + [xs[i]] + xs[i + 1..j] + [xs[j]] + xs[j + 1..];
  }

  /** In a list without repetitions every value occurs at most once. */
  lemma {:induction false} AtMostOnce(xs: seq<int>, x: int)
    requires StrictlyIncreasing(xs)
    ensures multiset(xs)[x] <= 1
  {
    if xs != [] {
      assert xs == [xs[0]] + xs[1..];
      AtMostOnce(xs[1..], x);
      if x == xs[0] {
        assert x !in xs[1..] by {
          forall j | 1 <= j < |xs| ensures xs[j] != x {
            assert xs[0] < xs[j];
          }
        }
      }
    }
  }

  /** Toggling a day twice restores a sorted weekday list without repetitions. */
  lemma ToggleTwice(weekdays: seq<int>, day: int)
    requires StrictlyIncreasing(weekdays)
    ensures ToggleWeekday(ToggleWeekday(weekdays, day), day) == weekdays
  {
    var once := ToggleWeekday(weekdays, day);
    var twice := ToggleWeekday(once, day);
    ToggleStrictlyIncreasing(weekdays, day);
    ToggleStrictlyIncreasing(once, day);
    forall x ensures x in twice <==> x in weekdays {
      ToggleMembership(weekdays, day, x);
      ToggleMembership(once, day, x);
    }
    IncreasingUnique(twice, weekdays);
  }

  // ---------------------------------------------------------------------------
  // template_weekdays

  /** One row of the weekday picker: the day's index, whether the template lists it, and its label. */
  datatype WeekdayRow = WeekdayRow(index: int, selected: bool, name: string)

  const DayLabels: seq<string> := ["Mon", "Tue", "Wed", "Thu", "Fri", "Sat", "Sun"]

  /** The seven rows, Monday first. */
  function WeekdayRows(weekdays: seq<int>): (rows: seq<WeekdayRow>)
    ensures |rows| == 7
    ensures forall i :: 0 <= i < 7 ==> rows[i].index == i && rows[i].name == DayLabels[i]
  {
    seq(7, i requires 0 <= i < 7 => WeekdayRow(i, i in weekdays, DayLabels[i]))
  }

  /** A row is ticked exactly when its day is listed, whatever the list's order or repetitions. */
  lemma WeekdayRowsSelected(weekdays: seq<int>, i: int)
    requires 0 <= i < 7
    ensures WeekdayRows(weekdays)[i].selected <==> exists k :: 0 <= k < |weekdays| && weekdays[k] == i
  {
  }

  /** Toggling a day flips its row's tick and leaves the other six rows as they were. */
  lemma ToggleFlipsOneRow(weekdays: seq<int>, day: int, i: int)
    requires StrictlyIncreasing(weekdays) && 0 <= i < 7
    ensures var before := WeekdayRows(weekdays)[i];
            var after := WeekdayRows(ToggleWeekday(weekdays, day))[i];
            after.selected == (before.selected != (i == day))
  {
    ToggleMembership(weekdays, day, i);
  }
}
