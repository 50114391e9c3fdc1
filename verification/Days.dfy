/** Calendar days as day numbers (day 0 is a Monday) and the weekday list. */
module Days {
  import opened Common

  type Day = int

  predicate Weekday(d: Day) { d % 7 < 5 }

  ghost predicate Ascending(s: seq<Day>) {
    forall i, j :: 0 <= i < j < |s| ==> s[i] < s[j]
  }

  ghost predicate Descending(s: seq<Day>) {
    forall i, j :: 0 <= i < j < |s| ==> s[i] > s[j]
  }

  /** The weekdays of `[start, end]`, oldest first. */
  function Weekdays(start: Day, end: Day): seq<Day>
    decreases end - start + 1
  {
    if end < start then [] else Weekdays(start, end - 1) + if Weekday(end) then [end] else []
  }

  lemma {:induction false} WeekdaysExact(start: Day, end: Day)
    ensures Ascending(Weekdays(start, end))
    ensures forall d :: d in Weekdays(start, end) <==> start <= d <= end && Weekday(d)
    decreases end - start + 1
  {
    if start <= end {
      var before := Weekdays(start, end - 1);
      WeekdaysExact(start, end - 1);
      assert forall i :: 0 <= i < |before| ==> before[i] in before;
    }
  }

  method TradingDays(start: Day, end: Day) returns (out: seq<Day>)
    ensures out == Weekdays(start, end)
    ensures Ascending(out)
    ensures forall d :: d in out <==> start <= d <= end && Weekday(d)
  {
    WeekdaysExact(start, end);
    out := [];
    if end < start {
      return;
    }
    var d := start;
    while d <= end
      invariant start <= d <= end + 1
      invariant out == Weekdays(start, d - 1)
    {
      if Weekday(d) {
        out := out + [d];
      }
      d := d + 1;
    }
  }

  /** The members of `s` that satisfy `f`, in the order of `s`. */
  function Keep(s: seq<Day>, f: Day -> bool): (r: seq<Day>)
    ensures forall d :: d in r <==> d in s && f(d)
  {
    if s == [] then []
    else
      var front, last := s[..|s| - 1], s[|s| - 1];
      assert s == front + [last];
      Keep(front, f) + if f(last) then [last] else []
  }

  lemma FrontAscending(s: seq<Day>)
    requires Ascending(s) && s != []
    ensures var front := s[..|s| - 1]; Ascending(front) && forall x :: x in front ==> x < s[|s| - 1]
  {
  }

  lemma SnocAscending(s: seq<Day>, x: Day)
    requires Ascending(s) && forall y :: y in s ==> y < x
    ensures Ascending(s + [x])
  {
    assert forall i :: 0 <= i < |s| ==> s[i] in s;
  }

  lemma {:induction false} KeepAscending(s: seq<Day>, f: Day -> bool)
    requires Ascending(s)
    ensures Ascending(Keep(s, f))
  {
    if s == [] {
      assert Ascending([]);
    } else {
      FrontAscending(s);
      KeepAscending(s[..|s| - 1], f);
      SnocAscending(Keep(s[..|s| - 1], f), s[|s| - 1]);
    }
  }

  lemma FrontDescending(s: seq<Day>)
    requires Descending(s) && s != []
    ensures var front := s[..|s| - 1]; Descending(front) && forall x :: x in front ==> x > s[|s| - 1]
  {
  }

  lemma SnocDescending(s: seq<Day>, x: Day)
    requires Descending(s) && forall y :: y in s ==> y > x
    ensures Descending(s + [x])
  {
    assert forall i :: 0 <= i < |s| ==> s[i] in s;
  }

  lemma {:induction false} KeepDescending(s: seq<Day>, f: Day -> bool)
    requires Descending(s)
    ensures Descending(Keep(s, f))
  {
    if s == [] {
      assert Descending([]);
    } else {
      FrontDescending(s);
      KeepDescending(s[..|s| - 1], f);
      SnocDescending(Keep(s[..|s| - 1], f), s[|s| - 1]);
    }
  }

  /** Filtering keeps the order. */
  lemma KeepOrder(s: seq<Day>, f: Day -> bool)
    ensures Ascending(s) ==> Ascending(Keep(s, f))
    ensures Descending(s) ==> Descending(Keep(s, f))
  {
    hide Ascending, Descending;
    if Ascending(s) {
      KeepAscending(s, f);
    }
    if Descending(s) {
      KeepDescending(s, f);
    }
  }

  lemma KeepSame(s: seq<Day>, f: Day -> bool, g: Day -> bool)
    requires forall d :: d in s ==> f(d) == g(d)
    ensures Keep(s, f) == Keep(s, g)
  {
    if s != [] {
      var front, last := s[..|s| - 1], s[|s| - 1];
      assert s == front + [last];
      assert last in s;
      KeepSame(front, f, g);
    }
  }

  lemma KeepAll(s: seq<Day>, f: Day -> bool)
    requires forall d :: d in s ==> f(d)
    ensures Keep(s, f) == s
  {
    if s != [] {
      var front, last := s[..|s| - 1], s[|s| - 1];
      assert s == front + [last];
      assert last in s;
      KeepAll(front, f);
    }
  }

  lemma KeepNothing(s: seq<Day>, f: Day -> bool)
    requires forall d :: d in s ==> !f(d)
    ensures Keep(s, f) == []
  {
    if s != [] {
      var front, last := s[..|s| - 1], s[|s| - 1];
      assert s == front + [last];
      KeepNothing(front, f);
    }
  }

  function Insert(d: Day, s: seq<Day>): seq<Day> {
    if s == [] || d <= s[0] then [d] + s else [s[0]] + Insert(d, s[1..])
  }

  /** Python's `sorted`. */
  function Sorted(s: seq<Day>): seq<Day> {
    if s == [] then [] else Insert(s[0], Sorted(s[1..]))
  }

  lemma InsertLast(d: Day, s: seq<Day>)
    requires forall x :: x in s ==> x < d
    ensures Insert(d, s) == s + [d]
  {
    if s != [] {
      assert s[0] in s && forall x :: x in s[1..] ==> x in s;
      assert [s[0]] + (s[1..] + [d]) == s + [d];
      InsertLast(d, s[1..]);
    }
  }

  /** Sorting a newest-first list turns it round. */
  lemma {:induction false} SortedDescending(s: seq<Day>)
    requires Descending(s)
    ensures Sorted(s) == Reverse(s) && Ascending(Sorted(s))
  {
    if s != [] {
      SortedDescending(s[1..]);
      forall x | x in Reverse(s[1..]) ensures x < s[0] {
        ReverseMember(s[1..], x);
        var i :| 0 <= i < |s[1..]| && s[1..][i] == x;
      }
      InsertLast(s[0], Reverse(s[1..]));
    }
  }

  predicate IsLeast(lo: Day, days: set<Day>) { lo in days && forall x :: x in days ==> lo <= x }

  predicate IsMost(hi: Day, days: set<Day>) { hi in days && forall x :: x in days ==> x <= hi }

  lemma {:induction false} Extremes(days: set<Day>)
    requires days != {}
    ensures exists lo :: IsLeast(lo, days)
    ensures exists hi :: IsMost(hi, days)
  {
    var x := Member(days);
    var rest := days - {x};
    assert days == rest + {x};
    if rest == {} {
      assert IsLeast(x, days) && IsMost(x, days);
    } else {
      Extremes(rest);
      var lo :| IsLeast(lo, rest);
      var hi :| IsMost(hi, rest);
      assert IsLeast(if lo < x then lo else x, days);
      assert IsMost(if hi < x then x else hi, days);
    }
  }
}
