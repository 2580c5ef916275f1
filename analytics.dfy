/** The charts of frontend/src/components/Analytics.jsx: revenue rows ordered by
    month and signup rows by weekday, label and value lists built from the ordered
    rows, the totals, and the role flag. Firestore snapshots and the auth state are
    inputs. */
module Analytics {
  import opened Js
  import KeySort

  const MonthOrder: seq<string> := ["Jan", "Feb", "Mar", "Apr", "May", "Jun", "Jul", "Aug", "Sep", "Oct", "Nov", "Dec"]
  const DayOrder: seq<string> := ["Mon", "Tue", "Wed", "Thu", "Fri", "Sat", "Sun"]

  /** One snapshot document: its `month` (or `day`) and its `total`, taken as an
      integer. */
  datatype Row = Row(name: string, total: int)

  /** `order.indexOf(x)`: the first position of `x`, or -1. */
  function IndexOf(order: seq<string>, x: string): (r: int)
    ensures -1 <= r < |order|
    ensures r == -1 <==> x !in order
    ensures r >= 0 ==> order[r] == x && forall j :: 0 <= j < r ==> order[j] != x
  {
    if order == [] then -1
    else if order[0] == x then 0
    else
      var i := IndexOf(order[1..], x);
      if i == -1 then -1 else i + 1
  }

  function MonthKey(r: Row): int {
    IndexOf(MonthOrder, r.name)
  }

  function DayKey(r: Row): int {
    IndexOf(DayOrder, r.name)
  }

  /** `[...data].sort((a, b) => order.indexOf(a.x) - order.indexOf(b.x))`. */
  function ChartRows(rows: seq<Row>, key: Row -> int): (r: seq<Row>)
    ensures KeySort.SortedBy(r, key)
    ensures multiset(r) == multiset(rows)
    ensures |r| == |rows|
  {
    KeySort.SortByLength(rows, key);
    KeySort.SortBy(rows, key)
  }

  /** `sorted.map(item => item.month)` (or `.day`). */
  function Labels(rows: seq<Row>): (r: seq<string>)
    ensures |r| == |rows|
    ensures forall k :: 0 <= k < |rows| ==> r[k] == rows[k].name
  {
    if rows == [] then [] else [rows[0].name] + Labels(rows[1..])
  }

  /** `sorted.map(item => item.total)`. */
  function Values(rows: seq<Row>): (r: seq<int>)
    ensures |r| == |rows|
    ensures forall k :: 0 <= k < |rows| ==> r[k] == rows[k].total
  {
    if rows == [] then [] else [rows[0].total] + Values(rows[1..])
  }

  /** `values.reduce((acc, val) => acc + val, 0)`. */
  function Sum(values: seq<int>): int {
    if values == [] then 0 else values[0] + Sum(values[1..])
  }

  lemma {:induction false} SumAppend(a: seq<int>, b: seq<int>)
    ensures Sum(a + b) == Sum(a) + Sum(b)
  {
    if a != [] {
      assert (a + b)[1..] == a[1..] + b;
      SumAppend(a[1..], b);
    } else {
      assert a + b == b;
    }
  }

  lemma {:induction false} ValuesAppend(a: seq<Row>, b: seq<Row>)
    ensures Values(a + b) == Values(a) + Values(b)
  {
    if a == [] {
      assert a + b == b;
    } else {
      assert (a + b)[1..] == a[1..] + b;
      ValuesAppend(a[1..], b);
    }
  }

  /** Taking one row out takes its total out of the sum. */
  lemma {:induction false} SumRemove(b: seq<Row>, k: int)
    requires 0 <= k < |b|
    ensures Sum(Values(b)) == b[k].total + Sum(Values(b[..k] + b[k + 1..]))
  {
    var p, x, q := b[..k], b[k], b[k + 1..];
    assert b == p + [x] + q;
    ValuesAppend(p + [x], q);
    ValuesAppend(p, [x]);
    ValuesAppend(p, q);
    var vp, vq := Values(p), Values(q);
    assert Values([x]) == [x.total];
    assert Values(b) == vp + [x.total] + vq;
    SumAppend(vp + [x.total], vq);
    SumAppend(vp, [x.total]);
    SumAppend(vp, vq);
    assert Sum([x.total]) == x.total;
  }

  /** The total does not depend on the order of the rows. */
  lemma {:induction false} SumIndependentOfOrder(a: seq<Row>, b: seq<Row>)
    requires multiset(a) == multiset(b)
    ensures Sum(Values(a)) == Sum(Values(b))
  {
    if a == [] {
      assert |b| == |multiset(b)| == 0;
    } else {
      var x := a[0];
      assert x in multiset(b);
      var k :| 0 <= k < |b| && b[k] == x;
      var rest := b[..k] + b[k + 1..];
      assert b == b[..k] + [x] + b[k + 1..];
      assert a == [x] + a[1..];
      assert multiset(b) == multiset(b[..k]) + multiset{x} + multiset(b[k + 1..]);
      assert multiset(rest) == multiset(b) - multiset{x};
      assert multiset(a[1..]) == multiset(a) - multiset{x};
      SumIndependentOfOrder(a[1..], rest);
      SumRemove(b, k);
    }
  }

  /** The charted total is the sum over the snapshot, in whatever order it came. */
  lemma ChartTotal(rows: seq<Row>, key: Row -> int)
    ensures Sum(Values(ChartRows(rows, key))) == Sum(Values(rows))
  {
    SumIndependentOfOrder(ChartRows(rows, key), rows);
  }

  /** A row with an earlier key is charted earlier: in particular a month not in
      the list (index -1) comes before January, and weekdays run Mon..Sun. */
  lemma EarlierKeyComesFirst(rows: seq<Row>, key: Row -> int, i: int, j: int)
    requires 0 <= i < |rows| && 0 <= j < |rows|
    requires var s := ChartRows(rows, key); key(s[i]) < key(s[j])
    ensures i < j
  {
  }

  lemma UnknownMonthBeforeJanuary(rows: seq<Row>, i: int, j: int)
    requires 0 <= i < |rows| && 0 <= j < |rows|
    requires var s := ChartRows(rows, MonthKey); s[i].name !in MonthOrder && s[j].name == "Jan"
    ensures i < j
  {
    var s := ChartRows(rows, MonthKey);
    assert MonthKey(s[i]) == -1;
    assert MonthOrder[0] == "Jan";
    assert MonthKey(s[j]) >= 0;
    EarlierKeyComesFirst(rows, MonthKey, i, j);
  }

  /** Two occurrences of a value count twice. */
  lemma TwoPositionsCount<T>(s: seq<T>, i: int, j: int)
    requires 0 <= i < j < |s| && s[i] == s[j]
    ensures multiset(s)[s[i]] >= 2
  {
    assert s == s[..j] + [s[j]] + s[j + 1..];
    assert s[i] in s[..j];
  }

  /** A value counted twice occurs at two positions. */
  lemma CountTwoPositions<T>(s: seq<T>, x: T) returns (p: int, q: int)
    requires multiset(s)[x] >= 2
    ensures 0 <= p < q < |s| && s[p] == x && s[q] == x
  {
    assert x in multiset(s);
    var k :| 0 <= k < |s| && s[k] == x;
    assert s == s[..k] + [x] + s[k + 1..];
    assert multiset(s[..k])[x] + multiset(s[k + 1..])[x] >= 1;
    if x in multiset(s[..k]) {
      var m :| 0 <= m < k && s[..k][m] == x;
      p, q := m, k;
    } else {
      assert x in multiset(s[k + 1..]);
      var m :| 0 <= m < |s| - k - 1 && s[k + 1..][m] == x;
      p, q := k, k + 1 + m;
    }
  }

  /** Distinct keys stay distinct under a permutation. */
  lemma DistinctKeysPermutation(a: seq<Row>, b: seq<Row>, key: Row -> int)
    requires multiset(a) == multiset(b)
    requires KeySort.DistinctKeys(a, key)
    ensures KeySort.DistinctKeys(b, key)
  {
    forall i, j | 0 <= i < j < |b| ensures key(b[i]) != key(b[j]) {
      if b[i] == b[j] {
        TwoPositionsCount(b, i, j);
        var p, q := CountTwoPositions(a, b[i]);
      } else {
        assert b[i] in multiset(a) && b[j] in multiset(a);
        var p :| 0 <= p < |a| && a[p] == b[i];
        var q :| 0 <= q < |a| && a[q] == b[j];
        if p > q {
          assert key(a[q]) != key(a[p]);
        }
      }
    }
  }

  /** When every row names a different month (or day) of the list, the chart does
      not depend on the order in which the snapshot delivered the rows. */
  lemma ChartIndependentOfSnapshotOrder(a: seq<Row>, b: seq<Row>, key: Row -> int)
    requires multiset(a) == multiset(b)
    requires KeySort.DistinctKeys(a, key)
    ensures ChartRows(a, key) == ChartRows(b, key)
  {
    DistinctKeysPermutation(a, ChartRows(a, key), key);
    KeySort.SortedPermutationUnique(ChartRows(a, key), ChartRows(b, key), key);
  }

  /** The role read at sign-in: the `role` field of the user's Firestore document
      (absent when the document has none), or "user" without a document. */
  function RoleOf(docExists: bool, roleField: Maybe<string>): (r: Maybe<string>)
    ensures !docExists ==> r == Defined("user")
    ensures docExists ==> r == roleField
  {
    if docExists then roleField else Defined("user")
  }

  /** The admin card is shown only for a stored "admin" role; a user without a
      document never sees it. */
  lemma AdminOnlyFromDocument(docExists: bool, roleField: Maybe<string>)
    ensures RoleOf(docExists, roleField) == Defined("admin") <==> docExists && roleField == Defined("admin")
  {
  }

  /** The component's state. */
  class Panel {
    var userRole: Maybe<string>
    var revenueLabels: seq<string>
    var revenueValues: seq<int>
    var totalRevenue: int
    var signupLabels: seq<string>
    var signupValues: seq<int>
    var totalSignups: int

    constructor ()
      ensures userRole == Defined("") && revenueLabels == [] && revenueValues == [] && totalRevenue == 0
      ensures signupLabels == [] && signupValues == [] && totalSignups == 0
    {
      userRole := Defined("");
      revenueLabels, revenueValues, totalRevenue := [], [], 0;
      signupLabels, signupValues, totalSignups := [], [], 0;
    }

    /** `userRole === "admin"`. */
    predicate ShowsAdminCard()
      reads this
    {
      userRole == Defined("admin")
    }

    /** The auth listener: a signed-in user's role is read; a signed-out state
        leaves the role as it was. */
    method OnAuthStateChanged(signedIn: bool, docExists: bool, roleField: Maybe<string>)
      modifies this
      ensures signedIn ==> userRole == RoleOf(docExists, roleField)
      ensures !signedIn ==> userRole == old(userRole)
      ensures revenueLabels == old(revenueLabels) && revenueValues == old(revenueValues) && totalRevenue == old(totalRevenue)
      ensures signupLabels == old(signupLabels) && signupValues == old(signupValues) && totalSignups == old(totalSignups)
    {
      if signedIn {
        userRole := RoleOf(docExists, roleField);
      }
    }

    /** The revenue snapshot listener. */
    method OnRevenueSnapshot(rows: seq<Row>)
      modifies this
      ensures revenueLabels == Labels(ChartRows(rows, MonthKey))
      ensures revenueValues == Values(ChartRows(rows, MonthKey))
      ensures |revenueLabels| == |revenueValues| == |rows|
      ensures totalRevenue == Sum(Values(rows))
      ensures userRole == old(userRole)
      ensures signupLabels == old(signupLabels) && signupValues == old(signupValues) && totalSignups == old(totalSignups)
    {
      var sorted := ChartRows(rows, MonthKey);
      KeySort.SortByLength(rows, MonthKey);
      revenueLabels := Labels(sorted);
      revenueValues := Values(sorted);
      ChartTotal(rows, MonthKey);
      totalRevenue := Sum(revenueValues);
    }

    /** The signup snapshot listener. */
    method OnSignupSnapshot(rows: seq<Row>)
      modifies this
      ensures signupLabels == Labels(ChartRows(rows, DayKey))
      ensures signupValues == Values(ChartRows(rows, DayKey))
      ensures |signupLabels| == |signupValues| == |rows|
      ensures totalSignups == Sum(Values(rows))
      ensures userRole == old(userRole)
      ensures revenueLabels == old(revenueLabels) && revenueValues == old(revenueValues) && totalRevenue == old(totalRevenue)
    {
      var sorted := ChartRows(rows, DayKey);
      KeySort.SortByLength(rows, DayKey);
      signupLabels := Labels(sorted);
      signupValues := Values(sorted);
      ChartTotal(rows, DayKey);
      totalSignups := Sum(signupValues);
    }
  }

  /** Each label and the value at the same position come from one snapshot row. */
  lemma LabelsAlignWithValues(rows: seq<Row>, key: Row -> int, i: int)
    requires 0 <= i < |rows|
    ensures var s := ChartRows(rows, key);
            |Labels(s)| == |Values(s)| == |rows|
            && Row(Labels(s)[i], Values(s)[i]) in multiset(rows)
  {
    var s := ChartRows(rows, key);
    KeySort.SortByLength(rows, key);
    assert s[i] in multiset(s);
    assert Row(Labels(s)[i], Values(s)[i]) == s[i];
  }
}
