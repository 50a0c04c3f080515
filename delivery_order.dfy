/**
 * The per-driver delivery ordering policy: a driver's assignments are put
 * in order of assignment date (ties keep their input order) and numbered
 * from 1; only the first one, and only while it is pending, may be started,
 * and an assignment whose predecessor is not delivered is blocked.
 */
module DeliveryOrder {
  import opened Wrappers
  import opened JsArray
  import opened Shipments

  /** One of a driver's assignments; `assignedDate` is a timestamp in milliseconds. */
  datatype Assignment = Assignment(id: string, assignedDate: int, status: Status)

  /** An assignment together with the fields the ordering adds to it. */
  datatype OrderedAssignment = OrderedAssignment(
    assignment: Assignment,
    deliveryOrder: nat,
    isCurrentDelivery: bool,
    canStart: bool,
    isBlocked: bool)

  predicate SortedByDate(s: seq<Assignment>) {
    forall i, j :: 0 <= i < j < |s| ==> s[i].assignedDate <= s[j].assignedDate
  }

  /** The assignments dated `d`, in the order they occur in `s`. */
  function DatedOn(s: seq<Assignment>, d: int): seq<Assignment> {
    if s == [] then []
    else (if s[0].assignedDate == d then [s[0]] else []) + DatedOn(s[1..], d)
  }

  /**
   * A stable sort of `s`: a permutation of it, ordered by date, in which the
   * assignments sharing a date appear in the order they had in `s`.
   */
  ghost predicate IsStableSortOf(r: seq<Assignment>, s: seq<Assignment>) {
    && multiset(r) == multiset(s)
    && SortedByDate(r)
    && forall d :: DatedOn(r, d) == DatedOn(s, d)
  }

  /** Puts `x` in front of the first element of `t` not dated before it. */
  function Insert(x: Assignment, t: seq<Assignment>): (r: seq<Assignment>)
    ensures multiset(r) == multiset(t) + multiset{x}
    ensures |r| == |t| + 1
  {
    if t == [] || x.assignedDate <= t[0].assignedDate then
      [x] + t
    else
      assert t == [t[0]] + t[1..];
      [t[0]] + Insert(x, t[1..])
  }

  lemma {:induction false} InsertKeepsSorted(x: Assignment, t: seq<Assignment>)
    requires SortedByDate(t)
    ensures SortedByDate(Insert(x, t))
  {
    if t != [] && x.assignedDate > t[0].assignedDate {
      var rest := Insert(x, t[1..]);
      InsertKeepsSorted(x, t[1..]);
      forall k | 0 <= k < |rest| ensures t[0].assignedDate <= rest[k].assignedDate {
        assert rest[k] in multiset(rest);
        if rest[k] != x {
          assert rest[k] in multiset(t[1..]);
          var m :| 0 <= m < |t[1..]| && t[1..][m] == rest[k];
          assert t[m + 1] == rest[k];
        }
      }
      assert Insert(x, t) == [t[0]] + rest;
    }
  }

  /** The sort the comparator `a.assignedDate - b.assignedDate` performs. */
  function SortByDate(s: seq<Assignment>): (r: seq<Assignment>)
    ensures multiset(r) == multiset(s)
    ensures |r| == |s|
    ensures SortedByDate(r)
  {
    if s == [] then []
    else
      assert s == [s[0]] + s[1..];
      InsertKeepsSorted(s[0], SortByDate(s[1..]));
      Insert(s[0], SortByDate(s[1..]))
  }

  lemma {:induction false} InsertDatedOn(x: Assignment, t: seq<Assignment>, d: int)
    ensures DatedOn(Insert(x, t), d) == (if x.assignedDate == d then [x] else []) + DatedOn(t, d)
  {
    if t == [] || x.assignedDate <= t[0].assignedDate {
      assert ([x] + t)[1..] == t;
    } else {
      InsertDatedOn(x, t[1..], d);
      assert ([t[0]] + Insert(x, t[1..]))[1..] == Insert(x, t[1..]);
    }
  }

  /** Equal dates keep their input order. */
  lemma {:induction false} SortByDateIsStable(s: seq<Assignment>, d: int)
    ensures DatedOn(SortByDate(s), d) == DatedOn(s, d)
  {
    if s != [] {
      SortByDateIsStable(s[1..], d);
      InsertDatedOn(s[0], SortByDate(s[1..]), d);
    }
  }

  lemma SortByDateIsStableSort(s: seq<Assignment>)
    ensures IsStableSortOf(SortByDate(s), s)
    ensures |SortByDate(s)| == |s|
  {
    forall d ensures DatedOn(SortByDate(s), d) == DatedOn(s, d) {
      SortByDateIsStable(s, d);
    }
    assert |multiset(SortByDate(s))| == |multiset(s)|;
  }

  lemma DatedOnTail(a: seq<Assignment>, d: int)
    requires a != []
    ensures a[0].assignedDate == d ==> DatedOn(a, d) == [a[0]] + DatedOn(a[1..], d)
    ensures a[0].assignedDate != d ==> DatedOn(a, d) == DatedOn(a[1..], d)
  {
  }

  /** Two date-sorted sequences with the same elements start on the same date. */
  lemma SortedHeadsShareDate(a: seq<Assignment>, b: seq<Assignment>)
    requires multiset(a) == multiset(b) && a != [] && b != []
    requires SortedByDate(a) && SortedByDate(b)
    ensures a[0].assignedDate == b[0].assignedDate
  {
    assert b[0] in multiset(a) && a[0] in multiset(b);
    var m :| 0 <= m < |a| && a[m] == b[0];
    var n :| 0 <= n < |b| && b[n] == a[0];
  }

  /** Two stable sorts of the same list begin with the same assignment. */
  lemma StableSortsShareHead(a: seq<Assignment>, b: seq<Assignment>)
    requires multiset(a) == multiset(b) && a != [] && b != []
    requires SortedByDate(a) && SortedByDate(b)
    requires forall d :: DatedOn(a, d) == DatedOn(b, d)
    ensures a[0] == b[0]
  {
    SortedHeadsShareDate(a, b);
    var d0 := a[0].assignedDate;
    DatedOnTail(a, d0);
    DatedOnTail(b, d0);
    assert a[0] == DatedOn(a, d0)[0] == DatedOn(b, d0)[0] == b[0];
  }

  /** Removing a common head keeps the per-date subsequences equal. */
  lemma DatedOnTailsAgree(a: seq<Assignment>, b: seq<Assignment>)
    requires a != [] && b != [] && a[0] == b[0]
    requires forall d :: DatedOn(a, d) == DatedOn(b, d)
    ensures forall d :: DatedOn(a[1..], d) == DatedOn(b[1..], d)
  {
    forall d ensures DatedOn(a[1..], d) == DatedOn(b[1..], d) {
      DatedOnTail(a, d);
      DatedOnTail(b, d);
      assert DatedOn(a, d) == DatedOn(b, d);
      if d == a[0].assignedDate {
        assert DatedOn(a[1..], d) == DatedOn(a, d)[1..];
        assert DatedOn(b[1..], d) == DatedOn(b, d)[1..];
      }
    }
  }

  /** Removing a common head keeps the multisets equal. */
  lemma MultisetTailsAgree(a: seq<Assignment>, b: seq<Assignment>)
    requires a != [] && b != [] && a[0] == b[0]
    requires multiset(a) == multiset(b)
    ensures multiset(a[1..]) == multiset(b[1..])
  {
    assert a == [a[0]] + a[1..] && b == [b[0]] + b[1..];
    forall e ensures multiset(a[1..])[e] == multiset(b[1..])[e] {
      assert multiset(a)[e] == multiset{a[0]}[e] + multiset(a[1..])[e];
      assert multiset(b)[e] == multiset{a[0]}[e] + multiset(b[1..])[e];
    }
  }

  /**
   * Two date-sorted sequences with the same elements and the same order
   * among equal dates are the same sequence.
   */
  lemma {:induction false} StableSortsAgree(a: seq<Assignment>, b: seq<Assignment>)
    requires multiset(a) == multiset(b)
    requires SortedByDate(a) && SortedByDate(b)
    requires forall d :: DatedOn(a, d) == DatedOn(b, d)
    ensures a == b
  {
    assert |a| == |multiset(a)| == |multiset(b)| == |b|;
    if a != [] {
      StableSortsShareHead(a, b);
      DatedOnTailsAgree(a, b);
      MultisetTailsAgree(a, b);
      StableSortsAgree(a[1..], b[1..]);
      assert a == [a[0]] + a[1..] && b == [b[0]] + b[1..];
    }
  }

  /** `SortByDate` is the one stable sort by date: any other is equal to it. */
  lemma StableSortIsSortByDate(r: seq<Assignment>, s: seq<Assignment>)
    requires IsStableSortOf(r, s)
    ensures r == SortByDate(s)
  {
    SortByDateIsStableSort(s);
    StableSortsAgree(r, SortByDate(s));
  }

  /** The fields `getDeliveryOrder` adds to the assignment at position `i` of the sorted list. */
  function Annotate(sorted: seq<Assignment>, i: nat): OrderedAssignment
    requires i < |sorted|
  {
    OrderedAssignment(
      sorted[i],
      i + 1,
      i == 0 && sorted[i].status == Pending,
      i == 0 && sorted[i].status == Pending,
      i > 0 && sorted[i - 1].status != Delivered)
  }

  /**
   * `getDeliveryOrder`: sort a copy by date, then annotate each position.
   * The entries carry the input's assignments as a stable sort by date,
   * numbered from 1; only a pending first entry may start, and an entry is
   * blocked exactly when its predecessor is not delivered.
   */
  function GetDeliveryOrder(assignments: seq<Assignment>): (r: seq<OrderedAssignment>)
    ensures |r| == |assignments|
    ensures IsStableSortOf(Unannotated(r), assignments)
    ensures forall i :: 0 <= i < |r| ==> r[i].assignment == SortByDate(assignments)[i]
    ensures forall i :: 0 <= i < |r| ==> r[i].deliveryOrder == i + 1
    ensures forall i :: 0 <= i < |r| ==>
      r[i].canStart == r[i].isCurrentDelivery == (i == 0 && r[i].assignment.status == Pending)
    ensures forall i :: 0 <= i < |r| ==>
      r[i].isBlocked == (i > 0 && r[i - 1].assignment.status != Delivered)
  {
    var sorted := SortByDate(assignments);
    SortByDateIsStableSort(assignments);
    var r := seq(|sorted|, i requires 0 <= i < |sorted| => Annotate(sorted, i));
    assert Unannotated(r) == sorted;
    r
  }

  /** The assignments of an ordered view, without the added fields. */
  function Unannotated(r: seq<OrderedAssignment>): (s: seq<Assignment>)
    ensures |s| == |r|
    ensures forall i :: 0 <= i < |r| ==> s[i] == r[i].assignment
  {
    seq(|r|, i requires 0 <= i < |r| => r[i].assignment)
  }

  /**
   * Whatever stable sort orders the copy, the ordered view holds the same
   * assignments in the same order: the view depends on the input only.
   */
  lemma DeliveryOrderIsAnyStableSort(assignments: seq<Assignment>, sorted: seq<Assignment>)
    requires IsStableSortOf(sorted, assignments)
    ensures Unannotated(GetDeliveryOrder(assignments)) == sorted
  {
    StableSortsAgree(Unannotated(GetDeliveryOrder(assignments)), sorted);
  }

  /** The delivery orders are exactly 1..N: each position gets its own number in that range. */
  lemma DeliveryOrdersAreOneToN(assignments: seq<Assignment>)
    ensures var r := GetDeliveryOrder(assignments);
      && (forall i :: 0 <= i < |r| ==> r[i].deliveryOrder == i + 1)
      && (forall i :: 0 <= i < |r| ==> 1 <= r[i].deliveryOrder <= |assignments|)
      && (forall i, j :: 0 <= i < j < |r| ==> r[i].deliveryOrder < r[j].deliveryOrder)
  {
  }

  /**
   * `canStart` and `isCurrentDelivery` agree everywhere; they hold at most
   * at one position, the first, and only when that assignment is pending.
   */
  lemma AtMostOneStartable(assignments: seq<Assignment>)
    ensures var r := GetDeliveryOrder(assignments);
      && (forall i :: 0 <= i < |r| ==> r[i].canStart == r[i].isCurrentDelivery)
      && (forall i :: 0 <= i < |r| ==> (r[i].canStart <==> i == 0 && r[i].assignment.status == Pending))
      && (forall i, j :: 0 <= i < |r| && 0 <= j < |r| && r[i].canStart && r[j].canStart ==> i == j)
  {
  }

  /** An assignment that may be started is dated no later than any assignment of the driver. */
  lemma StartableIsEarliest(assignments: seq<Assignment>, i: nat)
    requires i < |GetDeliveryOrder(assignments)| && GetDeliveryOrder(assignments)[i].canStart
    ensures forall a :: a in assignments ==> GetDeliveryOrder(assignments)[i].assignment.assignedDate <= a.assignedDate
  {
    var sorted := SortByDate(assignments);
    forall a | a in assignments ensures sorted[0].assignedDate <= a.assignedDate {
      assert a in multiset(sorted);
      var k :| 0 <= k < |sorted| && sorted[k] == a;
    }
  }

  /**
   * The first assignment is never blocked; any later one is blocked exactly
   * when the one before it in the order is not delivered.
   */
  lemma BlockedIffPredecessorUndelivered(assignments: seq<Assignment>)
    ensures var r := GetDeliveryOrder(assignments);
      && (|r| > 0 ==> !r[0].isBlocked)
      && (forall i :: 0 < i < |r| ==> (r[i].isBlocked <==> r[i - 1].assignment.status != Delivered))
  {
  }

  /** The predicate `a.id === targetAssignmentId`. */
  function HasId(id: string): OrderedAssignment -> bool {
    (o: OrderedAssignment) => o.assignment.id == id
  }

  /**
   * `canStartDelivery`: the first assignment with the target id in the
   * ordered view decides; an unknown id cannot be started. Because only the
   * first position can start, the answer is yes exactly when the earliest
   * assignment has that id and is pending.
   */
  function CanStartDelivery(assignments: seq<Assignment>, targetId: string): (b: bool)
    ensures (forall a :: a in assignments ==> a.id != targetId) ==> !b
    ensures b <==> |assignments| > 0 && SortByDate(assignments)[0].id == targetId
                   && SortByDate(assignments)[0].status == Pending
  {
    var ordered := GetDeliveryOrder(assignments);
    var k := FindIndex(ordered, HasId(targetId));
    assert Find(ordered, HasId(targetId)) == if k < |ordered| then Some(ordered[k]) else None;
    assert |ordered| > 0 ==> SortByDate(assignments)[0] in multiset(assignments) by {
      if |ordered| > 0 { assert SortByDate(assignments)[0] in multiset(SortByDate(assignments)); }
    }
    match Find(ordered, HasId(targetId))
    case None => false
    case Some(target) => target.canStart
  }

  /** What `getActiveDelivery` returns: an assignment as given, or one from the ordered view. */
  datatype ActiveDelivery = InTransitDelivery(assignment: Assignment) | NextDelivery(ordered: OrderedAssignment)

  function IsInTransit(a: Assignment): bool {
    a.status == InTransit
  }

  function CanStart(o: OrderedAssignment): bool {
    o.canStart
  }

  /**
   * `getActiveDelivery`: the first in-transit assignment in input order;
   * failing that, the first position of the ordered view when it is pending;
   * otherwise nothing.
   */
  function GetActiveDelivery(assignments: seq<Assignment>): (r: Option<ActiveDelivery>)
    ensures r.Some? && r.value.InTransitDelivery? ==>
      exists k :: 0 <= k < |assignments| && assignments[k] == r.value.assignment
        && assignments[k].status == InTransit
        && forall j :: 0 <= j < k ==> assignments[j].status != InTransit
    ensures (exists k :: 0 <= k < |assignments| && assignments[k].status == InTransit) ==>
      r.Some? && r.value.InTransitDelivery?
    ensures (forall k :: 0 <= k < |assignments| ==> assignments[k].status != InTransit) ==>
      (r.Some? <==> |assignments| > 0 && SortByDate(assignments)[0].status == Pending)
    ensures r.Some? && r.value.NextDelivery? ==>
      |assignments| > 0 && r.value.ordered == GetDeliveryOrder(assignments)[0] && r.value.ordered.canStart
  {
    match Find(assignments, IsInTransit)
    case Some(a) => Some(InTransitDelivery(a))
    case None =>
      var ordered := GetDeliveryOrder(assignments);
      match Find(ordered, CanStart)
      case Some(o) =>
        assert o == ordered[0];
        Some(NextDelivery(o))
      case None =>
        assert |ordered| > 0 ==> !CanStart(ordered[0]);
        None
  }

  /**
   * Two pending assignments, given in either order: the earlier is first,
   * may start and is not blocked; the later is second, blocked and may not
   * start.
   */
  lemma TwoPendingOrder(a: Assignment, b: Assignment, s: seq<Assignment>)
    requires a.assignedDate < b.assignedDate
    requires a.status == Pending && b.status == Pending
    requires s == [a, b] || s == [b, a]
    ensures var r := GetDeliveryOrder(s);
      && r[0].assignment == a && r[0].deliveryOrder == 1 && r[0].canStart && !r[0].isBlocked
      && r[1].assignment == b && r[1].deliveryOrder == 2 && !r[1].canStart && r[1].isBlocked
      && CanStartDelivery(s, a.id)
      && GetActiveDelivery(s) == Some(NextDelivery(r[0]))
  {
    TwoSortByDate(a, b, s);
    TwoPendingView(a, b, s);
    assert forall k :: 0 <= k < |s| ==> s[k].status != InTransit;
    TwoPendingCanStart(a, b, s);
    TwoPendingActive(a, b, s);
  }

  /** The ordered view of a list that sorts to two pending assignments. */
  lemma TwoPendingView(a: Assignment, b: Assignment, s: seq<Assignment>)
    requires SortByDate(s) == [a, b]
    requires a.status == Pending && b.status == Pending
    ensures var r := GetDeliveryOrder(s);
      && r[0].assignment == a && r[0].deliveryOrder == 1 && r[0].canStart && !r[0].isBlocked
      && r[1].assignment == b && r[1].deliveryOrder == 2 && !r[1].canStart && r[1].isBlocked
  {
  }

  /** The earlier of two pending assignments may be started. */
  lemma TwoPendingCanStart(a: Assignment, b: Assignment, s: seq<Assignment>)
    requires SortByDate(s) == [a, b]
    requires a.status == Pending && b.status == Pending
    ensures CanStartDelivery(s, a.id)
  {
  }

  /** With none in transit, the active delivery is the head of the view. */
  lemma TwoPendingActive(a: Assignment, b: Assignment, s: seq<Assignment>)
    requires SortByDate(s) == [a, b]
    requires a.status == Pending && b.status == Pending
    requires forall k :: 0 <= k < |s| ==> s[k].status != InTransit
    ensures GetActiveDelivery(s) == Some(NextDelivery(GetDeliveryOrder(s)[0]))
  {
  }

  /** Either order of two assignments with distinct dates sorts to the earlier first. */
  lemma TwoSortByDate(a: Assignment, b: Assignment, s: seq<Assignment>)
    requires a.assignedDate < b.assignedDate
    requires s == [a, b] || s == [b, a]
    ensures SortByDate(s) == [a, b]
  {
    if s == [b, a] {
      assert s[1..] == [a];
      assert SortByDate([a]) == [a];
    } else {
      assert s[1..] == [b];
      assert SortByDate([b]) == [b];
    }
  }

  /**
   * Once the first assignment is delivered, the next one is no longer
   * blocked but still cannot be started: only the first position of the
   * order can start, and the delivered assignment keeps that position for
   * as long as it is in the list.
   */
  lemma DeliveredHeadUnblocksButDoesNotStart(a: Assignment, b: Assignment)
    requires a.assignedDate < b.assignedDate
    requires a.status == Delivered && b.status == Pending
    ensures var r := GetDeliveryOrder([a, b]);
      && r[1].assignment == b && !r[1].isBlocked && !r[1].canStart
      && !CanStartDelivery([a, b], b.id)
      && GetActiveDelivery([a, b]).None?
  {
    var s := [a, b];
    assert s[1..] == [b];
    assert SortByDate([b]) == [b];
    assert SortByDate(s) == [a, b];
  }
}
