/** Replaying an issue's events up to a cutoff: which labels it carried, whether it was
    open, and the weekly counts. */
module IssueReplay {
  import opened Options

  type Time = int
  type Label = string

  datatype Kind = Labeled | Unlabeled | Closed | Reopened | Other

  /** An event; its time stamp or its label's name may be missing. */
  datatype Event = Event(created: Option<Time>, kind: Kind, name: Option<Label>)

  // ----- The replay order -----

  /** Sorting keys: a missing stamp comes before all others. */
  predicate KeyLess(a: Option<Time>, b: Option<Time>) {
    match (a, b)
    case (None, Some(_)) => true
    case (Some(s), Some(t)) => s < t
    case _ => false
  }

  /** Event `i` is replayed before event `j`: by stamp, then by position. */
  predicate Earlier(events: seq<Event>, i: nat, j: nat)
    requires i < |events| && j < |events|
  {
    || KeyLess(events[i].created, events[j].created)
    || (events[i].created == events[j].created && i < j)
  }

  ghost predicate InOrder(events: seq<Event>, order: seq<nat>) {
    && (forall k :: 0 <= k < |order| ==> order[k] < |events|)
    && (forall k, m :: 0 <= k < m < |order| ==> Earlier(events, order[k], order[m]))
  }

  /** Position `i`, behind all positions in `order`, put where a stable sort has it. */
  function Place(events: seq<Event>, i: nat, order: seq<nat>): (r: seq<nat>)
    requires i < |events| && forall k :: 0 <= k < |order| ==> order[k] < i
    ensures forall k :: 0 <= k < |r| ==> r[k] <= i
    ensures forall m: nat :: m in r <==> m in order || m == i
  {
    if order == [] then [i] else
    var n := |order| - 1;
    if KeyLess(events[i].created, events[order[n]].created) then Place(events, i, order[..n]) + [order[n]]
    else order + [i]
  }

  /** The positions of the first `n` events, stably sorted by stamp. */
  function SortedPositions(events: seq<Event>, n: nat): (order: seq<nat>)
    requires n <= |events|
    ensures forall k :: 0 <= k < |order| ==> order[k] < n
    ensures forall i: nat :: i in order <==> i < n
  {
    if n == 0 then [] else Place(events, n - 1, SortedPositions(events, n - 1))
  }

  lemma {:induction false} PlaceInOrder(events: seq<Event>, i: nat, order: seq<nat>)
    requires i < |events| && (forall k :: 0 <= k < |order| ==> order[k] < i) && InOrder(events, order)
    ensures InOrder(events, Place(events, i, order))
    decreases |order|
  {
    var r, n := Place(events, i, order), |order| - 1;
    if order != [] && KeyLess(events[i].created, events[order[n]].created) {
      var front := Place(events, i, order[..n]);
      PlaceInOrder(events, i, order[..n]);
      forall k | 0 <= k < |front| ensures Earlier(events, front[k], order[n]) {
        assert front[k] in front;
      }
    } else {
      forall k | 0 <= k < |order| ensures Earlier(events, order[k], i) {
        assert k < n ==> Earlier(events, order[k], order[n]);
      }
    }
  }

  lemma {:induction false} PositionsInOrder(events: seq<Event>, n: nat)
    requires n <= |events|
    ensures InOrder(events, SortedPositions(events, n))
    decreases n
  {
    if n > 0 {
      PositionsInOrder(events, n - 1);
      PlaceInOrder(events, n - 1, SortedPositions(events, n - 1));
    }
  }

  // ----- What held at the cutoff -----

  predicate Seen(e: Event, cutoff: Time) { e.created.Some? && e.created.value <= cutoff }

  /** What an event can decide: whether a label is on, or whether the issue is closed. */
  datatype Topic = OfLabel(l: Label) | OfState

  predicate Concerns(e: Event, cutoff: Time, topic: Topic) {
    && Seen(e, cutoff)
    && match topic
       case OfLabel(l) => e.name == Some(l) && l != "" && (e.kind.Labeled? || e.kind.Unlabeled?)
       case OfState => e.kind.Closed? || e.kind.Reopened?
  }

  /** Event `i` is the last by the cutoff that concerns the topic. */
  ghost predicate Last(events: seq<Event>, cutoff: Time, topic: Topic, i: nat) {
    && i < |events| && Concerns(events[i], cutoff, topic)
    && forall j: nat :: j < |events| && Concerns(events[j], cutoff, topic) ==> !Earlier(events, i, j)
  }

  ghost predicate LastEvent(events: seq<Event>, cutoff: Time, topic: Topic, e: Event) {
    exists i: nat :: Last(events, cutoff, topic, i) && events[i] == e
  }

  /** The last writer of label `l` put it on. */
  ghost predicate Carried(events: seq<Event>, cutoff: Time, l: Label) {
    exists e :: LastEvent(events, cutoff, OfLabel(l), e) && e.kind.Labeled?
  }

  /** The last change of state closed the issue, at `t`. */
  ghost predicate ClosedSince(events: seq<Event>, cutoff: Time, t: Time) {
    exists e :: LastEvent(events, cutoff, OfState, e) && e.kind.Closed? && e.created == Some(t)
  }

  ghost predicate AllStamped(events: seq<Event>) {
    forall i: nat :: i < |events| ==> events[i].created.Some?
  }

  // ----- Replay -----

  /** The last of the first `k` replayed events that concerns the topic. */
  ghost function LastBy(events: seq<Event>, order: seq<nat>, k: nat, cutoff: Time, topic: Topic): Option<nat>
    requires k <= |order| && forall m :: 0 <= m < |order| ==> order[m] < |events|
  {
    if k == 0 then None
    else if Concerns(events[order[k - 1]], cutoff, topic) then Some(order[k - 1])
    else LastBy(events, order, k - 1, cutoff, topic)
  }

  lemma {:induction false} LastByIs(events: seq<Event>, order: seq<nat>, k: nat, cutoff: Time, topic: Topic)
    requires k <= |order| && forall m :: 0 <= m < |order| ==> order[m] < |events|
    ensures match LastBy(events, order, k, cutoff, topic)
            case None => forall m: nat :: m < k ==> !Concerns(events[order[m]], cutoff, topic)
            case Some(i) =>
              (exists m: nat :: m < k && order[m] == i && Concerns(events[i], cutoff, topic) &&
                 (forall n: nat :: m < n < k ==> !Concerns(events[order[n]], cutoff, topic)))
    decreases k
  {
    hide Concerns;
    if k > 0 { LastByIs(events, order, k - 1, cutoff, topic); }
  }

  lemma LastUnique(events: seq<Event>, cutoff: Time, topic: Topic, i: nat, j: nat)
    requires Last(events, cutoff, topic, i) && Last(events, cutoff, topic, j)
    ensures i == j
  {
  }

  /** When the rest of the replay concerns nothing, the last of the first `k` is the
      last of all. */
  lemma LastByAll(events: seq<Event>, order: seq<nat>, k: nat, cutoff: Time, topic: Topic)
    requires InOrder(events, order) && k <= |order| && forall i: nat :: i < |events| ==> i in order
    requires forall m: nat :: k <= m < |order| ==> !Concerns(events[order[m]], cutoff, topic)
    ensures match LastBy(events, order, k, cutoff, topic)
            case None => forall i: nat :: !Last(events, cutoff, topic, i)
            case Some(i) => Last(events, cutoff, topic, i)
  {
    hide Concerns;
    LastByIs(events, order, k, cutoff, topic);
    match LastBy(events, order, k, cutoff, topic)
    case None =>
      forall i: nat ensures !Last(events, cutoff, topic, i) {
        assert i < |events| ==> i in order;
      }
    case Some(i) =>
      var m: nat :| m < k && order[m] == i && Concerns(events[i], cutoff, topic) &&
        forall n: nat :: m < n < k ==> !Concerns(events[order[n]], cutoff, topic);
      forall j: nat | j < |events| && Concerns(events[j], cutoff, topic) ensures !Earlier(events, i, j) {
        assert j in order;
        var n: nat :| n < |order| && order[n] == j;
        assert n <= m;
      }
  }

  /** The replay has reached an event it stops at: nothing after it counts. */
  lemma RestUnseen(events: seq<Event>, order: seq<nat>, k: nat, cutoff: Time)
    requires InOrder(events, order) && k < |order|
    requires events[order[k]].created.Some? && events[order[k]].created.value > cutoff
    ensures forall m: nat :: k <= m < |order| ==> events[order[m]].created.Some? && !Seen(events[order[m]], cutoff)
  {
    forall m: nat | k <= m < |order| ensures events[order[m]].created.Some? && !Seen(events[order[m]], cutoff) {
      assert m == k || Earlier(events, order[k], order[m]);
    }
  }

  /** A missing stamp comes first. */
  lemma UnstampedFirst(events: seq<Event>, order: seq<nat>, k: nat)
    requires InOrder(events, order) && k < |order| && events[order[k]].created.None?
    ensures forall m: nat :: m <= k ==> events[order[m]].created.None?
  {
    forall m: nat | m <= k ensures events[order[m]].created.None? {
      assert m == k || Earlier(events, order[m], order[k]);
    }
  }

  ghost predicate LabelsBy(events: seq<Event>, order: seq<nat>, k: nat, cutoff: Time, labels: set<Label>)
    requires k <= |order| && forall m :: 0 <= m < |order| ==> order[m] < |events|
  {
    forall l: Label :: l in labels <==> LabelOnBy(events, order, k, cutoff, l)
  }

  ghost predicate LabelOnBy(events: seq<Event>, order: seq<nat>, k: nat, cutoff: Time, l: Label)
    requires k <= |order| && forall m :: 0 <= m < |order| ==> order[m] < |events|
  {
    var i := LastBy(events, order, k, cutoff, OfLabel(l));
    i.Some? && i.value < |events| && events[i.value].kind.Labeled?
  }

  /** Which labels a replay that stopped at `k` leaves. */
  lemma LabelsDone(events: seq<Event>, order: seq<nat>, k: nat, cutoff: Time, labels: set<Label>)
    requires InOrder(events, order) && k <= |order| && forall i: nat :: i < |events| ==> i in order
    requires forall m: nat :: m < k ==> Seen(events[order[m]], cutoff)
    requires k < |order| ==> !Seen(events[order[k]], cutoff)
    requires LabelsBy(events, order, k, cutoff, labels)
    ensures forall l: Label :: l in labels <==> AllStamped(events) && Carried(events, cutoff, l)
  {
    if k < |order| && events[order[k]].created.None? {
      UnstampedFirst(events, order, k);
      assert events[order[0]].created.None?;
      assert !AllStamped(events);
    } else {
      if k < |order| { RestUnseen(events, order, k, cutoff); }
      forall i: nat | i < |events| ensures events[i].created.Some? {
        assert i in order;
        var m: nat :| m < |order| && order[m] == i;
        assert m < k || k <= m;
      }
      assert AllStamped(events);
      forall l: Label ensures LabelOnBy(events, order, k, cutoff, l) <==> Carried(events, cutoff, l) {
        LastByAll(events, order, k, cutoff, OfLabel(l));
        LabelOnCarried(events, order, k, cutoff, l);
      }
    }
  }

  lemma LabelOnCarried(events: seq<Event>, order: seq<nat>, k: nat, cutoff: Time, l: Label)
    requires k <= |order| && forall m :: 0 <= m < |order| ==> order[m] < |events|
    requires match LastBy(events, order, k, cutoff, OfLabel(l))
             case None => forall i: nat :: !Last(events, cutoff, OfLabel(l), i)
             case Some(i) => Last(events, cutoff, OfLabel(l), i)
    ensures LabelOnBy(events, order, k, cutoff, l) <==> Carried(events, cutoff, l)
  {
    var i := LastBy(events, order, k, cutoff, OfLabel(l));
    hide LastBy, Last, Concerns;
    if Carried(events, cutoff, l) {
      var e :| LastEvent(events, cutoff, OfLabel(l), e) && e.kind.Labeled?;
      var j: nat :| Last(events, cutoff, OfLabel(l), j) && e == events[j];
      LastUnique(events, cutoff, OfLabel(l), j, i.value);
    }
    if LabelOnBy(events, order, k, cutoff, l) {
      assert LastEvent(events, cutoff, OfLabel(l), events[i.value]);
    }
  }

  /** With a stamp on every event the labels are last-writer-wins; an event without a
      stamp sorts first and ends the replay before it begins. */
  method LabelsAt(events: seq<Event>, cutoff: Time) returns (labels: set<Label>)
    ensures forall l: Label :: l in labels <==> AllStamped(events) && Carried(events, cutoff, l)
  {
    var order := SortedPositions(events, |events|);
    PositionsInOrder(events, |events|);
    hide SortedPositions, InOrder, Carried, AllStamped;
    labels := {};
    var k := 0;
    while k < |order|
      invariant 0 <= k <= |order|
      invariant forall m: nat :: m < k ==> Seen(events[order[m]], cutoff)
      invariant LabelsBy(events, order, k, cutoff, labels)
    {
      var e := events[order[k]];
      if e.created.None? || e.created.value > cutoff { break; }
      if e.name.Some? && e.name.value != "" {
        if e.kind.Labeled? {
          labels := labels + {e.name.value};
        } else if e.kind.Unlabeled? {
          labels := labels - {e.name.value};
        }
      }
      k := k + 1;
    }
    LabelsDone(events, order, k, cutoff, labels);
  }

  ghost predicate StateBy(events: seq<Event>, order: seq<nat>, k: nat, cutoff: Time, closed: bool, closedAt: Option<Time>)
    requires k <= |order| && forall m :: 0 <= m < |order| ==> order[m] < |events|
  {
    var i := LastBy(events, order, k, cutoff, OfState);
    && (closed <==> i.Some? && i.value < |events| && events[i.value].kind.Closed?)
    && closedAt == if closed then events[i.value].created else None
  }

  lemma StateDone(events: seq<Event>, order: seq<nat>, k: nat, cutoff: Time, closed: bool, closedAt: Option<Time>)
    requires InOrder(events, order) && k <= |order| && forall i: nat :: i < |events| ==> i in order
    requires k < |order| ==> events[order[k]].created.Some? && events[order[k]].created.value > cutoff
    requires StateBy(events, order, k, cutoff, closed, closedAt)
    ensures closed <==> closedAt.Some?
    ensures forall t: Time :: closedAt == Some(t) <==> ClosedSince(events, cutoff, t)
  {
    if k < |order| { RestUnseen(events, order, k, cutoff); }
    LastByAll(events, order, k, cutoff, OfState);
    hide InOrder;
    var i := LastBy(events, order, k, cutoff, OfState);
    forall t: Time ensures closedAt == Some(t) <==> ClosedSince(events, cutoff, t) {
      if ClosedSince(events, cutoff, t) {
        var e :| LastEvent(events, cutoff, OfState, e) && e.kind.Closed? && e.created == Some(t);
        var j: nat :| Last(events, cutoff, OfState, j) && e == events[j];
        LastUnique(events, cutoff, OfState, j, i.value);
      }
      if closedAt == Some(t) {
        assert LastEvent(events, cutoff, OfState, events[i.value]);
      }
    }
  }

  /** The state is that of the last closing or reopening by the cutoff, whatever other
      events lack a stamp. */
  method StateAt(events: seq<Event>, cutoff: Time) returns (closed: bool, closedAt: Option<Time>)
    ensures closed <==> closedAt.Some?
    ensures forall t: Time :: closedAt == Some(t) <==> ClosedSince(events, cutoff, t)
  {
    var order := SortedPositions(events, |events|);
    PositionsInOrder(events, |events|);
    hide SortedPositions, InOrder, ClosedSince;
    closed, closedAt := false, None;
    var k := 0;
    while k < |order|
      invariant 0 <= k <= |order|
      invariant StateBy(events, order, k, cutoff, closed, closedAt)
    {
      var e := events[order[k]];
      if e.created.Some? {
        if e.created.value > cutoff { break; }
        if e.kind.Closed? {
          closed, closedAt := true, e.created;
        } else if e.kind.Reopened? {
          closed, closedAt := false, None;
        }
      }
      k := k + 1;
    }
    StateDone(events, order, k, cutoff, closed, closedAt);
  }

  // ----- What the replay does not depend on -----

  function Inserted(events: seq<Event>, e: Event, at: nat): seq<Event>
    requires at <= |events|
  {
    events[..at] + [e] + events[at..]
  }

  /** Where position `i` goes when something is inserted. */
  function Shifted(at: nat, i: nat): nat { if i < at then i else i + 1 }

  lemma ShiftKeeps(events: seq<Event>, e: Event, at: nat, i: nat, j: nat)
    requires at <= |events| && i < |events| && j < |events|
    ensures Inserted(events, e, at)[Shifted(at, i)] == events[i] && Inserted(events, e, at)[at] == e
    ensures Earlier(Inserted(events, e, at), Shifted(at, i), Shifted(at, j)) <==> Earlier(events, i, j)
  {
    assert Inserted(events, e, at)[Shifted(at, j)] == events[j];
  }

  /** Where a position of the longer list, other than the new one, comes from. */
  function Unshifted(at: nat, j: nat): (i: nat)
    requires j != at
    ensures Shifted(at, i) == j
  {
    if j < at then j else j - 1
  }

  lemma LastShiftedUp(events: seq<Event>, e: Event, at: nat, cutoff: Time, topic: Topic, i: nat)
    requires at <= |events| && !Seen(e, cutoff) && Last(events, cutoff, topic, i)
    ensures Last(Inserted(events, e, at), cutoff, topic, Shifted(at, i)) && Inserted(events, e, at)[Shifted(at, i)] == events[i]
  {
    var more := Inserted(events, e, at);
    ShiftKeeps(events, e, at, i, i);
    assert !Concerns(e, cutoff, topic);
    assert |more| == |events| + 1;
    hide Earlier, Concerns, Inserted;
    forall j: nat | j < |more| && Concerns(more[j], cutoff, topic) ensures !Earlier(more, Shifted(at, i), j) {
      var was := Unshifted(at, j);
      ShiftKeeps(events, e, at, i, was);
      ShiftKeeps(events, e, at, was, was);
    }
  }

  lemma LastShiftedDown(events: seq<Event>, e: Event, at: nat, cutoff: Time, topic: Topic, j: nat) returns (i: nat)
    requires at <= |events| && !Seen(e, cutoff) && Last(Inserted(events, e, at), cutoff, topic, j)
    ensures Last(events, cutoff, topic, i) && events[i] == Inserted(events, e, at)[j]
  {
    var more := Inserted(events, e, at);
    assert more[at] == e && !Concerns(e, cutoff, topic) && |more| == |events| + 1;
    hide Earlier, Concerns, Inserted;
    i := Unshifted(at, j);
    ShiftKeeps(events, e, at, i, i);
    forall k: nat | k < |events| && Concerns(events[k], cutoff, topic) ensures !Earlier(events, i, k) {
      ShiftKeeps(events, e, at, i, k);
      ShiftKeeps(events, e, at, k, k);
    }
  }

  lemma LastEventInserted(events: seq<Event>, e: Event, at: nat, cutoff: Time, topic: Topic, d: Event)
    requires at <= |events| && !Seen(e, cutoff)
    ensures LastEvent(Inserted(events, e, at), cutoff, topic, d) <==> LastEvent(events, cutoff, topic, d)
  {
    hide Earlier, Concerns, Inserted;
    var more := Inserted(events, e, at);
    if LastEvent(events, cutoff, topic, d) {
      var i: nat :| Last(events, cutoff, topic, i) && events[i] == d;
      LastShiftedUp(events, e, at, cutoff, topic, i);
    }
    if LastEvent(more, cutoff, topic, d) {
      var j: nat :| Last(more, cutoff, topic, j) && more[j] == d;
      var i := LastShiftedDown(events, e, at, cutoff, topic, j);
    }
  }

  /** An event after the cutoff, wherever it is listed, changes neither labels nor state. */
  lemma FutureIrrelevant(events: seq<Event>, e: Event, at: nat, cutoff: Time, l: Label, t: Time)
    requires at <= |events| && e.created.Some? && e.created.value > cutoff
    ensures AllStamped(Inserted(events, e, at)) <==> AllStamped(events)
    ensures Carried(Inserted(events, e, at), cutoff, l) <==> Carried(events, cutoff, l)
    ensures ClosedSince(Inserted(events, e, at), cutoff, t) <==> ClosedSince(events, cutoff, t)
  {
    StampedShifted(events, e, at);
    hide LastEvent, AllStamped, Inserted;
    forall d ensures LastEvent(Inserted(events, e, at), cutoff, OfLabel(l), d) <==> LastEvent(events, cutoff, OfLabel(l), d) {
      LastEventInserted(events, e, at, cutoff, OfLabel(l), d);
    }
    forall d ensures LastEvent(Inserted(events, e, at), cutoff, OfState, d) <==> LastEvent(events, cutoff, OfState, d) {
      LastEventInserted(events, e, at, cutoff, OfState, d);
    }
  }

  lemma StampedShifted(events: seq<Event>, e: Event, at: nat)
    requires at <= |events| && e.created.Some?
    ensures AllStamped(Inserted(events, e, at)) <==> AllStamped(events)
  {
    var more := Inserted(events, e, at);
    if AllStamped(more) {
      forall i: nat | i < |events| ensures events[i].created.Some? {
        assert more[Shifted(at, i)] == events[i];
      }
    }
    if AllStamped(events) {
      forall j: nat | j < |more| ensures more[j].created.Some? {
        assert j == at || more[j] == events[if j < at then j else j - 1];
      }
    }
  }

  /** Events that concern the topic at the same time are the same event. */
  ghost predicate Distinct(events: seq<Event>, cutoff: Time, topic: Topic) {
    forall d, e :: d in events && e in events && Concerns(d, cutoff, topic) && Concerns(e, cutoff, topic) ==>
      (d.created == e.created ==> d == e)
  }

  /** `e` is the latest of the events that concern the topic, wherever it is listed. */
  ghost predicate Latest(events: seq<Event>, cutoff: Time, topic: Topic, e: Event) {
    && e in events && Concerns(e, cutoff, topic)
    && forall d :: d in events && Concerns(d, cutoff, topic) ==> d.created.value <= e.created.value
  }

  /** With distinct times the last event is the latest one, and there is one if any event
      concerns the topic. */
  lemma LastIsLatest(events: seq<Event>, cutoff: Time, topic: Topic, e: Event)
    requires Distinct(events, cutoff, topic)
    ensures LastEvent(events, cutoff, topic, e) <==> Latest(events, cutoff, topic, e)
  {
    hide Concerns;
    var order := SortedPositions(events, |events|);
    PositionsInOrder(events, |events|);
    LastByAll(events, order, |order|, cutoff, topic);
    LastByIs(events, order, |order|, cutoff, topic);
    hide SortedPositions, InOrder, LastBy;
    var last := LastBy(events, order, |order|, cutoff, topic);
    if last.Some? {
      LastLatest(events, cutoff, topic, last.value);
      forall i: nat | Last(events, cutoff, topic, i) ensures i == last.value {
        LastUnique(events, cutoff, topic, i, last.value);
      }
      if Latest(events, cutoff, topic, e) {
        assert Concerns(e, cutoff, topic) && Concerns(events[last.value], cutoff, topic);
        assert Seen(e, cutoff) && Seen(events[last.value], cutoff) by { ConcernsSeen(cutoff, topic); }
        assert e == events[last.value];
      }
    } else if e in events {
      var i: nat :| i < |events| && events[i] == e;
      assert i in order;
      var m: nat :| m < |order| && order[m] == i;
      assert !Concerns(events[order[m]], cutoff, topic);
    }
  }

  lemma ConcernsSeen(cutoff: Time, topic: Topic)
    ensures forall e :: Concerns(e, cutoff, topic) ==> Seen(e, cutoff)
  {
  }

  lemma LastLatest(events: seq<Event>, cutoff: Time, topic: Topic, i: nat)
    requires Last(events, cutoff, topic, i)
    ensures Latest(events, cutoff, topic, events[i])
  {
    forall d | d in events && Concerns(d, cutoff, topic) ensures d.created.value <= events[i].created.value {
      var j: nat :| j < |events| && events[j] == d;
      assert !Earlier(events, i, j);
    }
  }

  /** Listing the same events in another order changes nothing when times are distinct. */
  lemma ListingIrrelevant(events: seq<Event>, others: seq<Event>, cutoff: Time, l: Label, t: Time)
    requires forall e :: e in events <==> e in others
    requires Distinct(events, cutoff, OfLabel(l)) && Distinct(events, cutoff, OfState)
    ensures Carried(events, cutoff, l) <==> Carried(others, cutoff, l)
    ensures ClosedSince(events, cutoff, t) <==> ClosedSince(others, cutoff, t)
  {
    hide LastEvent;
    forall e ensures LastEvent(events, cutoff, OfLabel(l), e) <==> LastEvent(others, cutoff, OfLabel(l), e) {
      LastIsLatest(events, cutoff, OfLabel(l), e);
      LastIsLatest(others, cutoff, OfLabel(l), e);
    }
    forall e ensures LastEvent(events, cutoff, OfState, e) <==> LastEvent(others, cutoff, OfState, e) {
      LastIsLatest(events, cutoff, OfState, e);
      LastIsLatest(others, cutoff, OfState, e);
    }
    hide Distinct, Concerns, Latest;
  }

  // ----- The weekly row -----

  const CLASSES := 11
  const DAY := 86400

  datatype Issue = Issue(created: Time, class_: nat, events: seq<Event>)

  ghost predicate ClosedByEnd(issue: Issue, cutoff: Time) {
    exists t: Time :: ClosedSince(issue.events, cutoff, t)
  }

  ghost predicate ClosedInADay(issue: Issue, cutoff: Time) {
    exists t: Time :: ClosedSince(issue.events, cutoff, t) && t - issue.created <= DAY
  }

  function Sum(s: seq<nat>): nat {
    if s == [] then 0 else Sum(s[..|s| - 1]) + s[|s| - 1]
  }

  lemma {:induction false} SumBump(s: seq<nat>, i: nat)
    requires i < |s|
    ensures Sum(s[i := s[i] + 1]) == Sum(s) + 1
    decreases |s|
  {
    var n := |s| - 1;
    if i < n {
      SumBump(s[..n], i);
      assert s[i := s[i] + 1][..n] == s[..n][i := s[..n][i] + 1];
    } else {
      assert s[i := s[i] + 1][..n] == s[..n];
    }
  }

  lemma {:induction false} SumZero(n: nat)
    ensures Sum(seq(n, _ => 0)) == 0
    decreases n
  {
    if n > 0 {
      SumZero(n - 1);
      assert seq(n, _ => 0)[..n - 1] == seq(n - 1, _ => 0);
    }
  }

  /** How many of the issues belong to class `n`. */
  ghost function InClass(issues: seq<Issue>, n: nat): nat {
    |set i: nat | i < |issues| && issues[i].class_ == n|
  }

  lemma InClassNext(issues: seq<Issue>, m: nat, n: nat)
    requires m < |issues|
    ensures InClass(issues[..m + 1], n) == InClass(issues[..m], n) + (if issues[m].class_ == n then 1 else 0)
  {
    var before := set i: nat | i < |issues[..m]| && issues[..m][i].class_ == n;
    var more := issues[..m + 1];
    var after := set i: nat | i < |more| && more[i].class_ == n;
    assert after == if issues[m].class_ == n then before + {m} else before;
  }

  ghost predicate Classified(issues: seq<Issue>, m: nat, classes: seq<nat>)
    requires m <= |issues|
  {
    |classes| == CLASSES && forall n: nat :: n < CLASSES ==> classes[n] == InClass(issues[..m], n)
  }

  lemma ClassifiedNext(issues: seq<Issue>, m: nat, classes: seq<nat>)
    requires m < |issues| && Classified(issues, m, classes) && issues[m].class_ < CLASSES
    ensures Classified(issues, m + 1, classes[issues[m].class_ := classes[issues[m].class_] + 1])
  {
    hide InClass;
    var more := classes[issues[m].class_ := classes[issues[m].class_] + 1];
    forall n: nat | n < CLASSES ensures more[n] == InClass(issues[..m + 1], n) {
      InClassNext(issues, m, n);
    }
  }

  lemma ClassifiedNone(issues: seq<Issue>)
    ensures Classified(issues, 0, seq(CLASSES, _ => 0))
  {
  }

  /** How many of the issues were closed within a day of their creation, and are closed still. */
  ghost function RapidAmong(issues: seq<Issue>, cutoff: Time): nat {
    |set i: nat | i < |issues| && ClosedInADay(issues[i], cutoff)|
  }

  lemma RapidNext(issues: seq<Issue>, m: nat, cutoff: Time)
    requires m < |issues|
    ensures RapidAmong(issues[..m + 1], cutoff) == RapidAmong(issues[..m], cutoff) + (if ClosedInADay(issues[m], cutoff) then 1 else 0)
  {
    hide ClosedInADay;
    var before := set i: nat | i < |issues[..m]| && ClosedInADay(issues[..m][i], cutoff);
    var more := issues[..m + 1];
    var after := set i: nat | i < |more| && ClosedInADay(more[i], cutoff);
    assert after == if ClosedInADay(issues[m], cutoff) then before + {m} else before;
  }

  lemma IssueState(issue: Issue, cutoff: Time, closedAt: Option<Time>)
    requires forall t: Time :: closedAt == Some(t) <==> ClosedSince(issue.events, cutoff, t)
    ensures ClosedByEnd(issue, cutoff) <==> closedAt.Some?
    ensures ClosedInADay(issue, cutoff) <==> closedAt.Some? && closedAt.value - issue.created <= DAY
  {
    hide ClosedSince;
    if closedAt.Some? { assert ClosedSince(issue.events, cutoff, closedAt.value); }
  }

  method IssueStateAt(issue: Issue, cutoff: Time) returns (closed: bool, closedAt: Option<Time>)
    ensures (closed <==> closedAt.Some?) && (closed <==> ClosedByEnd(issue, cutoff))
    ensures ClosedInADay(issue, cutoff) <==> closed && closedAt.value - issue.created <= DAY
  {
    closed, closedAt := StateAt(issue.events, cutoff);
    IssueState(issue, cutoff, closedAt);
  }

  /** The first `n` issues, split by their state at the cutoff. */
  ghost predicate Cohort(issues: seq<Issue>, n: nat, cutoff: Time, closed: seq<Issue>, open: seq<Issue>, rapid: nat)
    requires n <= |issues|
  {
    && multiset(closed) + multiset(open) == multiset(issues[..n])
    && (forall i :: 0 <= i < |closed| ==> ClosedByEnd(closed[i], cutoff))
    && (forall i :: 0 <= i < |open| ==> !ClosedByEnd(open[i], cutoff))
    && rapid == RapidAmong(issues[..n], cutoff) <= |closed|
  }

  lemma CohortNone(issues: seq<Issue>, cutoff: Time)
    ensures Cohort(issues, 0, cutoff, [], [], 0)
  {
  }

  lemma CohortClosed(issues: seq<Issue>, n: nat, cutoff: Time, closed: seq<Issue>, open: seq<Issue>, rapid: nat)
    requires n < |issues| && Cohort(issues, n, cutoff, closed, open, rapid) && ClosedByEnd(issues[n], cutoff)
    ensures Cohort(issues, n + 1, cutoff, closed + [issues[n]], open, rapid + (if ClosedInADay(issues[n], cutoff) then 1 else 0))
  {
    hide ClosedByEnd, ClosedInADay, RapidAmong;
    RapidNext(issues, n, cutoff);
    assert issues[..n + 1] == issues[..n] + [issues[n]] && issues[..n + 1][..n] == issues[..n];
  }

  lemma CohortOpen(issues: seq<Issue>, n: nat, cutoff: Time, closed: seq<Issue>, open: seq<Issue>, rapid: nat)
    requires n < |issues| && Cohort(issues, n, cutoff, closed, open, rapid)
    requires !ClosedByEnd(issues[n], cutoff) && !ClosedInADay(issues[n], cutoff)
    ensures Cohort(issues, n + 1, cutoff, closed, open + [issues[n]], rapid)
  {
    hide ClosedByEnd, ClosedInADay, RapidAmong;
    RapidNext(issues, n, cutoff);
    assert issues[..n + 1] == issues[..n] + [issues[n]] && issues[..n + 1][..n] == issues[..n];
  }

  /** The cohort is split into issues closed and open at the cutoff, every issue counted
      in one class, and the quick closings are among the closed ones. */
  method WeeklyRow(issues: seq<Issue>, cutoff: Time) returns (closed: seq<Issue>, open: seq<Issue>, rapid: nat, classes: seq<nat>)
    requires forall i :: 0 <= i < |issues| ==> issues[i].class_ < CLASSES
    ensures multiset(closed) + multiset(open) == multiset(issues)
    ensures forall i :: 0 <= i < |closed| ==> ClosedByEnd(closed[i], cutoff)
    ensures forall i :: 0 <= i < |open| ==> !ClosedByEnd(open[i], cutoff)
    ensures rapid == RapidAmong(issues, cutoff) <= |closed|
    ensures |classes| == CLASSES && Sum(classes) == |issues|
    ensures forall n: nat :: n < CLASSES ==> classes[n] == InClass(issues, n)
  {
    closed, open, rapid, classes := [], [], 0, seq(CLASSES, _ => 0);
    SumZero(CLASSES);
    ClassifiedNone(issues);
    CohortNone(issues, cutoff);
    for n := 0 to |issues|
      invariant Cohort(issues, n, cutoff, closed, open, rapid)
      invariant |classes| == CLASSES && Sum(classes) == n
      invariant Classified(issues, n, classes)
    {
      hide Cohort, Sum, ClosedByEnd, ClosedInADay, Classified;
      var issue := issues[n];
      var isClosed, closedAt := IssueStateAt(issue, cutoff);
      SumBump(classes, issue.class_);
      ClassifiedNext(issues, n, classes);
      classes := classes[issue.class_ := classes[issue.class_] + 1];
      if isClosed {
        CohortClosed(issues, n, cutoff, closed, open, rapid);
        closed := closed + [issue];
        if closedAt.value - issue.created <= DAY {
          rapid := rapid + 1;
        }
      } else {
        CohortOpen(issues, n, cutoff, closed, open, rapid);
        open := open + [issue];
      }
    }
    assert issues[..|issues|] == issues;
  }
}
