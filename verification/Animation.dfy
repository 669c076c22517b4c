/** The growing-path animation player: one plot is extended forwards and redrawn
    backwards while a timer, a play button, a slider and redraw callbacks all move it. */
module Animation {
  import opened Options

  /** One trace's columns; a flat trace has no `z`. */
  datatype Trace = Trace(x: seq<real>, y: seq<real>, z: Option<seq<real>>)

  /** All points of every trace, and how many of each trace a frame shows. */
  datatype Clip = Clip(full: seq<Trace>, counts: seq<seq<nat>>)

  /** Something to show. */
  predicate NonEmpty(c: Clip) { c.full != [] && c.counts != [] }

  /** A count for every frame and trace. */
  ghost predicate WellShaped(c: Clip) {
    forall k :: 0 <= k < |c.counts| ==> |c.counts[k]| == |c.full|
  }

  /** Some trace has depth. */
  predicate HasDepth(c: Clip) {
    exists t :: 0 <= t < |c.full| && c.full[t].z.Some?
  }

  /** Depth on all traces or none. */
  ghost predicate Uniform(c: Clip) {
    forall t :: 0 <= t < |c.full| ==> c.full[t].z.Some? == HasDepth(c)
  }

  ghost predicate ValidClip(c: Clip) { NonEmpty(c) && WellShaped(c) }

  /** JavaScript's `slice` on counts: the end is clamped, and a start past it gives nothing. */
  function Slice<T>(s: seq<T>, a: nat, b: nat): seq<T> {
    var end := if b < |s| then b else |s|;
    if a >= end then [] else s[a..end]
  }

  function SliceTrace(t: Trace, a: nat, b: nat): Trace {
    Trace(Slice(t.x, a, b), Slice(t.y, a, b),
          if t.z.Some? then Some(Slice(t.z.value, a, b)) else None)
  }

  function Appended(t: Trace, more: Trace): Trace {
    Trace(t.x + more.x, t.y + more.y,
          if t.z.Some? && more.z.Some? then Some(t.z.value + more.z.value) else t.z)
  }

  /** What frame `k` should look like: each trace cut to its count. */
  function Frame(c: Clip, k: nat): (p: seq<Trace>)
    requires ValidClip(c) && k < |c.counts|
    ensures |p| == |c.full|
  {
    seq(|c.full|, t requires 0 <= t < |c.full| => SliceTrace(c.full[t], 0, c.counts[k][t]))
  }

  /** What `extendTraces` leaves when asked to go from frame `a` to frame `b`. */
  function Extended(c: Clip, plotted: seq<Trace>, a: nat, b: nat): (p: seq<Trace>)
    requires ValidClip(c) && a < |c.counts| && b < |c.counts| && |plotted| == |c.full|
    ensures |p| == |c.full|
  {
    seq(|c.full|, t requires 0 <= t < |c.full| =>
      Appended(plotted[t], SliceTrace(c.full[t], c.counts[a][t], c.counts[b][t])))
  }

  /** The depth columns of the first `n` traces, at frame `k`: flat traces have none. */
  function Depths(c: Clip, k: nat, n: nat): (zs: seq<seq<real>>)
    requires ValidClip(c) && k < |c.counts| && n <= |c.full|
    ensures zs != [] <==> exists t :: 0 <= t < n && c.full[t].z.Some?
  {
    if n == 0 then [] else
    Depths(c, k, n - 1) +
      (if c.full[n - 1].z.Some? then [Slice(c.full[n - 1].z.value, 0, c.counts[k][n - 1])] else [])
  }

  /** A restyle's positional lists; the library starts a short list over. */
  function RestylePlot(plotted: seq<Trace>, rx: seq<seq<real>>, ry: seq<seq<real>>, rz: seq<seq<real>>): (p: seq<Trace>)
    requires |rx| == |ry| == |plotted|
    ensures |p| == |plotted|
  {
    seq(|plotted|, t requires 0 <= t < |plotted| =>
      Trace(rx[t], ry[t], if rz != [] then Some(rz[t % |rz|]) else plotted[t].z))
  }

  /** What redrawing frame `k` leaves. */
  function Restyled(c: Clip, plotted: seq<Trace>, k: nat): (p: seq<Trace>)
    requires ValidClip(c) && k < |c.counts| && |plotted| == |c.full|
    ensures |p| == |c.full|
  {
    RestylePlot(plotted,
                seq(|c.full|, t requires 0 <= t < |c.full| => Slice(c.full[t].x, 0, c.counts[k][t])),
                seq(|c.full|, t requires 0 <= t < |c.full| => Slice(c.full[t].y, 0, c.counts[k][t])),
                Depths(c, k, |c.full|))
  }

  // ----- The player -----

  type TimerId = nat

  /** The closure's variables, the plot, the slider, and the browser's live intervals
      and redraw callbacks. `title` is the frame whose title is shown. */
  datatype Player = Player(
    cur: nat, useRestyle: bool, timer: Option<TimerId>, rafPending: bool, pendingK: nat,
    plotted: seq<Trace>, title: nat, slider: nat, pauseShown: bool,
    live: set<TimerId>, nextTimer: TimerId, redraws: nat)

  /** `extendTraces` succeeds, or throws and leaves anything behind. */
  datatype Outcome = Grown | Threw(remains: seq<Trace>)

  datatype Event =
    | Click(outcome: Outcome)
    | Tick(id: TimerId, outcome: Outcome)
    | Scrub(k: nat, outcome: Outcome)
    | Redraw(outcome: Outcome)

  /** A failed extension may leave anything in the columns it was given: `z` only when
      some trace has depth. */
  function Spoiled(c: Clip, plotted: seq<Trace>, remains: seq<Trace>): (p: seq<Trace>)
    ensures |p| == |plotted|
  {
    seq(|plotted|, t requires 0 <= t < |plotted| =>
      if t >= |remains| then plotted[t]
      else Trace(remains[t].x, remains[t].y, if HasDepth(c) then remains[t].z else plotted[t].z))
  }

  /** Frame `k` is drawn: extended from the current one, or redrawn from scratch. A
      throw switches to redrawing for good. */
  function Shown(c: Clip, s: Player, k: nat, o: Outcome): Player
    requires ValidClip(c) && k < |c.counts| && s.cur < |c.counts| && |s.plotted| == |c.full|
  {
    if k == s.cur then s
    else if k > s.cur && !s.useRestyle then
      if o.Grown? then s.(plotted := Extended(c, s.plotted, s.cur, k), cur := k, title := k)
      else s.(plotted := Restyled(c, Spoiled(c, s.plotted, o.remains), k), useRestyle := true, cur := k, title := k)
    else s.(plotted := Restyled(c, s.plotted, k), cur := k, title := k)
  }

  function Labelled(s: Player): Player { s.(slider := s.cur) }

  function Stopped(s: Player): Player {
    s.(timer := None, live := if s.timer.Some? then s.live - {s.timer.value} else s.live, pauseShown := false)
  }

  function Played(c: Clip, s: Player, o: Outcome): Player
    requires ValidClip(c) && s.cur < |c.counts| && |s.plotted| == |c.full|
  {
    if s.timer.Some? then Stopped(s) else
    var s1 := if s.cur >= |c.counts| - 1 then Labelled(Shown(c, s, 0, o)) else s;
    s1.(pauseShown := true, timer := Some(s1.nextTimer), live := s1.live + {s1.nextTimer}, nextTimer := s1.nextTimer + 1)
  }

  /** The interval's callback. */
  function Advance(c: Clip, s: Player, o: Outcome): Player
    requires ValidClip(c) && s.cur < |c.counts| && |s.plotted| == |c.full|
  {
    if s.cur >= |c.counts| - 1 then Stopped(s) else Labelled(Shown(c, s, s.cur + 1, o))
  }

  /** The slider's handler: with depth, drags are coalesced into one redraw. */
  function Drag(c: Clip, s: Player, k: nat, o: Outcome): Player
    requires ValidClip(c) && k < |c.counts| && s.cur < |c.counts| && |s.plotted| == |c.full|
  {
    var s1 := Stopped(s).(pendingK := k, slider := k);
    if HasDepth(c) then
      if s1.rafPending then s1 else s1.(rafPending := true, redraws := s1.redraws + 1)
    else Labelled(Shown(c, s1, k, o))
  }

  function Redrawn(c: Clip, s: Player, o: Outcome): Player
    requires ValidClip(c) && s.cur < |c.counts| && |s.plotted| == |c.full| && s.pendingK < |c.counts| && s.redraws > 0
  {
    Labelled(Shown(c, s.(rafPending := false, redraws := s.redraws - 1), s.pendingK, o))
  }

  /** The browser can deliver the event now. */
  predicate Possible(c: Clip, s: Player, e: Event) {
    match e
    case Click(_) => true
    case Tick(id, _) => id in s.live
    case Scrub(k, _) => k < |c.counts|
    case Redraw(_) => s.redraws > 0
  }

  ghost predicate Shaped(c: Clip, s: Player) {
    s.cur < |c.counts| && s.pendingK < |c.counts| && |s.plotted| == |c.full|
  }

  function Handle(c: Clip, s: Player, e: Event): (s': Player)
    requires ValidClip(c) && Shaped(c, s)
    ensures Shaped(c, s')
  {
    if !Possible(c, s, e) then s else
    match e
    case Click(o) => Played(c, s, o)
    case Tick(_, o) => Advance(c, s, o)
    case Scrub(k, o) => Drag(c, s, k, o)
    case Redraw(o) => Redrawn(c, s, o)
  }

  /** Before the auto-play: frame 0 drawn, no timer. */
  function Drawn(c: Clip): Player
    requires ValidClip(c)
  {
    Player(0, false, None, false, 0, Frame(c, 0), 0, 0, false, {}, 1, 0)
  }

  /** The state once the events have been handled, after the auto-play has begun. */
  function After(c: Clip, events: seq<Event>): (s: Player)
    requires ValidClip(c)
    ensures Shaped(c, s)
  {
    if events == [] then Played(c, Drawn(c), Grown)
    else Handle(c, After(c, events[..|events| - 1]), events[|events| - 1])
  }

  // ----- Every run -----

  /** The frames of a column never shrink, once cut to what the column holds. */
  predicate ColumnGrows<T>(s: seq<T>, a: nat, b: nat) {
    |Slice(s, 0, a)| <= |Slice(s, 0, b)|
  }

  predicate TraceGrows(t: Trace, a: nat, b: nat) {
    ColumnGrows(t.x, a, b) && ColumnGrows(t.y, a, b) && (t.z.Some? ==> ColumnGrows(t.z.value, a, b))
  }

  /** Every trace grows from frame `a` to frame `b`. */
  ghost predicate Grows(c: Clip, a: nat, b: nat)
    requires ValidClip(c) && a < |c.counts| && b < |c.counts|
  {
    forall t :: 0 <= t < |c.full| ==> TraceGrows(c.full[t], c.counts[a][t], c.counts[b][t])
  }

  /** Frame by frame, no trace loses points. */
  ghost predicate Growing(c: Clip)
    requires ValidClip(c)
  {
    forall k: nat {:trigger Grows(c, k, k + 1)} :: k + 1 < |c.counts| ==> Grows(c, k, k + 1)
  }

  /** What holds between events whatever the counts: at most one interval, known to the
      player; at most one redraw; title and slider follow the current frame. */
  ghost predicate Orderly(c: Clip, s: Player) {
    && s.live == (if s.timer.Some? then {s.timer.value} else {})
    && (s.timer.Some? ==> s.timer.value < s.nextTimer)
    && (s.pauseShown <==> s.timer.Some?)
    && s.redraws == (if s.rafPending then 1 else 0)
    && s.title == s.cur
    && (!s.rafPending ==> s.slider == s.cur)
  }

  /** What is plotted is the current frame. */
  ghost predicate Faithful(c: Clip, s: Player)
    requires ValidClip(c) && Shaped(c, s)
  {
    s.plotted == Frame(c, s.cur)
  }

  lemma HandleOrderly(c: Clip, s: Player, e: Event)
    requires ValidClip(c) && Shaped(c, s) && Orderly(c, s)
    ensures Orderly(c, Handle(c, s, e))
  {
    hide Frame, Extended, Restyled, ValidClip, Spoiled, HasDepth;
  }

  /** In every run at most one interval and one redraw are live, and the button, the
      slider and the title tell the truth. */
  lemma {:induction false} AlwaysOrderly(c: Clip, events: seq<Event>)
    requires ValidClip(c)
    ensures Orderly(c, After(c, events))
    ensures |After(c, events).live| <= 1
    decreases |events|
  {
    hide ValidClip, Frame, Extended, Handle;
    if events != [] {
      AlwaysOrderly(c, events[..|events| - 1]);
      HandleOrderly(c, After(c, events[..|events| - 1]), events[|events| - 1]);
    }
  }

  lemma SliceJoins<T>(s: seq<T>, a: nat, b: nat)
    ensures Slice(s, 0, a) + Slice(s, a, b) == Slice(s, 0, b) <==> ColumnGrows(s, a, b)
  {
    if !ColumnGrows(s, a, b) {
      assert |Slice(s, 0, a) + Slice(s, a, b)| >= |Slice(s, 0, a)|;
    }
  }

  /** Extending draws the later frame exactly when every trace grows. */
  lemma ExtendedIffGrows(c: Clip, a: nat, b: nat)
    requires ValidClip(c) && a < |c.counts| && b < |c.counts|
    ensures Extended(c, Frame(c, a), a, b) == Frame(c, b) <==> Grows(c, a, b)
  {
    var p, q := Extended(c, Frame(c, a), a, b), Frame(c, b);
    forall t | 0 <= t < |c.full|
      ensures p[t] == q[t] <==> TraceGrows(c.full[t], c.counts[a][t], c.counts[b][t])
    {
      var tr, m, n := c.full[t], c.counts[a][t], c.counts[b][t];
      SliceJoins(tr.x, m, n);
      SliceJoins(tr.y, m, n);
      if tr.z.Some? { SliceJoins(tr.z.value, m, n); }
      hide Slice, ColumnGrows;
    }
    if Grows(c, a, b) {
      assert p == q;
    }
  }

  lemma {:induction false} GrowsFar(c: Clip, a: nat, b: nat)
    requires ValidClip(c) && Growing(c) && a <= b < |c.counts|
    ensures Grows(c, a, b)
    decreases b - a
  {
    hide Slice, ValidClip;
    if a < b {
      GrowsFar(c, a, b - 1);
      var k: nat := b - 1;
      assert Grows(c, k, k + 1);
    }
  }

  /** On uniform clips each depth column is listed in its trace's place. */
  lemma {:induction false} UniformDepths(c: Clip, k: nat, n: nat)
    requires ValidClip(c) && k < |c.counts| && n <= |c.full| && Uniform(c) && HasDepth(c)
    ensures |Depths(c, k, n)| == n
    ensures forall t :: 0 <= t < n ==> Depths(c, k, n)[t] == Slice(c.full[t].z.value, 0, c.counts[k][t])
    decreases n
  {
    hide Slice;
    if n > 0 { UniformDepths(c, k, n - 1); }
  }

  /** The plot holds no depth that the clip does not have. */
  ghost predicate Flat(c: Clip, plotted: seq<Trace>) {
    !HasDepth(c) ==> forall t :: 0 <= t < |plotted| ==> plotted[t].z == None
  }

  lemma RestyledAt(c: Clip, plotted: seq<Trace>, k: nat, t: nat)
    requires ValidClip(c) && k < |c.counts| && |plotted| == |c.full| && t < |c.full|
    ensures var p, zs := Restyled(c, plotted, k), Depths(c, k, |c.full|);
            && p[t].x == Slice(c.full[t].x, 0, c.counts[k][t]) && p[t].y == Slice(c.full[t].y, 0, c.counts[k][t])
            && p[t].z == if HasDepth(c) then Some(zs[t % |zs|]) else plotted[t].z
  {
    hide Slice;
  }

  lemma RestyledUniform(c: Clip, plotted: seq<Trace>, k: nat)
    requires ValidClip(c) && k < |c.counts| && |plotted| == |c.full| && Flat(c, plotted) && Uniform(c)
    ensures Restyled(c, plotted, k) == Frame(c, k)
  {
    var n := |c.full|;
    if HasDepth(c) { UniformDepths(c, k, n); }
    forall t: nat | t < n ensures Restyled(c, plotted, k)[t] == Frame(c, k)[t] {
      RestyledAt(c, plotted, k, t);
      hide Slice, Restyled, Depths;
      Small(t, n);
    }
  }

  lemma Small(t: nat, n: nat)
    requires t < n
    ensures t % n == t
  {
  }

  /** Redrawing draws the frame exactly when all traces have depth or none has. */
  lemma RestyledIffUniform(c: Clip, plotted: seq<Trace>, k: nat)
    requires ValidClip(c) && k < |c.counts| && |plotted| == |c.full| && Flat(c, plotted)
    ensures Restyled(c, plotted, k) == Frame(c, k) <==> Uniform(c)
  {
    hide Slice, Restyled, Depths;
    if Uniform(c) {
      RestyledUniform(c, plotted, k);
    } else {
      var t: nat :| t < |c.full| && c.full[t].z.Some? != HasDepth(c);
      RestyledAt(c, plotted, k, t);
      assert Frame(c, k)[t].z.None?;
    }
  }

  lemma FrameFlat(c: Clip, k: nat)
    requires ValidClip(c) && k < |c.counts|
    ensures Flat(c, Frame(c, k))
  {
    hide Slice;
  }

  lemma ShowFaithful(c: Clip, s: Player, k: nat, o: Outcome)
    requires ValidClip(c) && Growing(c) && Shaped(c, s) && Faithful(c, s) && k < |c.counts|
    requires Uniform(c) || |c.counts| == 1
    ensures Shown(c, s, k, o).plotted == Frame(c, Shown(c, s, k, o).cur)
  {
    hide Frame, Extended, ValidClip, Restyled, Uniform;
    FrameFlat(c, s.cur);
    if k != s.cur {
      RestyledIffUniform(c, s.plotted, k);
      if o.Threw? { RestyledIffUniform(c, Spoiled(c, s.plotted, o.remains), k); }
      if k > s.cur {
        GrowsFar(c, s.cur, k);
        ExtendedIffGrows(c, s.cur, k);
      }
    }
  }

  lemma HandleFaithful(c: Clip, s: Player, e: Event)
    requires ValidClip(c) && Growing(c) && Shaped(c, s) && Faithful(c, s) && (Uniform(c) || |c.counts| == 1)
    ensures Faithful(c, Handle(c, s, e))
  {
    hide Uniform;
    forall t: Player, k: nat, o: Outcome | k < |c.counts| && t.plotted == s.plotted && t.cur == s.cur
      ensures Shown(c, t, k, o).plotted == Frame(c, Shown(c, t, k, o).cur)
    {
      ShowFaithful(c, t.(pendingK := 0), k, o);
    }
    hide Frame, Extended, ValidClip, Growing, Shown, HasDepth;
  }

  lemma {:induction false} RunFaithful(c: Clip, events: seq<Event>)
    requires ValidClip(c) && Growing(c) && (Uniform(c) || |c.counts| == 1)
    ensures Faithful(c, After(c, events))
    decreases |events|
  {
    hide ValidClip, Frame, Extended, Handle, Growing, Uniform;
    if events != [] {
      RunFaithful(c, events[..|events| - 1]);
      HandleFaithful(c, After(c, events[..|events| - 1]), events[|events| - 1]);
    }
  }

  // ----- Where events lead -----

  /** Point by point: a frame shows of each column the points below the count, and no others. */
  ghost predicate Shows<T(!new)>(shown: seq<T>, full: seq<T>, count: nat) {
    forall i: nat :: (i < |shown| <==> i < |full| && i < count) && (i < |shown| ==> shown[i] == full[i])
  }

  lemma FramePoints(c: Clip, k: nat, t: nat)
    requires ValidClip(c) && k < |c.counts| && t < |c.full|
    ensures var p, full, n := Frame(c, k)[t], c.full[t], c.counts[k][t];
            && Shows(p.x, full.x, n) && Shows(p.y, full.y, n)
            && p.z.Some? == full.z.Some? && (full.z.Some? ==> Shows(p.z.value, full.z.value, n))
  {
  }

  /** What the user sees an event do. The button stops a running animation and starts a
      stopped one, from the front when it is at the end; a tick shows the next frame or stops
      at the end; the slider stops the animation and leads to the frame it is dragged to, with
      depth at the next redraw. */
  ghost predicate Answers(c: Clip, s: Player, e: Event, s': Player) {
    match e
    case Click(_) =>
      if s.timer.Some? then s'.timer == None && s'.live == {} && s'.cur == s.cur
      else s'.timer.Some? && s'.live == {s'.timer.value} && s'.cur == (if s.cur + 1 < |c.counts| then s.cur else 0)
    case Tick(id, _) =>
      && s.timer == Some(id)
      && (if s.cur + 1 < |c.counts| then s'.cur == s.cur + 1 && s'.timer == s.timer && s'.live == s.live
          else s'.cur == s.cur && s'.timer == None && s'.live == {})
    case Scrub(k, _) =>
      && s'.timer == None && s'.live == {} && s'.slider == k
      && (if HasDepth(c) then s'.cur == s.cur && s'.rafPending && s'.pendingK == k else s'.cur == k)
    case Redraw(_) => s'.cur == s.pendingK && !s'.rafPending && s'.redraws == 0 && s'.timer == s.timer
  }

  lemma HandleAnswers(c: Clip, s: Player, e: Event)
    requires ValidClip(c) && Shaped(c, s) && Orderly(c, s) && Possible(c, s, e)
    ensures Answers(c, s, e, Handle(c, s, e))
  {
    hide Frame, Extended, Restyled, ValidClip, Spoiled, HasDepth;
  }

  /** In every run every event does what the user expects of it. */
  lemma AlwaysAnswers(c: Clip, events: seq<Event>, e: Event)
    requires ValidClip(c) && Possible(c, After(c, events), e)
    ensures Answers(c, After(c, events), e, After(c, events + [e]))
  {
    hide ValidClip, Handle, Orderly, Answers, Possible;
    AlwaysOrderly(c, events);
    HandleAnswers(c, After(c, events), e);
    assert (events + [e])[..|events|] == events;
  }

  /** No drag and no redraw. */
  predicate LeavesPending(e: Event) {
    e.Click? || e.Tick?
  }

  lemma PendingKept(c: Clip, s: Player, e: Event)
    requires ValidClip(c) && Shaped(c, s) && LeavesPending(e)
    ensures Handle(c, s, e).pendingK == s.pendingK && Handle(c, s, e).redraws == s.redraws
  {
    hide Frame, Extended, Restyled, ValidClip, Spoiled, HasDepth;
  }

  lemma {:induction false} PendingAcross(c: Clip, events: seq<Event>, more: seq<Event>)
    requires ValidClip(c) && forall i :: 0 <= i < |more| ==> LeavesPending(more[i])
    ensures After(c, events + more).pendingK == After(c, events).pendingK
    ensures After(c, events + more).redraws == After(c, events).redraws
    decreases |more|
  {
    hide ValidClip, Handle;
    if more == [] {
      assert events + more == events;
    } else {
      var n := |more| - 1;
      PendingAcross(c, events, more[..n]);
      assert (events + more)[..|events| + n] == events + more[..n];
      PendingKept(c, After(c, events + more[..n]), more[n]);
    }
  }

  /** With depth, however often the slider is dragged and whatever ticks and clicks come
      between, the redraw shows the frame of the last drag. */
  lemma LastDragWins(c: Clip, events: seq<Event>, k: nat, o: Outcome, more: seq<Event>, r: Outcome)
    requires ValidClip(c) && HasDepth(c) && k < |c.counts|
    requires forall i :: 0 <= i < |more| ==> LeavesPending(more[i])
    ensures Possible(c, After(c, events + [Scrub(k, o)] + more), Redraw(r))
    ensures After(c, events + [Scrub(k, o)] + more + [Redraw(r)]).cur == k
  {
    hide ValidClip, HasDepth, After;
    var dragged := events + [Scrub(k, o)];
    AlwaysAnswers(c, events, Scrub(k, o));
    AlwaysOrderly(c, dragged);
    PendingAcross(c, dragged, more);
    AlwaysAnswers(c, dragged + more, Redraw(r));
  }

  // ----- Auto-play -----

  /** Ticks of the interval the auto-play started. */
  function Ticks(outcomes: seq<Outcome>): (events: seq<Event>)
    ensures |events| == |outcomes|
  {
    seq(|outcomes|, i requires 0 <= i < |outcomes| => Tick(1, outcomes[i]))
  }

  /** Left alone, the player shows every frame in order, one a tick, whether or not
      extending works; the tick after the last frame stops it, and it stays stopped. */
  lemma {:induction false} AutoPlay(c: Clip, outcomes: seq<Outcome>)
    requires ValidClip(c)
    ensures var s := After(c, Ticks(outcomes));
            if |outcomes| < |c.counts| then s.cur == |outcomes| && s.timer == Some(1) && s.live == {1}
            else s.cur == |c.counts| - 1 && s.timer == None && s.live == {}
    ensures (forall i :: 0 <= i < |outcomes| ==> outcomes[i] == Grown) ==> !After(c, Ticks(outcomes)).useRestyle
    decreases |outcomes|
  {
    hide Frame, Extended, ValidClip, Handle, NonEmpty;
    var n := |outcomes|;
    if n == 0 {
      AutoPlayBegins(c);
      assert Ticks(outcomes) == [];
    } else {
      AutoPlay(c, outcomes[..n - 1]);
      assert Ticks(outcomes)[..n - 1] == Ticks(outcomes[..n - 1]);
      assert Ticks(outcomes)[n - 1] == Tick(1, outcomes[n - 1]);
      TickEffect(c, After(c, Ticks(outcomes[..n - 1])), outcomes[n - 1]);
      hide After;
    }
  }

  lemma AutoPlayBegins(c: Clip)
    requires ValidClip(c)
    ensures var s := After(c, []); s.cur == 0 && s.timer == Some(1) && s.live == {1} && !s.useRestyle
    ensures |c.counts| > 0
  {
  }

  /** A tick of interval 1 while it is the only one, or after it has stopped. */
  lemma TickEffect(c: Clip, s: Player, o: Outcome)
    requires ValidClip(c) && Shaped(c, s)
    requires (s.timer == Some(1) && s.live == {1}) || (s.timer == None && s.live == {})
    ensures var s' := Handle(c, s, Tick(1, o));
            && (s.timer == None ==> s' == s)
            && (s.timer == Some(1) && s.cur < |c.counts| - 1 ==> s'.cur == s.cur + 1 && s'.timer == Some(1) && s'.live == {1})
            && (s.timer == Some(1) && s.cur == |c.counts| - 1 ==> s'.cur == s.cur && s'.timer == None && s'.live == {})
            && (o == Grown && !s.useRestyle ==> !s'.useRestyle)
  {
    hide Frame, Extended, ValidClip;
  }

  /** If frame `k + 1` loses points of frame `k`, the auto-play shows a wrong plot by then. */
  lemma ShrinkingShows(c: Clip, k: nat) returns (events: seq<Event>)
    requires ValidClip(c) && k + 1 < |c.counts| && !Grows(c, k, k + 1)
    ensures !Faithful(c, After(c, events))
  {
    hide Frame, Extended, ValidClip, Grows;
    var some := seq(k, _ => Grown);
    AutoPlay(c, some);
    events := Ticks(some);
    var s := After(c, events);
    if Faithful(c, s) {
      events := events + [Tick(1, Grown)];
      assert events[..|events| - 1] == Ticks(some);
      ExtendedIffGrows(c, k, k + 1);
    }
  }

  /** On a clip that mixes flat and depth traces one failed extension spoils the plot. */
  lemma MixedShows(c: Clip) returns (events: seq<Event>)
    requires ValidClip(c) && !Uniform(c) && |c.counts| > 1
    ensures !Faithful(c, After(c, events))
  {
    hide Frame, Extended, Restyled, ValidClip, Uniform;
    var o := Threw(Frame(c, 0));
    FrameFlat(c, 0);
    AutoPlayBegins(c);
    events := [Tick(1, o)];
    assert events[..0] == [];
    RestyledIffUniform(c, Spoiled(c, Frame(c, 0), Frame(c, 0)), 1);
  }

  /** The plot always is the current frame, under every sequence of clicks, ticks,
      drags, redraws and extension failures, exactly when no frame loses points and,
      with more than one frame, all traces have depth or none has. */
  lemma AlwaysFaithfulIff(c: Clip)
    requires ValidClip(c)
    ensures (forall events: seq<Event> :: Faithful(c, After(c, events))) <==>
            Growing(c) && (Uniform(c) || |c.counts| == 1)
  {
    hide ValidClip, Faithful, After, Uniform;
    if !Growing(c) {
      var k: nat :| k + 1 < |c.counts| && !Grows(c, k, k + 1);
      var events := ShrinkingShows(c, k);
      assert !Faithful(c, After(c, events));
    } else if Uniform(c) || |c.counts| == 1 {
      forall events: seq<Event> ensures Faithful(c, After(c, events)) { RunFaithful(c, events); }
    } else {
      assert |c.counts| > 0 by { SomeFrame(c); }
      var events := MixedShows(c);
      assert !Faithful(c, After(c, events));
    }
  }

  lemma SomeFrame(c: Clip)
    requires ValidClip(c)
    ensures |c.counts| > 0
  {
  }

  // ----- The player's code -----

  /** Positional lists applied to the traces they are listed for. */
  function ExtendPlot(plotted: seq<Trace>, ax: seq<seq<real>>, ay: seq<seq<real>>, az: seq<seq<real>>, has3d: bool): seq<Trace>
    requires |ax| == |ay| == |plotted| && (has3d ==> |az| == |plotted|)
  {
    seq(|plotted|, t requires 0 <= t < |plotted| =>
      Appended(plotted[t], Trace(ax[t], ay[t], if has3d then Some(az[t]) else None)))
  }

  class Renderer {
    const clip: Clip
    const has3d: bool
    var cur: nat
    var useRestyle: bool
    var timer: Option<TimerId>
    var rafPending: bool
    var pendingK: nat
    var plotted: seq<Trace>
    var title: nat
    var slider: nat
    var pauseShown: bool
    var live: set<TimerId>
    var nextTimer: TimerId
    var redraws: nat

    function View(): Player
      reads this
    {
      Player(cur, useRestyle, timer, rafPending, pendingK, plotted, title, slider, pauseShown, live, nextTimer, redraws)
    }

    ghost predicate Valid()
      reads this
    {
      ValidClip(clip) && Shaped(clip, View()) && has3d == HasDepth(clip)
    }

    method RestyleTo(k: nat)
      requires Valid() && k < |clip.counts|
      modifies `plotted
      ensures Valid() && View() == old(View()).(plotted := Restyled(clip, old(plotted), k))
    {
      hide Slice;
      var rx: seq<seq<real>>, ry: seq<seq<real>>, rz: seq<seq<real>> := [], [], [];
      for t := 0 to |clip.full|
        invariant |rx| == |ry| == t && rz == Depths(clip, k, t)
        invariant forall u :: 0 <= u < t ==>
          rx[u] == Slice(clip.full[u].x, 0, clip.counts[k][u]) && ry[u] == Slice(clip.full[u].y, 0, clip.counts[k][u])
      {
        rx := rx + [Slice(clip.full[t].x, 0, clip.counts[k][t])];
        ry := ry + [Slice(clip.full[t].y, 0, clip.counts[k][t])];
        if clip.full[t].z.Some? { rz := rz + [Slice(clip.full[t].z.value, 0, clip.counts[k][t])]; }
      }
      assert rx == seq(|clip.full|, t requires 0 <= t < |clip.full| => Slice(clip.full[t].x, 0, clip.counts[k][t]));
      assert ry == seq(|clip.full|, t requires 0 <= t < |clip.full| => Slice(clip.full[t].y, 0, clip.counts[k][t]));
      plotted := RestylePlot(plotted, rx, ry, rz);
    }

    /** What frame `k` shows beyond the current frame, trace by trace. */
    method GrowthTo(k: nat) returns (ax: seq<seq<real>>, ay: seq<seq<real>>, az: seq<seq<real>>)
      requires Valid() && k < |clip.counts|
      ensures |ax| == |ay| == |clip.full| && |az| == (if has3d then |clip.full| else 0)
      ensures ExtendPlot(plotted, ax, ay, az, has3d) == Extended(clip, plotted, cur, k)
    {
      ax, ay, az := [], [], [];
      for t := 0 to |clip.full|
        invariant |ax| == |ay| == t && |az| == (if has3d then t else 0)
        invariant forall u :: 0 <= u < t ==>
          && ax[u] == Slice(clip.full[u].x, clip.counts[cur][u], clip.counts[k][u])
          && ay[u] == Slice(clip.full[u].y, clip.counts[cur][u], clip.counts[k][u])
          && (has3d ==> az[u] == if clip.full[u].z.Some? then Slice(clip.full[u].z.value, clip.counts[cur][u], clip.counts[k][u]) else [])
      {
        hide Slice;
        var a, b := clip.counts[cur][t], clip.counts[k][t];
        ax := ax + [Slice(clip.full[t].x, a, b)];
        ay := ay + [Slice(clip.full[t].y, a, b)];
        if has3d { az := az + [if clip.full[t].z.Some? then Slice(clip.full[t].z.value, a, b) else []]; }
      }
      hide Slice;
      forall t | 0 <= t < |clip.full|
        ensures ExtendPlot(plotted, ax, ay, az, has3d)[t] == Extended(clip, plotted, cur, k)[t]
      {
        if plotted[t].z.Some? { assert plotted[t].z.value + [] == plotted[t].z.value; }
      }
    }

    method ShowFrame(k: nat, o: Outcome)
      requires Valid() && k < |clip.counts|
      modifies this
      ensures Valid() && View() == Shown(clip, old(View()), k, o)
      ensures cur == k && useRestyle == (old(useRestyle) || (k > old(cur) && o.Threw?))
    {
      hide Slice;
      if k == cur { return; }
      if k > cur && !useRestyle {
        var ax, ay, az := GrowthTo(k);
        if o.Grown? {
          plotted := ExtendPlot(plotted, ax, ay, az, has3d);
        } else {
          plotted := Spoiled(clip, plotted, o.remains);
          useRestyle := true;
          RestyleTo(k);
        }
      } else {
        RestyleTo(k);
      }
      cur := k;
      title := k;
    }

    method Label()
      modifies `slider
      ensures View() == Labelled(old(View()))
    {
      slider := cur;
    }

    method Stop()
      modifies `timer, `live, `pauseShown
      ensures View() == Stopped(old(View()))
    {
      if timer.Some? {
        live := live - {timer.value};
        timer := None;
      }
      pauseShown := false;
    }

    method Play(o: Outcome)
      requires Valid()
      modifies this
      ensures Valid() && View() == Played(clip, old(View()), o)
      ensures if old(timer).Some? then timer == None && cur == old(cur)
              else timer.Some? && timer.value in live && cur == (if old(cur) + 1 < |clip.counts| then old(cur) else 0)
    {
      if timer.Some? {
        Stop();
        return;
      }
      if cur >= |clip.counts| - 1 {
        ShowFrame(0, o);
        Label();
      }
      pauseShown := true;
      timer, live, nextTimer := Some(nextTimer), live + {nextTimer}, nextTimer + 1;
    }

    method OnInterval(id: TimerId, o: Outcome)
      requires Valid() && id in live
      modifies this
      ensures Valid() && View() == Handle(clip, old(View()), Tick(id, o))
      ensures if old(cur) + 1 < |clip.counts| then cur == old(cur) + 1 && timer == old(timer) else cur == old(cur) && timer == None
    {
      if cur >= |clip.counts| - 1 {
        Stop();
        return;
      }
      ShowFrame(if cur + 1 < |clip.counts| - 1 then cur + 1 else |clip.counts| - 1, o);
      Label();
    }

    method OnInput(k: nat, o: Outcome)
      requires Valid() && k < |clip.counts|
      modifies this
      ensures Valid() && View() == Handle(clip, old(View()), Scrub(k, o))
      ensures timer == None && slider == k && pendingK == k && cur == (if has3d then old(cur) else k) && (has3d ==> rafPending)
    {
      slider := k;
      Stop();
      pendingK := k;
      if has3d {
        if !rafPending {
          rafPending := true;
          redraws := redraws + 1;
        }
      } else {
        ShowFrame(pendingK, o);
        Label();
      }
    }

    method OnRedraw(o: Outcome)
      requires Valid() && redraws > 0
      modifies this
      ensures Valid() && View() == Handle(clip, old(View()), Redraw(o))
      ensures cur == old(pendingK) && slider == cur && !rafPending && timer == old(timer)
    {
      redraws := redraws - 1;
      rafPending := false;
      ShowFrame(pendingK, o);
      Label();
    }

    constructor (c: Clip)
      requires ValidClip(c)
      ensures Valid() && clip == c && View() == After(c, [])
    {
      clip, has3d := c, exists t :: 0 <= t < |c.full| && c.full[t].z.Some?;
      cur, useRestyle, timer, rafPending, pendingK := 0, false, None, false, 0;
      plotted := Frame(c, 0);
      title, slider, pauseShown, live, nextTimer, redraws := 0, 0, false, {}, 1, 0;
      new;
      Play(Grown);
    }
  }

  /** Nothing is rendered exactly when there is no frame or no trace. */
  method RenderCompactProgressive(c: Clip) returns (player: Renderer?)
    requires WellShaped(c)
    ensures player == null <==> c.counts == [] || c.full == []
    ensures player != null ==> fresh(player) && player.clip == c && player.Valid() && player.View() == After(c, [])
  {
    if |c.counts| == 0 || |c.full| == 0 { return null; }
    player := new Renderer(c);
  }
}
