/** Scheduling the plot warm-up behind a timer and an idle callback, cancelled by every
    run of the user's program and scheduled again after it. */
module WarmupScheduler {
  import opened Options

  datatype HandleType = Timeout | Idle

  /** Which idle functions the browser offers. */
  datatype Browser = Browser(requestIdle: bool, cancelIdle: bool)

  /** The page's globals, and the browser's pending callbacks. `bodies` counts how often
      the warm-up program has been run, `running` the runs that have not finished. */
  datatype Page = Page(
    wasm: bool, warmedUp: bool, handle: Option<nat>, handleType: Option<HandleType>, scheduled: bool,
    timeouts: set<nat>, idles: set<nat>, nextTimeout: nat, nextIdle: nat,
    bodies: nat, running: nat)

  datatype Event =
    | Load
    | Boot
    | Run(unsupported: bool)
    | Finish
    | TimeoutFires(id: nat)
    | IdleFires(id: nat)

  function Warm(s: Page): Page {
    if !s.wasm || s.warmedUp then s else s.(warmedUp := true, bodies := s.bodies + 1)
  }

  function Start(s: Page): Page {
    Warm(s.(handle := None, handleType := None, scheduled := false))
  }

  function Schedule(s: Page): Page {
    if !s.wasm || s.warmedUp || s.scheduled then s else
    s.(scheduled := true, handle := Some(s.nextTimeout), handleType := Some(Timeout),
       timeouts := s.timeouts + {s.nextTimeout}, nextTimeout := s.nextTimeout + 1)
  }

  /** The timer's callback: hand over to an idle callback, or start at once. */
  function TimedOut(b: Browser, s: Page): Page {
    var s1 := s.(handle := None, handleType := None);
    if b.requestIdle then
      s1.(handle := Some(s1.nextIdle), handleType := Some(Idle), idles := s1.idles + {s1.nextIdle}, nextIdle := s1.nextIdle + 1)
    else Start(s1)
  }

  /** Timer and idle handles are numbered separately, so clearing a timer by an idle
      callback's number may clear another timer, or none. */
  function Cancel(b: Browser, s: Page): Page {
    if !s.scheduled || s.handle.None? then s else
    var s1 := if s.handleType == Some(Idle) && b.cancelIdle then s.(idles := s.idles - {s.handle.value})
              else s.(timeouts := s.timeouts - {s.handle.value});
    s1.(handle := None, handleType := None, scheduled := false)
  }

  predicate Possible(s: Page, e: Event) {
    match e
    case Finish => s.running > 0
    case TimeoutFires(id) => id in s.timeouts
    case IdleFires(id) => id in s.idles
    case _ => true
  }

  function Handle(b: Browser, s: Page, e: Event): Page {
    if !Possible(s, e) then s else
    match e
    case Load => s.(wasm := true)
    case Boot => Schedule(s)
    case Run(unsupported) =>
      if !s.wasm then s else
      var s1 := Cancel(b, s);
      if unsupported then s1 else s1.(running := s1.running + 1)
    case Finish => Schedule(s.(running := s.running - 1))
    case TimeoutFires(id) => TimedOut(b, s.(timeouts := s.timeouts - {id}))
    case IdleFires(id) => Start(s.(idles := s.idles - {id}))
  }

  function Fresh(): Page {
    Page(false, false, None, None, false, {}, {}, 1, 1, 0, 0)
  }

  function After(b: Browser, events: seq<Event>): Page {
    if events == [] then Fresh() else Handle(b, After(b, events[..|events| - 1]), events[|events| - 1])
  }

  // ----- Every run of events -----

  /** At most one callback is pending, the page holds its handle, and `scheduled` says
      exactly whether there is one. */
  predicate Tidy(s: Page) {
    if s.scheduled then
      && s.handle.Some?
      && ((s.handleType == Some(Timeout) && s.timeouts == {s.handle.value} && s.idles == {})
          || (s.handleType == Some(Idle) && s.idles == {s.handle.value} && s.timeouts == {}))
    else s.timeouts == s.idles == {} && s.handle == None
  }

  /** An idle callback that can be requested can be cancelled. */
  predicate Paired(b: Browser) { b.requestIdle ==> b.cancelIdle }

  predicate Bounded(b: Browser, s: Page) {
    && s.bodies == (if s.warmedUp then 1 else 0)
    && (!b.requestIdle ==> s.idles == {} && s.handleType != Some(Idle))
  }

  lemma {:induction false} RunTidy(b: Browser, events: seq<Event>)
    requires Paired(b)
    ensures Tidy(After(b, events)) && Bounded(b, After(b, events))
    decreases |events|
  {
    if events != [] {
      RunTidy(b, events[..|events| - 1]);
      HandleTidy(b, After(b, events[..|events| - 1]), events[|events| - 1]);
    }
  }

  lemma HandleTidy(b: Browser, s: Page, e: Event)
    requires Paired(b) && Tidy(s) && Bounded(b, s)
    ensures Tidy(Handle(b, s, e)) && Bounded(b, Handle(b, s, e))
  {
    if s.scheduled {
      assert {s.handle.value} - {s.handle.value} == {};
    }
  }

  /** The warm-up program runs at most once in every browser and every run of events. */
  lemma {:induction false} AtMostOnce(b: Browser, events: seq<Event>)
    ensures After(b, events).bodies == if After(b, events).warmedUp then 1 else 0
    decreases |events|
  {
    if events != [] {
      AtMostOnce(b, events[..|events| - 1]);
    }
  }

  ghost predicate NothingPending(s: Page) {
    s.timeouts == s.idles == {} && !s.scheduled && s.handle == None
  }

  /** Where idle callbacks can be cancelled, beginning a run, of a supported sample or
      not, leaves no callback pending ... */
  lemma CancelLeavesNone(b: Browser, events: seq<Event>, unsupported: bool)
    requires Paired(b) && After(b, events).wasm
    ensures NothingPending(After(b, events + [Run(unsupported)]))
  {
    var all := events + [Run(unsupported)];
    assert all[..|all| - 1] == events;
    RunTidy(b, events);
    RunTidy(b, all);
  }

  /** A browser with idle callbacks it cannot cancel keeps one after a run has begun. */
  lemma StrayIdle(b: Browser) returns (events: seq<Event>)
    requires !Paired(b)
    ensures !Tidy(After(b, events))
    ensures |events| == 4 && events[3] == Run(false) && After(b, events[..3]).wasm && After(b, events).idles != {}
  {
    var e1 := [Load];
    var e2 := e1 + [Boot];
    var e3 := e2 + [TimeoutFires(1)];
    events := e3 + [Run(false)];
    assert e1[..0] == [] && e2[..1] == e1 && e3[..2] == e2 && events[..3] == e3;
    assert After(b, e1) == Fresh().(wasm := true);
    assert 1 in After(b, e2).timeouts && After(b, e2).scheduled;
    assert After(b, e3).handle == Some(1) && 1 in After(b, e3).idles && After(b, e3).scheduled;
    assert 1 in After(b, events).idles && !After(b, events).scheduled;
  }

  /** ... and only there. */
  lemma CancelLeavesNoneIffPaired(b: Browser)
    ensures (forall events: seq<Event>, unsupported: bool :: After(b, events).wasm ==>
               NothingPending(After(b, events + [Run(unsupported)]))) <==> Paired(b)
  {
    hide After;
    if Paired(b) {
      forall events: seq<Event>, unsupported: bool | After(b, events).wasm
        ensures NothingPending(After(b, events + [Run(unsupported)]))
      {
        CancelLeavesNone(b, events, unsupported);
      }
    } else {
      var events := StrayIdle(b);
      assert events == events[..3] + [Run(false)];
      assert !NothingPending(After(b, events[..3] + [Run(false)]));
    }
  }

  /** The page's handle and flag always match the pending callbacks exactly when the
      browser can cancel the idle callbacks it offers. */
  lemma AlwaysTidyIffPaired(b: Browser)
    ensures (forall events: seq<Event> :: Tidy(After(b, events))) <==> Paired(b)
  {
    hide Tidy, After;
    if Paired(b) {
      forall events: seq<Event> ensures Tidy(After(b, events)) { RunTidy(b, events); }
    } else {
      var events := StrayIdle(b);
      assert !Tidy(After(b, events));
    }
  }

  // ----- The warm-up does run -----

  /** Once the page has been set up or a run has finished, and the module is there, the
      warm-up has run or is scheduled. */
  lemma AfterRunScheduled(b: Browser, events: seq<Event>, e: Event)
    requires e == Boot || (e == Finish && Possible(After(b, events), e))
    ensures var s := After(b, events + [e]); s.wasm == After(b, events).wasm && (s.wasm ==> s.warmedUp || s.scheduled)
  {
    assert (events + [e])[..|events|] == events;
  }

  /** The browser's next callback. */
  predicate Fires(s: Page, e: Event) {
    (e.TimeoutFires? || e.IdleFires?) && Possible(s, e)
  }

  lemma AfterNext(b: Browser, events: seq<Event>, e: Event)
    ensures After(b, events + [e]) == Handle(b, After(b, events), e)
  {
    assert (events + [e])[..|events|] == events;
  }

  lemma IdleWarms(b: Browser, s: Page)
    requires Tidy(s) && s.scheduled && s.wasm && s.idles != {}
    ensures Fires(s, IdleFires(s.handle.value)) && Handle(b, s, IdleFires(s.handle.value)).warmedUp
  {
  }

  lemma TimeoutWarms(b: Browser, s: Page)
    requires Tidy(s) && s.scheduled && s.wasm && s.idles == {}
    ensures Fires(s, TimeoutFires(s.handle.value))
    ensures var s1 := Handle(b, s, TimeoutFires(s.handle.value));
            s1.warmedUp || (s1.scheduled && s1.wasm && s1.idles != {})
  {
  }

  /** A scheduled warm-up runs once the browser's next two callbacks, or its next one, have
      fired, unless something comes between. */
  lemma ScheduledWarms(b: Browser, events: seq<Event>) returns (more: seq<Event>)
    requires Paired(b) && After(b, events).wasm && After(b, events).scheduled
    ensures 1 <= |more| <= 2 && forall i :: 0 <= i < |more| ==> Fires(After(b, events + more[..i]), more[i])
    ensures After(b, events + more).warmedUp && After(b, events + more).bodies == 1
  {
    hide Handle, After, Tidy, Fires;
    var s := After(b, events);
    RunTidy(b, events);
    assert s.handle.Some? by { HandleKnown(s); }
    if s.idles != {} {
      more := [IdleFires(s.handle.value)];
      IdleWarms(b, s);
      AfterNext(b, events, more[0]);
      assert events + more[..0] == events;
    } else {
      var e := TimeoutFires(s.handle.value);
      TimeoutWarms(b, s);
      AfterNext(b, events, e);
      var s1 := After(b, events + [e]);
      RunTidy(b, events + [e]);
      assert events + [][..0] == events;
      more := [e];
      assert more[..0] == [] && events + [] == events;
      if !s1.warmedUp {
        assert s1.handle.Some? by { HandleKnown(s1); }
        var i := IdleFires(s1.handle.value);
        IdleWarms(b, s1);
        AfterNext(b, events + [e], i);
        more := [e, i];
        assert more[..0] == [] && more[..1] == [e] && events + [e] + [i] == events + more;
      }
    }
    AtMostOnce(b, events + more);
  }

  lemma HandleKnown(s: Page)
    requires Tidy(s) && s.scheduled
    ensures s.handle.Some?
  {
  }

  /** A run that has begun can finish, and the warm-up then runs. */
  lemma RunThenWarms(b: Browser, events: seq<Event>) returns (more: seq<Event>)
    requires Paired(b) && After(b, events).wasm
    ensures Possible(After(b, events + [Run(false)]), Finish)
    ensures After(b, events + [Run(false), Finish] + more).warmedUp
  {
    hide After;
    AfterNext(b, events, Run(false));
    more := WarmsAfterRun(b, events + [Run(false)]);
    assert events + [Run(false)] + [Finish] == events + [Run(false), Finish];
  }

  /** After every finished run the warm-up has run, or does as soon as the browser gets to it. */
  lemma WarmsAfterRun(b: Browser, events: seq<Event>) returns (more: seq<Event>)
    requires Paired(b) && After(b, events).wasm && Possible(After(b, events), Finish)
    ensures |more| <= 2 && forall i :: 0 <= i < |more| ==> Fires(After(b, events + [Finish] + more[..i]), more[i])
    ensures After(b, events + [Finish] + more).warmedUp && After(b, events + [Finish] + more).bodies == 1
  {
    hide After, Fires;
    AfterRunScheduled(b, events, Finish);
    var all := events + [Finish];
    more := [];
    assert all + more == all;
    AtMostOnce(b, all);
    if !After(b, all).warmedUp { more := ScheduledWarms(b, all); }
  }

  // ----- The page's code -----

  class Warmup {
    const browser: Browser
    var wasm: bool
    var warmedUp: bool
    var handle: Option<nat>
    var handleType: Option<HandleType>
    var scheduled: bool
    var timeouts: set<nat>
    var idles: set<nat>
    var nextTimeout: nat
    var nextIdle: nat
    var bodies: nat
    var running: nat

    function View(): Page
      reads this
    {
      Page(wasm, warmedUp, handle, handleType, scheduled, timeouts, idles, nextTimeout, nextIdle, bodies, running)
    }

    constructor (b: Browser)
      ensures browser == b && View() == Fresh()
    {
      browser, wasm, warmedUp, handle, handleType, scheduled := b, false, false, None, None, false;
      timeouts, idles, nextTimeout, nextIdle, bodies, running := {}, {}, 1, 1, 0, 0;
    }

    method WarmupWasm()
      modifies `warmedUp, `bodies
      ensures View() == Warm(old(View()))
    {
      if !wasm || warmedUp { return; }
      warmedUp := true;
      bodies := bodies + 1;
    }

    method StartWarmup()
      modifies this
      ensures View() == Start(old(View()))
    {
      handle := None;
      handleType := None;
      scheduled := false;
      WarmupWasm();
    }

    method ScheduleWarmup()
      modifies this
      ensures View() == Schedule(old(View())) && (wasm ==> warmedUp || scheduled)
    {
      if !wasm || warmedUp || scheduled { return; }
      scheduled := true;
      handle, timeouts, nextTimeout := Some(nextTimeout), timeouts + {nextTimeout}, nextTimeout + 1;
      handleType := Some(Timeout);
    }

    method OnTimeout(id: nat)
      requires id in timeouts
      modifies this
      ensures View() == Handle(browser, old(View()), TimeoutFires(id))
    {
      timeouts := timeouts - {id};
      handle := None;
      handleType := None;
      if browser.requestIdle {
        handle, idles, nextIdle := Some(nextIdle), idles + {nextIdle}, nextIdle + 1;
        handleType := Some(Idle);
      } else {
        StartWarmup();
      }
    }

    method CancelScheduledWarmup()
      modifies this
      ensures View() == Cancel(browser, old(View()))
    {
      if !scheduled || handle.None? { return; }
      if handleType == Some(Idle) && browser.cancelIdle {
        idles := idles - {handle.value};
      } else {
        timeouts := timeouts - {handle.value};
      }
      handle := None;
      handleType := None;
      scheduled := false;
    }

    method BeginRun(unsupported: bool)
      modifies this
      ensures View() == Handle(browser, old(View()), Run(unsupported))
      ensures if wasm && !unsupported then running == old(running) + 1 else running == old(running)
      ensures !wasm ==> View() == old(View())
    {
      if !wasm { return; }
      CancelScheduledWarmup();
      if !unsupported { running := running + 1; }
    }

    method EndRun()
      requires running > 0
      modifies this
      ensures View() == Handle(browser, old(View()), Finish)
      ensures wasm == old(wasm) && (wasm ==> warmedUp || scheduled)
    {
      running := running - 1;
      ScheduleWarmup();
    }
  }
}
