/** The behaviour recorder (app/behavior/tracker.ts). The DOM listeners and
    timers that call it are not part of this model: each handler is a direct
    method call, and the clock reading `Date.now()` is the parameter `now`. */
module Tracker {
  import opened Types
  import opened Seqs
  import Utils
  import Storage

  /** The events of the current page view: everything after the last view event. */
  function CurrentView(log: seq<BehaviorEvent>): seq<BehaviorEvent>
  {
    if log == [] then []
    else if Last(log).kind == View then []
    else CurrentView(DropLast(log)) + [Last(log)]
  }

  /** The current page view is a suffix of the log, preceded by a view event
      or by nothing. */
  lemma {:induction false} CurrentViewIsSuffix(log: seq<BehaviorEvent>)
    ensures |CurrentView(log)| <= |log| && CurrentView(log) == log[|log| - |CurrentView(log)|..]
    ensures |CurrentView(log)| < |log| ==> log[|log| - |CurrentView(log)| - 1].kind == View
  {
    if log != [] && Last(log).kind != View {
      var init, x := DropLast(log), Last(log);
      var c := CurrentView(init);
      CurrentViewIsSuffix(init);
      var n := |init| - |c|;
      assert CurrentView(log) == c + [x];
      assert log == init + [x];
      assert log[n..] == init[n..] + [x];
      assert log[n..] == c + [x];
    }
  }

  /** ... and holds no view event: it starts after the last one. */
  lemma {:induction false} CurrentViewHasNoView(log: seq<BehaviorEvent>)
    ensures forall e :: e in CurrentView(log) ==> e.kind != View
  {
    if log != [] && Last(log).kind != View {
      CurrentViewHasNoView(DropLast(log));
    }
  }

  lemma CurrentViewExtends(log: seq<BehaviorEvent>, e: BehaviorEvent)
    requires e.kind != View
    ensures CurrentView(log + [e]) == CurrentView(log) + [e]
  {
    assert DropLast(log + [e]) == log;
  }

  /** The number of click events in `s`. */
  function Clicks(s: seq<BehaviorEvent>): nat
  {
    if s == [] then 0 else Clicks(DropLast(s)) + (if Last(s).kind == Click then 1 else 0)
  }

  /** The running maximum of the scroll percentages in `s`, starting from 0 and
      replaced only by a strictly larger value. */
  function DeepestScroll(s: seq<BehaviorEvent>): real
  {
    if s == [] then 0.0
    else
      var m := DeepestScroll(DropLast(s));
      if Last(s).kind == Scroll && Last(s).value.Depth? && Last(s).value.percent > m
      then Last(s).value.percent
      else m
  }

  /** The running maximum is the maximum: at least 0, at least every scroll
      depth in `s`, and either 0 or one of them. Hence it does not depend on
      the order in which the scrolls arrived. */
  lemma {:induction false} DeepestScrollIsMaximum(s: seq<BehaviorEvent>)
    ensures DeepestScroll(s) >= 0.0
    ensures forall e :: e in s && e.kind == Scroll && e.value.Depth? ==> e.value.percent <= DeepestScroll(s)
    ensures DeepestScroll(s) == 0.0 ||
            exists e :: e in s && e.kind == Scroll && e.value == Depth(DeepestScroll(s))
  {
    if s != [] {
      DeepestScrollIsMaximum(DropLast(s));
      assert s == DropLast(s) + [Last(s)];
      forall e | e in s && e.kind == Scroll && e.value.Depth?
        ensures e.value.percent <= DeepestScroll(s)
      {
        if e != Last(s) {
          assert e in DropLast(s);
        }
      }
      if DeepestScroll(s) != 0.0 && DeepestScroll(s) == DeepestScroll(DropLast(s)) {
        var e :| e in DropLast(s) && e.kind == Scroll && e.value == Depth(DeepestScroll(s));
        assert e in s;
      }
    }
  }

  /** The paths of the view events of `log`. */
  function PagesViewed(log: seq<BehaviorEvent>): set<string>
  {
    if log == [] then {}
    else PagesViewed(DropLast(log)) + (if Last(log).kind == View then {Last(log).pagePath} else {})
  }

  predicate NoDuplicates(s: seq<string>) {
    forall i, j :: 0 <= i < j < |s| ==> s[i] != s[j]
  }

  /** `Set.prototype.add` on a set kept in insertion order. */
  function AddPage(pages: seq<string>, p: string): (r: seq<string>)
    ensures NoDuplicates(pages) ==> NoDuplicates(r)
    ensures forall q :: q in r <==> q in pages || q == p
    ensures pages <= r
  {
    if p in pages then pages else pages + [p]
  }

  /** Every event of `s` happened on `path`. */
  predicate OnPage(s: seq<BehaviorEvent>, path: string)
  {
    s == [] || (OnPage(DropLast(s), path) && Last(s).pagePath == path)
  }

  lemma {:induction false} OnPageMeansEvery(s: seq<BehaviorEvent>, path: string)
    ensures OnPage(s, path) <==> forall e :: e in s ==> e.pagePath == path
  {
    if s != [] {
      OnPageMeansEvery(DropLast(s), path);
      assert s == DropLast(s) + [Last(s)];
    }
  }

  ghost predicate CountersMatch(log: seq<BehaviorEvent>, clicks: int, deepest: real, path: string) {
    clicks == Clicks(CurrentView(log)) &&
    deepest == DeepestScroll(CurrentView(log)) &&
    OnPage(CurrentView(log), path)
  }

  ghost predicate PagesMatch(log: seq<BehaviorEvent>, pages: seq<string>, first: string, path: string) {
    NoDuplicates(pages) &&
    (forall p :: p in pages <==> p == first || p in PagesViewed(log)) &&
    path in pages
  }

  /** An exit or conversion event on the current page leaves the counters
      and the visited pages as they are. */
  lemma AppendOnPage(log: seq<BehaviorEvent>, clicks: int, deepest: real, path: string,
                     pages: seq<string>, first: string, e: BehaviorEvent)
    requires CountersMatch(log, clicks, deepest, path) && PagesMatch(log, pages, first, path)
    requires e.kind != View && e.kind != Click && e.kind != Scroll && e.pagePath == path
    ensures CountersMatch(log + [e], clicks, deepest, path)
    ensures PagesMatch(log + [e], pages, first, path)
  {
    AppendAny(log, path, pages, first, e);
  }

  /** A click on the current page adds one to the click count. */
  lemma AppendClick(log: seq<BehaviorEvent>, clicks: int, deepest: real, path: string,
                    pages: seq<string>, first: string, e: BehaviorEvent)
    requires CountersMatch(log, clicks, deepest, path) && PagesMatch(log, pages, first, path)
    requires e.kind == Click && e.pagePath == path
    ensures CountersMatch(log + [e], clicks + 1, deepest, path)
    ensures PagesMatch(log + [e], pages, first, path)
  {
    AppendAny(log, path, pages, first, e);
  }

  /** A scroll on the current page raises the deepest scroll to its depth
      when that is deeper. */
  lemma AppendScroll(log: seq<BehaviorEvent>, clicks: int, deepest: real, path: string,
                     pages: seq<string>, first: string, e: BehaviorEvent, depth: real)
    requires CountersMatch(log, clicks, deepest, path) && PagesMatch(log, pages, first, path)
    requires e.kind == Scroll && e.value == Depth(depth) && e.pagePath == path
    ensures CountersMatch(log + [e], clicks, if depth > deepest then depth else deepest, path)
    ensures PagesMatch(log + [e], pages, first, path)
  {
    AppendAny(log, path, pages, first, e);
  }

  /** What any non-view event does to the summary of the log. */
  lemma AppendAny(log: seq<BehaviorEvent>, path: string, pages: seq<string>, first: string, e: BehaviorEvent)
    requires e.kind != View
    ensures CurrentView(log + [e]) == CurrentView(log) + [e]
    ensures Clicks(CurrentView(log + [e])) == Clicks(CurrentView(log)) + (if e.kind == Click then 1 else 0)
    ensures DeepestScroll(CurrentView(log + [e])) ==
            if e.kind == Scroll && e.value.Depth? && e.value.percent > DeepestScroll(CurrentView(log))
            then e.value.percent else DeepestScroll(CurrentView(log))
    ensures OnPage(CurrentView(log + [e]), e.pagePath) == OnPage(CurrentView(log), e.pagePath)
    ensures PagesViewed(log + [e]) == PagesViewed(log)
  {
    CurrentViewExtends(log, e);
    assert DropLast(CurrentView(log) + [e]) == CurrentView(log);
    assert DropLast(log + [e]) == log;
  }

  /** A view event starts a new page view: zero counters, one more visited page. */
  lemma AppendView(log: seq<BehaviorEvent>, pages: seq<string>, first: string, path: string, e: BehaviorEvent)
    requires PagesMatch(log, pages, first, path)
    requires e.kind == View
    ensures CountersMatch(log + [e], 0, 0.0, e.pagePath)
    ensures PagesMatch(log + [e], AddPage(pages, e.pagePath), first, e.pagePath)
  {
    assert CurrentView(log + [e]) == [];
    assert DropLast(log + [e]) == log;
  }

  class BehaviorTracker {
    const sessionId: string
    const variant: string
    /** The path the tracker was constructed on. */
    ghost const firstPage: string
    var events: seq<BehaviorEvent>
    var pageStartTime: int
    var currentPagePath: string
    var maxScrollDepth: real
    var clickCount: nat
    var pagesVisited: seq<string>

    /** The counters are the summary of the log: `clickCount` counts, and
        `maxScrollDepth` is the deepest scroll among, the events since the last
        page view; those events all belong to the current page; the visited
        pages are the first page and every viewed page, each once. */
    ghost predicate Valid()
      reads this
    {
      CountersMatch(events, clickCount, maxScrollDepth, currentPagePath) &&
      PagesMatch(events, pagesVisited, firstPage, currentPagePath)
    }

    /** `new BehaviorTracker(variant, pagePath)`. With a window, the
        constructor records the first page view at once. */
    constructor(variant: string, pagePath: string, sessionId: string, now: int, hasWindow: bool)
      ensures Valid()
      ensures this.variant == variant && this.sessionId == sessionId && firstPage == pagePath
      ensures currentPagePath == pagePath && pagesVisited == [pagePath]
      ensures pageStartTime == now && maxScrollDepth == 0.0 && clickCount == 0
      ensures events == if hasWindow then [BehaviorEvent(View, None, 0, NoValue, pagePath)] else []
    {
      this.variant := variant;
      this.sessionId := sessionId;
      firstPage := pagePath;
      pageStartTime := now;
      currentPagePath := pagePath;
      pagesVisited := [pagePath];
      events := [];
      maxScrollDepth := 0.0;
      clickCount := 0;
      new;
      if hasWindow {
        TrackPageView(pagePath, now);
      }
    }

    method TrackClick(element: string, coordinates: Option<(int, int)>, now: int)
      requires Valid()
      modifies this
      ensures Valid()
      ensures events == old(events) + [BehaviorEvent(Click, Some(element), now - pageStartTime,
                                         if coordinates.Some? then Point(coordinates.value.0, coordinates.value.1) else NoValue,
                                         currentPagePath)]
      ensures clickCount == old(clickCount) + 1
      ensures maxScrollDepth == old(maxScrollDepth) && pageStartTime == old(pageStartTime)
      ensures currentPagePath == old(currentPagePath) && pagesVisited == old(pagesVisited)
    {
      var value := if coordinates.Some? then Point(coordinates.value.0, coordinates.value.1) else NoValue;
      var e := BehaviorEvent(Click, Some(element), now - pageStartTime, value, currentPagePath);
      AppendClick(events, clickCount, maxScrollDepth, currentPagePath, pagesVisited, firstPage, e);
      events := events + [e];
      clickCount := clickCount + 1;
    }

    method TrackScroll(depth: real, now: int)
      requires Valid()
      modifies this
      ensures Valid()
      ensures events == old(events) + [BehaviorEvent(Scroll, None, now - pageStartTime, Depth(depth), currentPagePath)]
      ensures maxScrollDepth == if depth > old(maxScrollDepth) then depth else old(maxScrollDepth)
      ensures maxScrollDepth >= old(maxScrollDepth)
      ensures clickCount == old(clickCount) && pageStartTime == old(pageStartTime)
      ensures currentPagePath == old(currentPagePath) && pagesVisited == old(pagesVisited)
    {
      var e := BehaviorEvent(Scroll, None, now - pageStartTime, Depth(depth), currentPagePath);
      AppendScroll(events, clickCount, maxScrollDepth, currentPagePath, pagesVisited, firstPage, e, depth);
      if depth > maxScrollDepth {
        maxScrollDepth := depth;
      }
      events := events + [e];
    }

    method TrackPageView(pagePath: string, now: int)
      requires Valid()
      modifies this
      ensures Valid()
      ensures events == old(events) + [BehaviorEvent(View, None, 0, NoValue, pagePath)]
      ensures currentPagePath == pagePath && pagesVisited == AddPage(old(pagesVisited), pagePath)
      ensures forall p :: p in pagesVisited <==> p in old(pagesVisited) || p == pagePath
      ensures pageStartTime == now && maxScrollDepth == 0.0 && clickCount == 0
    {
      currentPagePath := pagePath;
      pagesVisited := AddPage(pagesVisited, pagePath);
      pageStartTime := now;
      maxScrollDepth := 0.0;
      clickCount := 0;
      var e := BehaviorEvent(View, None, 0, NoValue, pagePath);
      AppendView(events, old(pagesVisited), firstPage, old(currentPagePath), e);
      events := events + [e];
    }

    method TrackExitIntent(now: int)
      requires Valid()
      modifies this
      ensures Valid()
      ensures events == old(events) + [BehaviorEvent(Exit, None, now - pageStartTime, NoValue, currentPagePath)]
      ensures clickCount == old(clickCount) && maxScrollDepth == old(maxScrollDepth)
      ensures pageStartTime == old(pageStartTime) && currentPagePath == old(currentPagePath)
      ensures pagesVisited == old(pagesVisited)
    {
      var e := BehaviorEvent(Exit, None, now - pageStartTime, NoValue, currentPagePath);
      AppendOnPage(events, clickCount, maxScrollDepth, currentPagePath, pagesVisited, firstPage, e);
      events := events + [e];
    }

    method TrackConversion(goal: string, now: int)
      requires Valid()
      modifies this
      ensures Valid()
      ensures events == old(events) + [BehaviorEvent(Conversion, None, now - pageStartTime, Goal(goal), currentPagePath)]
      ensures clickCount == old(clickCount) && maxScrollDepth == old(maxScrollDepth)
      ensures pageStartTime == old(pageStartTime) && currentPagePath == old(currentPagePath)
      ensures pagesVisited == old(pagesVisited)
    {
      var e := BehaviorEvent(Conversion, None, now - pageStartTime, Goal(goal), currentPagePath);
      AppendOnPage(events, clickCount, maxScrollDepth, currentPagePath, pagesVisited, firstPage, e);
      events := events + [e];
    }

    /** `getCurrentBehavior()`: a snapshot whose summary is the summary of its
        own event log. `width` and `userAgent` are `None` without a window. */
    function CurrentBehavior(now: int, width: Option<int>, userAgent: Option<string>): (b: UserBehavior)
      reads this
      requires Valid()
      ensures b.sessionId == sessionId && b.variant == variant && b.events == events
      ensures b.summary.timeOnPage == now - pageStartTime
      ensures b.summary.clickCount == Clicks(CurrentView(b.events))
      ensures b.summary.scrollDepth == DeepestScroll(CurrentView(b.events))
      ensures forall p :: p in b.summary.pagesVisited <==> p == firstPage || p in PagesViewed(b.events)
      ensures NoDuplicates(b.summary.pagesVisited)
      ensures b.metadata.pagePath == currentPagePath && b.metadata.timestamp == now
      ensures b.metadata.deviceType == Utils.GetDeviceType(width)
    {
      UserBehavior(
        sessionId, None, variant, events,
        Metadata(currentPagePath, None, Utils.GetDeviceType(width), userAgent, now),
        Summary(now - pageStartTime, maxScrollDepth, clickCount, pagesVisited))
    }

    /** `sendBehaviorData()`: one snapshot, written to the browser cache before
        any remote sink is tried; then the mock service and the app endpoint,
        each attempted once, their failures caught. There is no guard against
        a second call while one is pending: each call saves its own snapshot. */
    method SendBehaviorData(store: Storage.ClientStorage, now: int, width: Option<int>, userAgent: Option<string>,
                            localWriteFails: bool, mockDelivered: bool, apiDelivered: bool)
      returns (attempts: seq<Attempt>)
      requires Valid()
      modifies store
      ensures store.feedbacks == old(store.feedbacks)
      ensures store.hasWindow && !localWriteFails ==>
                store.GetBehaviors() == old(store.GetBehaviors()) + [CurrentBehavior(now, width, userAgent)]
      ensures !store.hasWindow || localWriteFails ==> store.behaviors == old(store.behaviors)
      ensures attempts == (if store.hasWindow then [Attempt(LocalCache, !localWriteFails), Attempt(MockService, mockDelivered)]
                           else []) + [Attempt(IngestionApi, apiDelivered)]
    {
      var behavior := CurrentBehavior(now, width, userAgent);
      attempts := [];
      if store.hasWindow {
        store.SaveBehavior(behavior, localWriteFails);
        attempts := attempts + [Attempt(LocalCache, !localWriteFails)];
      }
      if store.hasWindow {
        attempts := attempts + [Attempt(MockService, mockDelivered)];
      }
      attempts := attempts + [Attempt(IngestionApi, apiDelivered)];
    }
  }
}
