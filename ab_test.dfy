/** The variant assignment and tracker lifecycle of the A/B wrapper
    component (app/components/ABTestWrapper.tsx). The session-scoped
    key-value store is a map, the `Math.random()` coin and the clock are
    parameters, and so is the id the tracker's constructor would generate. */
module ABTest {
  import opened Types
  import Tracker
  import Storage

  /** The key a test's variant is kept under. */
  function StorageKey(testName: string): (key: string)
    ensures |key| == |testName| + 8 && key[..8] == "ab-test-" && key[8..] == testName
  {
    "ab-test-" + testName
  }

  /** A stored value counts when it is present and truthy. */
  predicate HasStored(session: map<string, string>, key: string) {
    key in session && Truthy(session[key])
  }

  /** The choice made on each run of the effect, and the session store after
      it: a forced variant wins and is written; else a stored value is reused
      verbatim, unvalidated, and nothing is written; else a coin below 0.5
      picks A, otherwise B, and the pick is written. */
  function SelectVariant(session: map<string, string>, key: string, force: Option<Variant>, coin: real)
    : (r: (string, map<string, string>))
    ensures key in r.1 && r.1[key] == r.0
    ensures forall k :: k != key ==> (k in r.1 <==> k in session) && (k in session ==> r.1[k] == session[k])
    ensures force.Some? ==> r.0 == force.value.Tag()
    ensures force.None? && HasStored(session, key) ==> r.0 == session[key] && r.1 == session
    ensures force.None? && !HasStored(session, key) ==> (r.0 == "A" <==> coin < 0.5) && KnownVariant(r.0)
    ensures Truthy(r.0)
  {
    if force.Some? then (force.value.Tag(), session[key := force.value.Tag()])
    else if HasStored(session, key) then (session[key], session)
    else
      var pick := if coin < 0.5 then "A" else "B";
      (pick, session[key := pick])
  }

  /** Once a run has chosen, later runs without a forced variant choose the
      same and leave the store as it is, whatever their coin. */
  lemma SelectionSticks(session: map<string, string>, key: string, force: Option<Variant>, coin1: real, coin2: real)
    ensures var (v1, s1) := SelectVariant(session, key, force, coin1);
            SelectVariant(s1, key, None, coin2) == (v1, s1)
  {
  }

  /** The content drawn once rendering starts: A's content exactly when the
      chosen value is "A", B's for anything else, a stored value that is
      neither "A" nor "B" included. */
  function Shown(variant: string): (v: Variant)
    ensures v == A <==> variant == "A"
    ensures KnownVariant(variant) ==> v.Tag() == variant
  {
    if variant == "A" then A else B
  }

  class Wrapper {
    const testName: string
    /** `sessionStorage`. */
    var session: map<string, string>
    /** The `variant` state; `None` is null. */
    var variant: Option<string>
    var isClient: bool
    /** `trackerRef.current`. */
    var tracker: Tracker.BehaviorTracker?

    ghost predicate Valid()
      reads this, tracker
    {
      tracker != null ==> tracker.Valid()
    }

    constructor(testName: string, session: map<string, string>)
      ensures Valid()
      ensures this.testName == testName && this.session == session
      ensures variant.None? && !isClient && tracker == null
    {
      this.testName := testName;
      this.session := session;
      variant := None;
      isClient := false;
      tracker := null;
    }

    /** Nothing but the loading placeholder is drawn until the effect has run
        on the client, chosen a variant and made a tracker. */
    predicate Renders()
      reads this
    {
      isClient && variant.Some? && tracker != null
    }

    /** One run of the effect for `pathname`. The first run creates the
        tracker with the chosen variant; later runs record a page view on the
        existing tracker, which keeps the variant it was created with. */
    method RunEffect(pathname: string, force: Option<Variant>, coin: real, sessionId: string, now: int)
      requires Valid()
      modifies this, tracker
      ensures Valid() && Renders()
      ensures (variant.value, session) == SelectVariant(old(session), StorageKey(testName), force, coin)
      ensures old(tracker) == null ==>
                fresh(tracker) && tracker.variant == variant.value && tracker.sessionId == sessionId &&
                tracker.events == [BehaviorEvent(View, None, 0, NoValue, pathname)] &&
                tracker.firstPage == pathname && tracker.currentPagePath == pathname &&
                tracker.pagesVisited == [pathname] && tracker.pageStartTime == now &&
                tracker.clickCount == 0 && tracker.maxScrollDepth == 0.0
      ensures old(tracker) != null ==>
                tracker == old(tracker) && tracker.variant == old(tracker.variant) &&
                tracker.events == old(tracker.events) + [BehaviorEvent(View, None, 0, NoValue, pathname)] &&
                tracker.currentPagePath == pathname && tracker.clickCount == 0 && tracker.maxScrollDepth == 0.0 &&
                tracker.pageStartTime == now &&
                tracker.pagesVisited == Tracker.AddPage(old(tracker.pagesVisited), pathname)
    {
      isClient := true;
      var key := StorageKey(testName);
      var chosen: string;
      if force.Some? {
        chosen := force.value.Tag();
        session := session[key := chosen];
      } else if key in session && Truthy(session[key]) {
        chosen := session[key];
      } else {
        chosen := if coin < 0.5 then "A" else "B";
        session := session[key := chosen];
      }
      variant := Some(chosen);
      if tracker == null {
        tracker := new Tracker.BehaviorTracker(chosen, pathname, sessionId, now, true);
      } else {
        tracker.TrackPageView(pathname, now);
      }
    }

    /** The effect's cleanup, run before the next run and on unmount: the
        tracker, once there is one, sends its snapshot. */
    method Cleanup(store: Storage.ClientStorage, now: int, width: Option<int>, userAgent: Option<string>,
                   localWriteFails: bool, mockDelivered: bool, apiDelivered: bool)
      returns (attempts: seq<Attempt>)
      requires Valid()
      modifies store
      ensures tracker == null ==> attempts == [] && store.behaviors == old(store.behaviors)
      ensures store.feedbacks == old(store.feedbacks)
      ensures tracker != null && store.hasWindow && !localWriteFails ==>
                store.GetBehaviors() == old(store.GetBehaviors()) + [tracker.CurrentBehavior(now, width, userAgent)]
      ensures tracker != null && (!store.hasWindow || localWriteFails) ==> store.behaviors == old(store.behaviors)
      ensures tracker != null ==>
                attempts == (if store.hasWindow then [Attempt(LocalCache, !localWriteFails), Attempt(MockService, mockDelivered)]
                             else []) + [Attempt(IngestionApi, apiDelivered)]
    {
      attempts := [];
      if tracker != null {
        attempts := tracker.SendBehaviorData(store, now, width, userAgent, localWriteFails, mockDelivered, apiDelivered);
      }
    }
  }
}
