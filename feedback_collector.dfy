/** The feedback prompt (app/components/FeedbackCollector.tsx) as a state
    machine over its four pieces of state. The five-second check, the star
    and comment inputs, the submit and close buttons and the three-second
    hide timer are its events; buttons that are not drawn or are disabled
    cannot be pressed, so those events change nothing then. */
module FeedbackCollector {
  import opened Types
  import opened Seqs
  import Tracker
  import Storage
  import FeedbackManager

  /** A star button's value. */
  type Star = x: int | 1 <= x <= 5 witness 1

  /** `showFeedback`, `submitted`, `isSubmitting` and `feedbackData`. */
  datatype Prompt = Prompt(showFeedback: bool, submitted: bool, isSubmitting: bool, rating: int, comment: string)

  const Initial: Prompt := Prompt(false, false, false, 0, "")

  datatype UiEvent =
    | Poll(fires: bool)      // the periodic check; `fires` is what the trigger rules answer
    | Rate(star: Star)
    | Edit(comment: string)
    | Submit
    | Close
    | HideTimer

  /** The modal is drawn only while shown and not yet submitted. */
  predicate Visible(p: Prompt) {
    p.showFeedback && !p.submitted
  }

  /** The submit button is enabled once a star is chosen and no submission
      is in flight. */
  predicate CanSubmit(p: Prompt) {
    Visible(p) && !p.isSubmitting && p.rating != 0
  }

  /** The effect of one event. */
  function Step(p: Prompt, ev: UiEvent): Prompt {
    match ev
    case Poll(fires) => if !p.showFeedback && !p.submitted && fires then p.(showFeedback := true) else p
    case Rate(star) => if Visible(p) then p.(rating := star) else p
    case Edit(comment) => if Visible(p) then p.(comment := comment) else p
    case Submit => if CanSubmit(p) then p.(isSubmitting := false, submitted := true, showFeedback := false) else p
    case Close => if Visible(p) then p.(showFeedback := false) else p
    case HideTimer => p.(showFeedback := false)
  }

  /** The state after a sequence of events. */
  function Run(p: Prompt, evs: seq<UiEvent>): Prompt
    decreases |evs|
  {
    if evs == [] then p else Step(Run(p, DropLast(evs)), Last(evs))
  }

  /** The state every reachable prompt is in: a rating of 0 to 5 stars, at
      least one once submitted, and no submission left in flight. */
  predicate Good(p: Prompt) {
    0 <= p.rating <= 5 && (p.submitted ==> p.rating >= 1) && !p.isSubmitting
  }

  lemma StepKeepsGood(p: Prompt, ev: UiEvent)
    requires Good(p)
    ensures Good(Step(p, ev))
  {
  }

  /** Every prompt reached from the initial one is good; in particular a
      submitted rating is between one and five stars. */
  lemma {:induction false} ReachableIsGood(evs: seq<UiEvent>)
    ensures Good(Run(Initial, evs))
    ensures Run(Initial, evs).submitted ==> 1 <= Run(Initial, evs).rating <= 5
  {
    if evs != [] {
      ReachableIsGood(DropLast(evs));
      StepKeepsGood(Run(Initial, DropLast(evs)), Last(evs));
    }
  }

  /** Submission is final: after it no event draws the modal again or
      changes what was submitted. */
  lemma {:induction false} SubmittedIsFinal(p: Prompt, evs: seq<UiEvent>)
    requires p.submitted
    ensures Run(p, evs).submitted && !Visible(Run(p, evs))
    ensures Run(p, evs).rating == p.rating && Run(p, evs).comment == p.comment
  {
    if evs != [] {
      SubmittedIsFinal(p, DropLast(evs));
    }
  }

  /** The modal appears only when the periodic check fires. */
  lemma AppearsOnlyOnFire(p: Prompt, ev: UiEvent)
    requires !Visible(p) && Visible(Step(p, ev))
    ensures ev == Poll(true) && !p.showFeedback && !p.submitted
  {
  }

  /** Closing does not dismiss for good: the next check that fires draws the
      modal again, with the stars and comment entered before. */
  lemma CloseThenFireReprompts(p: Prompt)
    requires Visible(p)
    ensures !Visible(Step(p, Close))
    ensures Step(Step(p, Close), Poll(true)) == p
  {
  }

  /** The question sent with a submission. */
  function Question(variant: string): string {
    "현재 " + variant + " 버전에 대한 의견을 들려주세요"
  }

  class Collector {
    const variant: string
    var showFeedback: bool
    var submitted: bool
    var isSubmitting: bool
    var rating: int
    var comment: string

    function State(): Prompt
      reads this
    {
      Prompt(showFeedback, submitted, isSubmitting, rating, comment)
    }

    constructor(variant: string)
      ensures this.variant == variant && State() == Initial
    {
      this.variant := variant;
      showFeedback := false;
      submitted := false;
      isSubmitting := false;
      rating := 0;
      comment := "";
    }

    /** Drawn only while `Visible`. */
    predicate Renders()
      reads this
    {
      showFeedback && !submitted
    }

    /** One tick of the five-second interval: while hidden and not
        submitted, the tracker's snapshot is checked against the default
        rules and the modal is shown if one holds. */
    method Tick(tracker: Tracker.BehaviorTracker, now: int, width: Option<int>, userAgent: Option<string>)
      requires tracker.Valid()
      modifies this
      ensures State() == Step(old(State()),
                              Poll(FeedbackManager.Fires(FeedbackManager.DefaultTriggers,
                                                         tracker.CurrentBehavior(now, width, userAgent))))
    {
      if !showFeedback && !submitted {
        var behavior := tracker.CurrentBehavior(now, width, userAgent);
        var shouldShow := FeedbackManager.CheckFeedbackTriggers(FeedbackManager.DefaultTriggers, behavior);
        if shouldShow {
          showFeedback := true;
        }
      }
    }

    /** A click on a star. */
    method ChooseRating(star: Star)
      modifies this
      ensures State() == Step(old(State()), Rate(star))
    {
      if showFeedback && !submitted {
        rating := star;
      }
    }

    /** Typing in the comment box. */
    method EditComment(text: string)
      modifies this
      ensures State() == Step(old(State()), Edit(text))
    {
      if showFeedback && !submitted {
        comment := text;
      }
    }

    /** `handleClose`. */
    method HandleClose()
      modifies this
      ensures State() == Step(old(State()), Close)
    {
      if showFeedback && !submitted {
        showFeedback := false;
      }
    }

    /** The timer `handleSubmit` leaves behind. */
    method HideTimerFires()
      modifies this
      ensures State() == Step(old(State()), HideTimer)
    {
      showFeedback := false;
    }

    /** `handleSubmit`, reachable only through the enabled submit button: the
        chosen stars and comment are collected with the tracker's snapshot,
        then the prompt is marked submitted and hidden. `attempts` are the
        deliveries `collectFeedback` made, none when nothing was sent. */
    method HandleSubmit(tracker: Tracker.BehaviorTracker, store: Storage.ClientStorage, now: int,
                        width: Option<int>, userAgent: Option<string>,
                        localWriteFails: bool, mockDelivered: bool, apiDelivered: bool)
      returns (sent: Option<FeedbackData>, attempts: seq<Attempt>)
      requires tracker.Valid() && Good(State())
      modifies this, store
      ensures State() == Step(old(State()), Submit) && Good(State())
      ensures sent.Some? <==> CanSubmit(old(State()))
      ensures store.behaviors == old(store.behaviors)
      ensures sent.None? ==> store.feedbacks == old(store.feedbacks) && attempts == []
      ensures sent.Some? ==>
                sent.value.sessionId == tracker.sessionId && sent.value.variant == tracker.variant &&
                sent.value.behaviorSummary == tracker.CurrentBehavior(now, width, userAgent).summary &&
                sent.value.feedback.timestamp == now &&
                sent.value.feedback.rating == Some(old(rating) as real) &&
                1.0 <= sent.value.feedback.rating.value <= 5.0 &&
                sent.value.feedback.comment == Some(old(comment)) &&
                sent.value.feedback.question == Some(Question(variant))
      ensures sent.Some? && store.hasWindow && !localWriteFails ==>
                store.GetFeedbacks() == old(store.GetFeedbacks()) + [sent.value]
      ensures sent.Some? && (!store.hasWindow || localWriteFails) ==> store.feedbacks == old(store.feedbacks)
      ensures sent.Some? ==>
                attempts == (if store.hasWindow then [Attempt(LocalCache, !localWriteFails), Attempt(MockService, mockDelivered)]
                             else []) + [Attempt(IngestionApi, apiDelivered)]
    {
      if !(showFeedback && !submitted && !isSubmitting && rating != 0) {
        return None, [];
      }
      isSubmitting := true;
      var behavior := tracker.CurrentBehavior(now, width, userAgent);
      var data;
      data, attempts := FeedbackManager.CollectFeedback(store, behavior, Some(rating as real), Some(comment),
                                                        Some(Question(variant)), now,
                                                        localWriteFails, mockDelivered, apiDelivered);
      isSubmitting := false;
      submitted := true;
      showFeedback := false;
      return Some(data), attempts;
    }
  }
}
