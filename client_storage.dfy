/** The browser-side cache (app/lib/client-storage.ts): two lists kept as JSON
    under the keys 'portal-service-behaviors' and 'portal-service-feedbacks'. */
module Storage {
  import opened Types
  import opened Seqs

  /** What one key of the key-value store holds: nothing (or an empty
      string), text that does not parse, or a parsed list. JSON that parses
      to something other than a list is not among these. */
  datatype Slot<T> = Absent | Corrupt | Saved(items: seq<T>)

  /** `stored ? JSON.parse(stored) : []` with the parse error caught. */
  function Read<T>(slot: Slot<T>): (r: seq<T>)
    ensures slot.Saved? ==> r == slot.items
    ensures !slot.Saved? ==> r == []
  {
    if slot.Saved? then slot.items else []
  }

  function HasVariant(v: Variant): UserBehavior -> bool {
    (b: UserBehavior) => b.variant == v.Tag()
  }

  function FeedbackHasVariant(v: Variant): FeedbackData -> bool {
    (f: FeedbackData) => f.variant == v.Tag()
  }

  class ClientStorage {
    /** `typeof window !== 'undefined'`: without a window every save is a
        no-op and every read is empty. */
    const hasWindow: bool
    var behaviors: Slot<UserBehavior>
    var feedbacks: Slot<FeedbackData>

    constructor(hasWindow: bool, behaviors: Slot<UserBehavior>, feedbacks: Slot<FeedbackData>)
      ensures this.hasWindow == hasWindow
      ensures this.behaviors == behaviors && this.feedbacks == feedbacks
    {
      this.hasWindow := hasWindow;
      this.behaviors := behaviors;
      this.feedbacks := feedbacks;
    }

    function GetBehaviors(): (r: seq<UserBehavior>)
      reads this
      ensures !hasWindow ==> r == []
      ensures hasWindow && behaviors.Saved? ==> r == behaviors.items
      ensures behaviors.Corrupt? || behaviors.Absent? ==> r == []
    {
      if hasWindow then Read(behaviors) else []
    }

    function GetFeedbacks(): (r: seq<FeedbackData>)
      reads this
      ensures !hasWindow ==> r == []
      ensures hasWindow && feedbacks.Saved? ==> r == feedbacks.items
      ensures feedbacks.Corrupt? || feedbacks.Absent? ==> r == []
    {
      if hasWindow then Read(feedbacks) else []
    }

    /** Exactly the stored behaviours of variant `v`; `ByVariantKeepsCounts`
        proves each is kept as often as it is stored. */
    function GetBehaviorsByVariant(v: Variant): (r: seq<UserBehavior>)
      reads this
      ensures forall b :: b in r <==> b in GetBehaviors() && b.variant == v.Tag()
    {
      Filter(GetBehaviors(), HasVariant(v))
    }

    function GetFeedbacksByVariant(v: Variant): (r: seq<FeedbackData>)
      reads this
      ensures forall f :: f in r <==> f in GetFeedbacks() && f.variant == v.Tag()
    {
      Filter(GetFeedbacks(), FeedbackHasVariant(v))
    }

    /** Reads the list, pushes `b` and writes the list back. `writeFails` is a
        `setItem` that throws (a full store): the error is caught and the key
        keeps its old text. A corrupt list reads as empty, so the write
        replaces it by a one-element list. */
    method SaveBehavior(b: UserBehavior, writeFails: bool)
      modifies this
      ensures feedbacks == old(feedbacks)
      ensures !hasWindow || writeFails ==> behaviors == old(behaviors)
      ensures hasWindow && !writeFails ==> behaviors == Saved(old(GetBehaviors()) + [b])
      ensures hasWindow && !writeFails ==> GetBehaviors() == old(GetBehaviors()) + [b]
      ensures hasWindow && !writeFails && !old(behaviors).Saved? ==> behaviors == Saved([b])
      ensures hasWindow && !writeFails ==> forall v: Variant ::
        GetBehaviorsByVariant(v) == old(GetBehaviorsByVariant(v)) + (if b.variant == v.Tag() then [b] else [])
    {
      if !hasWindow {
        return;
      }
      var stored := GetBehaviors();
      stored := stored + [b];
      if !writeFails {
        behaviors := Saved(stored);
        forall v: Variant {
          FilterSnoc(old(GetBehaviors()), b, HasVariant(v));
        }
      }
    }

    method SaveFeedback(f: FeedbackData, writeFails: bool)
      modifies this
      ensures behaviors == old(behaviors)
      ensures !hasWindow || writeFails ==> feedbacks == old(feedbacks)
      ensures hasWindow && !writeFails ==> feedbacks == Saved(old(GetFeedbacks()) + [f])
      ensures hasWindow && !writeFails ==> GetFeedbacks() == old(GetFeedbacks()) + [f]
      ensures hasWindow && !writeFails && !old(feedbacks).Saved? ==> feedbacks == Saved([f])
      ensures hasWindow && !writeFails ==> forall v: Variant ::
        GetFeedbacksByVariant(v) == old(GetFeedbacksByVariant(v)) + (if f.variant == v.Tag() then [f] else [])
    {
      if !hasWindow {
        return;
      }
      var stored := GetFeedbacks();
      stored := stored + [f];
      if !writeFails {
        feedbacks := Saved(stored);
        forall v: Variant {
          FilterSnoc(old(GetFeedbacks()), f, FeedbackHasVariant(v));
        }
      }
    }

    /** Removes both keys. */
    method ClearAll()
      modifies this
      ensures hasWindow ==> behaviors == Absent && feedbacks == Absent
      ensures !hasWindow ==> behaviors == old(behaviors) && feedbacks == old(feedbacks)
      ensures GetBehaviors() == [] && GetFeedbacks() == []
    {
      if !hasWindow {
        return;
      }
      behaviors := Absent;
      feedbacks := Absent;
    }
  }

  /** A saved behaviour shows up at the end of its variant's list and nowhere else. */
  lemma SavedBehaviorByVariant(before: seq<UserBehavior>, b: UserBehavior, v: Variant)
    ensures Filter(before + [b], HasVariant(v)) ==
            Filter(before, HasVariant(v)) + (if b.variant == v.Tag() then [b] else [])
  {
    FilterSnoc(before, b, HasVariant(v));
  }

  /** The by-variant readers keep every record of the variant as often as it
      is stored and drop every other record. */
  lemma ByVariantKeepsCounts(store: ClientStorage, v: Variant, b: UserBehavior, f: FeedbackData)
    ensures multiset(store.GetBehaviorsByVariant(v))[b] ==
            if b.variant == v.Tag() then multiset(store.GetBehaviors())[b] else 0
    ensures multiset(store.GetFeedbacksByVariant(v))[f] ==
            if f.variant == v.Tag() then multiset(store.GetFeedbacks())[f] else 0
  {
    FilterCount(store.GetBehaviors(), HasVariant(v), b);
    FilterCount(store.GetFeedbacks(), FeedbackHasVariant(v), f);
  }
}
