/** The two readers of the hosted tables (app/lib/supabase-storage.ts). The
    table is a parameter: its rows in the order the query sorts them (newest
    first), or the reason no rows came back. Every failure ends in an empty
    list, so the callers cannot tell it from an empty table. */
module Remote {
  import opened Types
  import opened Seqs

  /** What one query of a table yields: no client configured, an error (a
      query error, no data, or an exception, all caught), or the rows. */
  datatype Table<T> = Unconfigured | Failed | Rows(rows: seq<T>)

  function BehaviorOfVariant(variant: string): UserBehavior -> bool {
    (b: UserBehavior) => b.variant == variant
  }

  function FeedbackOfVariant(variant: string): FeedbackData -> bool {
    (f: FeedbackData) => f.variant == variant
  }

  /** `getBehaviorsFromSupabase(variant)`: the rows, restricted to the
      variant when it is truthy; nothing when the query did not succeed. */
  function ReadBehaviors(table: Table<UserBehavior>, variant: string): (r: seq<UserBehavior>)
    ensures forall b :: b in r <==> table.Rows? && b in table.rows && (Truthy(variant) ==> b.variant == variant)
    ensures !table.Rows? ==> r == []
    ensures table.Rows? && !Truthy(variant) ==> r == table.rows
    ensures table.Rows? ==> |r| <= |table.rows|
  {
    match table
    case Rows(rows) => if Truthy(variant) then Filter(rows, BehaviorOfVariant(variant)) else rows
    case _ => []
  }

  /** `getFeedbacksFromSupabase(variant)`, the same query on the feedback table. */
  function ReadFeedbacks(table: Table<FeedbackData>, variant: string): (r: seq<FeedbackData>)
    ensures forall f :: f in r <==> table.Rows? && f in table.rows && (Truthy(variant) ==> f.variant == variant)
    ensures !table.Rows? ==> r == []
    ensures table.Rows? && !Truthy(variant) ==> r == table.rows
    ensures table.Rows? ==> |r| <= |table.rows|
  {
    match table
    case Rows(rows) => if Truthy(variant) then Filter(rows, FeedbackOfVariant(variant)) else rows
    case _ => []
  }

  /** Rows of another variant added to a table change nothing in what a
      query for a variant returns. */
  lemma OtherVariantsAreNotRead(brows: seq<UserBehavior>, bothers: seq<UserBehavior>,
                                frows: seq<FeedbackData>, fothers: seq<FeedbackData>, variant: string)
    requires Truthy(variant)
    requires forall b :: b in bothers ==> b.variant != variant
    requires forall f :: f in fothers ==> f.variant != variant
    ensures ReadBehaviors(Rows(brows + bothers), variant) == ReadBehaviors(Rows(brows), variant)
    ensures ReadFeedbacks(Rows(frows + fothers), variant) == ReadFeedbacks(Rows(frows), variant)
  {
    FilterConcat(brows, bothers, BehaviorOfVariant(variant));
    FilterNone(bothers, BehaviorOfVariant(variant));
    FilterConcat(frows, fothers, FeedbackOfVariant(variant));
    FilterNone(fothers, FeedbackOfVariant(variant));
  }
}
