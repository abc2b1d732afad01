/** The coloured badge that shows a content item's review status. */
module StatusBadge {
  import opened Types

  /** The badge styles the component chooses from. */
  datatype Variant = Success | Destructive | Warning | Secondary

  /** `getVariant`: approved items are marked as a success, rejected ones as
      destructive, items under review as a warning, and everything else
      (only submitted items) as secondary. */
  function GetVariant(status: ContentStatus): (r: Variant)
    ensures r == Success <==> status == Approved
    ensures r == Destructive <==> status == Rejected
    ensures r == Warning <==> status == UnderReview
    ensures r == Secondary <==> status == Submitted
  {
    match status
    case Approved => Success
    case Rejected => Destructive
    case UnderReview => Warning
    case _ => Secondary
  }

  /** Different statuses get different badges, so the badge tells the status. */
  lemma VariantDistinguishes(a: ContentStatus, b: ContentStatus)
    ensures GetVariant(a) == GetVariant(b) <==> a == b
  {
  }
}
