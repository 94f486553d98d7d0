/** What a hunk under review can be: still applicable, in conflict, or already done. */
module Review {
  import opened Change
  import opened Options

  datatype ConflictReason = EditedInsideRange | AnchorDeleted

  datatype HunkState = Clean | Conflicted(reason: ConflictReason) | Satisfied

  function ReasonOf(effect: RangeEffect): Option<ConflictReason> {
    match effect
    case Untouched => None
    case InsertedInside => Some(EditedInsideRange)
    case PartlyDeleted => Some(AnchorDeleted)
  }
}
