/** Where a row of model statistics comes from, and how much it can be relied on. */
module StatKinds {
  datatype Source = Observed | Blended | Prior

  datatype Confidence = Low | Medium | High
}
