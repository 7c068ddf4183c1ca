/** Radio-control channel values: the nominal range of a channel and the
    raw value the decoder reports for an invalid channel. */
module Rc {
  import opened IntMath

  /** The raw value the decoder reports for a stale or failed channel. */
  const RC_INVALID_VALUE: nat := 0
  const RC_MIN_VALUE: int := 172
  const RC_MAX_VALUE: int := 1811
  const RC_CENTER_VALUE: int := TDiv(RC_MAX_VALUE + RC_MIN_VALUE, 2)

  /** A raw channel value carries a reading unless it is the invalid
      value. */
  predicate ChannelValueValid(raw: nat) {
    raw != RC_INVALID_VALUE
  }

  lemma CentreOfNominalRange()
    ensures RC_CENTER_VALUE == 991
    ensures RC_MIN_VALUE < RC_CENTER_VALUE < RC_MAX_VALUE
    ensures ChannelValueValid(RC_MIN_VALUE) && !ChannelValueValid(RC_INVALID_VALUE)
  {
  }
}
