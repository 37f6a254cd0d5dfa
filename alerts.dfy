/**
 * The alert level tag a leg's progress carries. It is an integer-backed
 * enumeration: each case has a raw value, and a raw value converts back to a
 * case when it is in range.
 */
module Alerts {
  import Wrappers

  datatype AlertLevel = None | Depart | Low | Medium | High | Arrive

  /** The case's `rawValue`: its position in declaration order, starting at 0. */
  function RawValue(level: AlertLevel): (r: nat)
    ensures r < 6
  {
    match level
    case None => 0
    case Depart => 1
    case Low => 2
    case Medium => 3
    case High => 4
    case Arrive => 5
  }

  /** `AlertLevel(rawValue:)`: the case with raw value `n`, or nothing when there is none. */
  function FromRawValue(n: int): (r: Wrappers.Option<AlertLevel>)
    ensures r.Some? <==> 0 <= n < 6
  {
    if n == 0 then Wrappers.Some(None)
    else if n == 1 then Wrappers.Some(Depart)
    else if n == 2 then Wrappers.Some(Low)
    else if n == 3 then Wrappers.Some(Medium)
    else if n == 4 then Wrappers.Some(High)
    else if n == 5 then Wrappers.Some(Arrive)
    else Wrappers.None
  }

  /** Every case survives the trip through its raw value. */
  lemma RawValueRoundTrip(level: AlertLevel)
    ensures FromRawValue(RawValue(level)) == Wrappers.Some(level)
  {
  }

  /** Every raw value that names a case is that case's raw value, so distinct cases have distinct raw values. */
  lemma FromRawValueRoundTrip(n: int)
    requires FromRawValue(n).Some?
    ensures RawValue(FromRawValue(n).value) == n
  {
  }
}
