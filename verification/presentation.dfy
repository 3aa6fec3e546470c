/** Turning an event's alert flag into one of the three alert messages of the
    string resources. */
module Presentation {
  import opened JavaTypes

  /** The string resources `alert_no`, `alert_yes` and `alert_not_available`. */
  datatype AlertMessage = AlertNo | AlertYes | AlertNotAvailable

  /** `getTsunamiAlertString`: defined for every Java `int`. */
  function TsunamiAlertString(tsunamiAlert: Int32): (m: AlertMessage)
    ensures m == AlertNo <==> tsunamiAlert == 0
    ensures m == AlertYes <==> tsunamiAlert == 1
    ensures m == AlertNotAvailable <==> tsunamiAlert != 0 && tsunamiAlert != 1
  {
    match tsunamiAlert
    case 0 => AlertNo
    case 1 => AlertYes
    case _ => AlertNotAvailable
  }

  /** A corollary of the contract of `TsunamiAlertString`: every message but
      "not available" is reached by exactly one flag, so a shown message
      determines the flag unless it is "not available". */
  lemma AlertMessageDeterminesFlag(a: Int32, b: Int32)
    requires TsunamiAlertString(a) == TsunamiAlertString(b)
    ensures TsunamiAlertString(a) != AlertNotAvailable ==> a == b
    ensures a != b ==> a !in {0, 1} && b !in {0, 1}
  {
  }
}
