/** The one domain record: an earthquake as the activity shows it. */
module Events {
  import opened JavaTypes

  /** `time` is milliseconds since the epoch; `tsunamiAlert` is the raw flag
      (0 no alert, 1 alert issued, anything else unknown). */
  datatype Event = Event(title: string, time: Int64, tsunamiAlert: Int32)
}
