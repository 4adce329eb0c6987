/**
 * The older adapter in the root package (`TweetsAdapter.java`). It shares
 * the "time ago" ladder of the adapter in the `adapters` package; on a
 * `ParseException` it only logs instead of showing a toast.
 */
module RootTweetsAdapter {
  import opened Wrappers
  import opened JavaInt
  import opened Decimal
  import TweetsAdapter

  const SECOND_MILLIS: int := 1000
  const MINUTE_MILLIS: int := 60 * SECOND_MILLIS
  const HOUR_MILLIS: int := 60 * MINUTE_MILLIS
  const DAY_MILLIS: int := 24 * HOUR_MILLIS

  /** `getRelativeTimeAgo` of this adapter. */
  function RelativeTimeAgo(parsedTime: Option<Int64>, now: Int64): TweetsAdapter.TimeLabel
  {
    match parsedTime
    case None => TweetsAdapter.Text("")
    case Some(time) =>
      var diff := Wrap64(now - time);
      if diff < MINUTE_MILLIS then TweetsAdapter.Text("just now")
      else if diff < 2 * MINUTE_MILLIS then TweetsAdapter.Text("a minute ago")
      else if diff < 50 * MINUTE_MILLIS then TweetsAdapter.Text(IntToString(JavaDiv(diff, MINUTE_MILLIS)) + " m")
      else if diff < 90 * MINUTE_MILLIS then TweetsAdapter.Text("an hour ago")
      else if diff < 24 * HOUR_MILLIS then TweetsAdapter.Text(IntToString(JavaDiv(diff, HOUR_MILLIS)) + " h")
      else if diff < 48 * HOUR_MILLIS then TweetsAdapter.Text("yesterday")
      else if diff < 8 * DAY_MILLIS then TweetsAdapter.Text(IntToString(JavaDiv(diff, DAY_MILLIS)) + " d")
      else TweetsAdapter.RelativeSpan(time)
  }

  /** Both adapters label every tweet time alike, for every clock reading and parse outcome. */
  lemma SameLabelsAsAdaptersPackage(parsedTime: Option<Int64>, now: Int64)
    ensures RelativeTimeAgo(parsedTime, now) == TweetsAdapter.RelativeTimeAgo(parsedTime, now)
  {
  }
}
