/**
 * The row adapter of the timeline (`adapters/TweetsAdapter.java`): the
 * "time ago" label of a tweet and the retweet counter of a row.
 */
module TweetsAdapter {
  import opened Wrappers
  import opened JavaInt
  import opened Decimal
  import opened Tweets

  const SECOND_MILLIS: int := 1000
  const MINUTE_MILLIS: int := 60 * SECOND_MILLIS
  const HOUR_MILLIS: int := 60 * MINUTE_MILLIS
  const DAY_MILLIS: int := 24 * HOUR_MILLIS

  /**
   * The label shown for a tweet's time: a fixed text, or — eight days and
   * more — whatever `DateUtils.getRelativeTimeSpanString(time, ...)` makes of
   * the tweet's time, which is not part of this model.
   */
  datatype TimeLabel = Text(text: string) | RelativeSpan(time: Int64)

  /** The `if`/`else` ladder on `diff`, the milliseconds since the tweet was made. */
  function Ladder(diff: Int64, time: Int64): TimeLabel
  {
    if diff < MINUTE_MILLIS then Text("just now")
    else if diff < 2 * MINUTE_MILLIS then Text("a minute ago")
    else if diff < 50 * MINUTE_MILLIS then Text(IntToString(JavaDiv(diff, MINUTE_MILLIS)) + " m")
    else if diff < 90 * MINUTE_MILLIS then Text("an hour ago")
    else if diff < 24 * HOUR_MILLIS then Text(IntToString(JavaDiv(diff, HOUR_MILLIS)) + " h")
    else if diff < 48 * HOUR_MILLIS then Text("yesterday")
    else if diff < 8 * DAY_MILLIS then Text(IntToString(JavaDiv(diff, DAY_MILLIS)) + " d")
    else RelativeSpan(time)
  }

  /**
   * `getRelativeTimeAgo`, given what `SimpleDateFormat.parse` made of the
   * `created_at` text (`None` for a `ParseException`) and the clock reading.
   */
  function RelativeTimeAgo(parsedTime: Option<Int64>, now: Int64): TimeLabel
  {
    match parsedTime
    case None => Text("")
    case Some(time) => Ladder(Wrap64(now - time), time)
  }

  /** A date that does not parse shows no label. */
  lemma UnparseableDateIsBlank(now: Int64)
    ensures RelativeTimeAgo(None, now) == Text("")
  {
  }

  /** The ladder is applied to the elapsed time itself unless `now - time` overflows a `long`. */
  lemma DiffIsElapsedTime(time: Int64, now: Int64)
    requires InLong(now - time)
    ensures RelativeTimeAgo(Some(time), now) == Ladder(now - time, time)
  {
  }

  /** Under a minute, clocks running backwards included, is "just now". */
  lemma JustNow(diff: Int64, time: Int64)
    requires diff < MINUTE_MILLIS
    ensures Ladder(diff, time) == Text("just now")
  {
  }

  /** The three fixed texts between the numeric buckets. */
  lemma FixedTexts(diff: Int64, time: Int64)
    ensures MINUTE_MILLIS <= diff < 2 * MINUTE_MILLIS ==> Ladder(diff, time) == Text("a minute ago")
    ensures 50 * MINUTE_MILLIS <= diff < 90 * MINUTE_MILLIS ==> Ladder(diff, time) == Text("an hour ago")
    ensures 24 * HOUR_MILLIS <= diff < 48 * HOUR_MILLIS ==> Ladder(diff, time) == Text("yesterday")
  {
  }

  /** From 2 to 49 minutes the label is the number of whole minutes elapsed, then " m". */
  lemma MinutesAgo(diff: Int64, time: Int64)
    requires 2 * MINUTE_MILLIS <= diff < 50 * MINUTE_MILLIS
    ensures var m := diff / MINUTE_MILLIS;
      && 2 <= m <= 49
      && m * MINUTE_MILLIS <= diff < (m + 1) * MINUTE_MILLIS
      && Ladder(diff, time) == Text(NatToString(m) + " m")
  {
  }

  /** From 90 minutes up to a day the label is the number of whole hours elapsed, 1 to 23, then " h". */
  lemma HoursAgo(diff: Int64, time: Int64)
    requires 90 * MINUTE_MILLIS <= diff < 24 * HOUR_MILLIS
    ensures var h := diff / HOUR_MILLIS;
      && 1 <= h <= 23
      && h * HOUR_MILLIS <= diff < (h + 1) * HOUR_MILLIS
      && Ladder(diff, time) == Text(NatToString(h) + " h")
  {
  }

  /** From two to eight days the label is the number of whole days elapsed, 2 to 7, then " d". */
  lemma DaysAgo(diff: Int64, time: Int64)
    requires 48 * HOUR_MILLIS <= diff < 8 * DAY_MILLIS
    ensures var d := diff / DAY_MILLIS;
      && 2 <= d <= 7
      && d * DAY_MILLIS <= diff < (d + 1) * DAY_MILLIS
      && Ladder(diff, time) == Text(NatToString(d) + " d")
  {
  }

  /** `DateUtils` is consulted exactly from eight days on. */
  lemma DateUtilsFromEightDays(diff: Int64, time: Int64)
    ensures Ladder(diff, time).RelativeSpan? <==> diff >= 8 * DAY_MILLIS
    ensures Ladder(diff, time).RelativeSpan? ==> Ladder(diff, time).time == time
  {
  }

  /**
   * The retweet counter `tvRTCount` of one row. `bind` writes the tweet's
   * count into it as text; a successful retweet reads that text back with
   * `Integer.parseInt` and writes the next `int`. The tweet itself is not
   * changed, so binding the row again shows the server's count again.
   */
  class ViewHolder {
    var rtCountText: string

    /**
     * The counter holds a number `Integer.parseInt` accepts. A freshly
     * inflated row need not; `Bind` establishes it, and the retweet button
     * is wired only by `Bind`.
     */
    predicate ShowsNumber()
      reads this
    {
      ParseInt(rtCountText).Some?
    }

    /** The count the row shows. */
    function Count(): Int32
      reads this
      requires ShowsNumber()
    {
      ParseInt(rtCountText).value
    }

    /** A row inflated from the layout, whose counter text is whatever the layout gives it. */
    constructor (layoutText: string)
      ensures rtCountText == layoutText
    {
      rtCountText := layoutText;
    }

    /** `bind(tweet)`, for the counter: `tvRTCount.setText(String.valueOf(tweet.RTCount))`. */
    method Bind(tweet: Tweet)
      modifies this
      ensures rtCountText == IntToString(tweet.rtCount)
      ensures ShowsNumber() && Count() == tweet.rtCount
    {
      rtCountText := IntToString(tweet.rtCount);
      ParseIntOfIntToString(tweet.rtCount);
    }

    /** The retweet `onSuccess` callback: the shown count goes up by one, as a Java `int`. */
    method OnRetweetSuccess()
      requires ShowsNumber()
      modifies this
      ensures ShowsNumber() && Count() == Wrap32(old(Count()) + 1)
      ensures rtCountText == IntToString(Count())
    {
      var ct: int := ParseInt(rtCountText).value;
      rtCountText := IntToString(Wrap32(ct + 1));
      ParseIntOfIntToString(Wrap32(ct + 1));
    }
  }
}
