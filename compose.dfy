/**
 * The compose screen (`ComposeActivity.java`): the checks on the text when
 * the Tweet button is pressed, and what a publish response leads to.
 */
module Compose {
  import opened JavaInt
  import opened Json
  import opened Tweets

  const MAX_TWEET_LENGTH: int := 280

  /** What pressing the button does with the text typed. */
  datatype Click = EmptyRejected | TooLongRejected | Publish(content: string)

  /** The publish request's outcome: `onFailure`, or `onSuccess` with the created tweet's JSON object. */
  datatype PublishResponse = PublishFailure | PublishSuccess(response: JsonObject)

  /** `setResult(RESULT_OK, intent)` followed by `finish()`, or neither. */
  datatype ActivityResult = NoResult | ResultOk(sent: Tweet)

  /** The two early returns of the click handler, then `publishTweet` with the text unchanged. */
  function CheckContent(content: string): (c: Click)
    ensures c.EmptyRejected? <==> |content| == 0
    ensures c.TooLongRejected? <==> |content| > MAX_TWEET_LENGTH
    ensures c.Publish? <==> 1 <= |content| <= MAX_TWEET_LENGTH
    ensures c.Publish? ==> c.content == content
  {
    if |content| == 0 then EmptyRejected
    else if |content| > MAX_TWEET_LENGTH then TooLongRejected
    else Publish(content)
  }

  /**
   * The click handler with the publish callback. A rejected text publishes
   * nothing. A published one that comes back parseable is returned to the
   * timeline with `RESULT_OK`; a parse failure or a network failure sets no
   * result and keeps the screen open. Parsing the response goes through
   * `Tweet.fromJson`, so it writes `TimelineActivity.max_id` too.
   */
  method OnTweetClick(content: string, response: PublishResponse, users: UserParser, maxId: Int64)
    returns (click: Click, result: ActivityResult, maxId': Int64)
    ensures click == CheckContent(content)
    ensures !click.Publish? || response.PublishFailure? ==> result == NoResult && maxId' == maxId
    ensures click.Publish? && response.PublishSuccess? ==>
      && maxId' == MaxIdAfter(response.response, users, maxId)
      && result == match TweetOf(response.response, users)
           case Ok(t) => ResultOk(t)
           case Err(_) => NoResult
  {
    click := CheckContent(content);
    result, maxId' := NoResult, maxId;
    if !click.Publish? {
      return;
    }
    match response {
      case PublishFailure =>
      case PublishSuccess(json) =>
        var t;
        t, maxId' := FromJson(json, users, maxId);
        if t.Ok? {
          result := ResultOk(t.value);
        }
    }
  }
}
