/**
 * The home timeline (`TimelineActivity.java`): the list of tweets shown and
 * the static cursor `max_id`, and the four ways they change — the first load,
 * pull-to-refresh, loading an older page, and inserting a just-composed tweet.
 *
 * Each network request and its callback are one atomic step: the outcome of
 * the request is a parameter.
 */
module Timeline {
  import opened JavaInt
  import opened Json
  import opened Tweets

  /** `startActivityForResult` code used for the compose screen. */
  const REQUEST_CODE: int := 20
  /** Android's `Activity.RESULT_OK`. */
  const RESULT_OK: int := -1

  /** What the REST client hands to the callback: `onFailure`, or `onSuccess` with the JSON array. */
  datatype FeedResponse = FeedFailure | FeedSuccess(page: seq<Json>)

  /** The ids of a list of tweets, in order. */
  function Ids(ts: seq<Tweet>): (ids: seq<int>)
    ensures |ids| == |ts|
    ensures forall i :: 0 <= i < |ts| ==> ids[i] == ts[i].id
  {
    if ts == [] then [] else [ts[0].id] + Ids(ts[1..])
  }

  lemma IdsOfConcat(a: seq<Tweet>, b: seq<Tweet>)
    ensures Ids(a + b) == Ids(a) + Ids(b)
  {
  }

  /** The tweets a response adds: the parsed page, or nothing when it threw. */
  function PageTweets(p: Parsed<seq<Tweet>>): seq<Tweet>
  {
    if p.result.Ok? then p.result.value else []
  }

  class TimelineActivity {
    /** The list the adapter shows, newest first. */
    var tweets: seq<Tweet>
    /** The static `TimelineActivity.max_id`: the id of the last record parsed. */
    var maxId: Int64

    /**
     * `onCreate` up to the empty list. `max_id` is static, so a re-created
     * activity inherits the previous value; it is 0 here because the first
     * thing `onCreate` does with it is `populateHomeTimeline`, which resets it.
     */
    constructor ()
      ensures tweets == [] && maxId == 0
    {
      tweets := [];
      maxId := 0;
    }

    /**
     * `populateHomeTimeline`: reset the cursor, fetch the newest page and
     * append it to whatever the list already holds (no clearing).
     */
    method PopulateHomeTimeline(response: FeedResponse, users: UserParser)
      modifies this
      ensures response.FeedFailure? ==> tweets == old(tweets) && maxId == 0
      ensures response.FeedSuccess? ==>
        var p := ParsePage(response.page, users, 0);
        tweets == old(tweets) + PageTweets(p) && maxId == p.maxId
    {
      maxId := 0;
      match response {
        case FeedFailure =>
        case FeedSuccess(page) =>
          var r;
          r, maxId := FromJsonArray(page, users, maxId);
          if r.Ok? {
            tweets := tweets + r.value;
          }
      }
    }

    /**
     * `fetchTimelineAsync` (pull to refresh): reset the cursor, fetch the
     * newest page, and on success clear the list before parsing — so a page
     * that throws leaves the list empty, and one that parses becomes the list.
     */
    method FetchTimelineAsync(response: FeedResponse, users: UserParser)
      modifies this
      ensures response.FeedFailure? ==> tweets == old(tweets) && maxId == 0
      ensures response.FeedSuccess? ==>
        var p := ParsePage(response.page, users, 0);
        tweets == PageTweets(p) && maxId == p.maxId
      ensures response.FeedSuccess? && ParsePage(response.page, users, 0).result.Ok? && tweets != [] ==>
        maxId == tweets[|tweets| - 1].id
    {
      maxId := 0;
      match response {
        case FeedFailure =>
        case FeedSuccess(page) =>
          tweets := [];
          var r;
          r, maxId := FromJsonArray(page, users, maxId);
          if r.Ok? {
            tweets := tweets + r.value;
            PageLeavesLastId(page, users, 0);
          }
      }
    }

    /**
     * `loadNextDataFromApi`: ask for tweets up to `max_id - 1` and append the
     * page at the tail, after the old list and in page order, without
     * removing duplicates. A page that throws appends nothing, though the
     * records parsed before the exception have moved `max_id`.
     */
    method LoadNextDataFromApi(response: FeedResponse, users: UserParser) returns (upperBound: Int64)
      modifies this
      ensures upperBound == Wrap64(old(maxId) - 1)
      ensures response.FeedFailure? ==> tweets == old(tweets) && maxId == old(maxId)
      ensures response.FeedSuccess? ==>
        var p := ParsePage(response.page, users, old(maxId));
        tweets == old(tweets) + PageTweets(p) && maxId == p.maxId
      ensures response.FeedSuccess? && ParsePage(response.page, users, old(maxId)).result.Ok? ==>
        maxId == if response.page == [] then old(maxId) else tweets[|tweets| - 1].id
    {
      upperBound := Wrap64(maxId - 1);
      match response {
        case FeedFailure =>
        case FeedSuccess(page) =>
          var r;
          ghost var before := maxId;
          r, maxId := FromJsonArray(page, users, maxId);
          if r.Ok? {
            tweets := tweets + r.value;
            PageLeavesLastId(page, users, before);
          }
      }
    }

    /**
     * `onActivityResult`: a tweet sent back by the compose screen with
     * `RESULT_OK` goes in front of the list; any other result changes nothing.
     */
    method OnActivityResult(requestCode: int, resultCode: int, sent: Tweet)
      modifies this
      ensures maxId == old(maxId)
      ensures tweets == if requestCode == REQUEST_CODE && resultCode == RESULT_OK
        then [sent] + old(tweets) else old(tweets)
    {
      if requestCode == REQUEST_CODE && resultCode == RESULT_OK {
        tweets := [sent] + tweets;
      }
    }
  }
}
