/**
 * Whole-screen runs of the timeline, composed of the operations above, on
 * concrete pages.
 */
module Scenarios {
  import opened JavaInt
  import opened Json
  import opened Tweets
  import opened Timeline
  import Compose

  /** A stand-in for `User.fromJson` that accepts any object. */
  const AnyUser: UserParser := (o: JsonObject) => Ok(User("", "", ""))

  /** A well-formed timeline record with the given id and no media. */
  function Record(id: Int64): Json
  {
    JObject(map[
      "text" := JString("hi"),
      "created_at" := JString("Mon Oct 12 10:00:00 +0000 2026"),
      "user" := JObject(map[]),
      "id" := JNumber(id),
      "retweet_count" := JNumber(0),
      "favorite_count" := JNumber(0),
      "entities" := JObject(map[])])
  }

  lemma RecordTweet(id: Int64)
    ensures TweetOf(Record(id).fields, AnyUser) == Ok(Tweet("hi", "Mon Oct 12 10:00:00 +0000 2026", User("", "", ""), "", id, 0, 0))
  {
  }

  /** The page the server would send for the given ids, newest first. */
  function Page(ids: seq<Int64>): (page: seq<Json>)
    ensures |page| == |ids| && forall i :: 0 <= i < |ids| ==> page[i] == Record(ids[i])
  {
    if ids == [] then [] else [Record(ids[0])] + Page(ids[1..])
  }

  /** A page of well-formed records parses to tweets with the records' ids, leaving the last id as cursor. */
  lemma PageOfRecords(ids: seq<Int64>, maxId: Int64)
    ensures ParsePage(Page(ids), AnyUser, maxId).result.Ok?
    ensures Ids(ParsePage(Page(ids), AnyUser, maxId).result.value) == ids
    ensures ParsePage(Page(ids), AnyUser, maxId).maxId == if ids == [] then maxId else ids[|ids| - 1]
  {
    var page := Page(ids);
    forall i | 0 <= i < |page| ensures RecordParses(page[i], AnyUser) {
      RecordTweet(ids[i]);
    }
    PageParsesIffRecordsParse(page, AnyUser, maxId);
    PageTweetsAreRecordTweets(page, AnyUser, maxId);
    var ts := ParsePage(page, AnyUser, maxId).result.value;
    forall i | 0 <= i < |ids| ensures Ids(ts)[i] == ids[i] {
      RecordTweet(ids[i]);
    }
    PageLeavesLastId(page, AnyUser, maxId);
  }

  /**
   * Refresh, then load more: the request asks for ids below the last id of
   * the refreshed page, the older page lands at the tail unchanged, and the
   * cursor ends on the last id parsed.
   */
  method RefreshThenLoadMore(newest: seq<Int64>, older: seq<Int64>)
    returns (ids: seq<int>, cursor: Int64, upperBound: Int64)
    requires newest != []
    ensures ids == newest + older
    ensures cursor == (newest + older)[|newest + older| - 1]
    ensures upperBound == Wrap64((newest[|newest| - 1] as int) - 1)
  {
    RefreshThenLoadPages(newest, older);
    var timeline := new TimelineActivity();
    timeline.FetchTimelineAsync(FeedSuccess(Page(newest)), AnyUser);
    upperBound := timeline.LoadNextDataFromApi(FeedSuccess(Page(older)), AnyUser);
    ids, cursor := Ids(timeline.tweets), timeline.maxId;
  }

  /** What the two pages of `RefreshThenLoadMore` parse to, one after the other. */
  lemma RefreshThenLoadPages(newest: seq<Int64>, older: seq<Int64>)
    requires newest != []
    ensures var refreshed := ParsePage(Page(newest), AnyUser, 0);
      var loaded := ParsePage(Page(older), AnyUser, refreshed.maxId);
      && refreshed.result.Ok? && loaded.result.Ok?
      && refreshed.maxId == newest[|newest| - 1]
      && loaded.maxId == (newest + older)[|newest + older| - 1]
      && Ids(PageTweets(refreshed) + PageTweets(loaded)) == newest + older
  {
    PageOfRecords(newest, 0);
    var refreshed := ParsePage(Page(newest), AnyUser, 0);
    PageOfRecords(older, refreshed.maxId);
    var loaded := ParsePage(Page(older), AnyUser, refreshed.maxId);
    var all := newest + older;
    if older == [] {
      assert all == newest;
      assert loaded.maxId == refreshed.maxId == all[|all| - 1];
    } else {
      assert all[|all| - 1] == older[|older| - 1];
      assert loaded.maxId == all[|all| - 1];
    }
    IdsOfConcat(PageTweets(refreshed), PageTweets(loaded));
  }

  /** Refresh with ids 50, 49, 48, then load more with 47, 46. */
  method RefreshThenLoadMoreExample() returns (ids: seq<int>, cursor: Int64, upperBound: Int64)
    ensures ids == [50, 49, 48, 47, 46] && cursor == 46 && upperBound == 47
  {
    ids, cursor, upperBound := RefreshThenLoadMore([50, 49, 48], [47, 46]);
  }

  /**
   * Because `Tweet.fromJson` writes the static cursor, publishing a tweet
   * after a refresh moves the cursor to the new tweet: the composed tweet
   * heads the list, and the next load more asks for ids below the composed
   * one rather than below the oldest tweet shown.
   */
  method ComposeThenLoadMore(newest: seq<Int64>, composed: Int64) returns (ids: seq<int>, upperBound: Int64)
    ensures ids == [composed] + newest
    ensures upperBound == Wrap64((composed as int) - 1)
  {
    ComposeAfterRefreshPages(newest, composed);
    var timeline := new TimelineActivity();
    timeline.FetchTimelineAsync(FeedSuccess(Page(newest)), AnyUser);
    var click, result, maxId :=
      Compose.OnTweetClick("hello", Compose.PublishSuccess(Record(composed).fields), AnyUser, timeline.maxId);
    timeline.maxId := maxId;
    timeline.OnActivityResult(REQUEST_CODE, RESULT_OK, result.sent);
    ids := Ids(timeline.tweets);
    upperBound := timeline.LoadNextDataFromApi(FeedFailure, AnyUser);
  }

  /** What the refreshed page and the published record of `ComposeThenLoadMore` parse to. */
  lemma ComposeAfterRefreshPages(newest: seq<Int64>, composed: Int64)
    ensures var refreshed := ParsePage(Page(newest), AnyUser, 0);
      var sent := TweetOf(Record(composed).fields, AnyUser);
      && refreshed.result.Ok? && sent.Ok?
      && MaxIdAfter(Record(composed).fields, AnyUser, refreshed.maxId) == composed
      && Ids([sent.value] + PageTweets(refreshed)) == [composed] + newest
  {
    PageOfRecords(newest, 0);
    var refreshed := ParsePage(Page(newest), AnyUser, 0);
    RecordTweet(composed);
    var sent := TweetOf(Record(composed).fields, AnyUser);
    MaxIdWrittenBeforeMedia(Record(composed).fields, AnyUser, refreshed.maxId);
    IdsOfConcat([sent.value], PageTweets(refreshed));
  }

  /** Refresh with ids 50, 49, 48, then publish a tweet that gets id 100: load more asks for ids up to 99. */
  method ComposeThenLoadMoreExample() returns (ids: seq<int>, upperBound: Int64)
    ensures ids == [100, 50, 49, 48] && upperBound == 99
  {
    ids, upperBound := ComposeThenLoadMore([50, 49, 48], 100);
  }
}
