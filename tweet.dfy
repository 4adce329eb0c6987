/**
 * The tweet model (`models/Tweet.java`): turning one JSON record of the
 * Twitter API into a `Tweet`, and a page of records into a list of tweets.
 *
 * Parsing a record also writes the process-wide `TimelineActivity.max_id`
 * (the pagination cursor). That global is threaded through explicitly: each
 * parser takes its value before the call and returns its value afterwards.
 */
module Tweets {
  import opened JavaInt
  import opened Json

  /** The embedded author. */
  datatype User = User(screenName: string, name: string, profileImageUrl: string)

  /**
   * `User.fromJson`, whose code is not part of this model: some function from
   * a JSON object to a user, which may throw `JSONException`.
   */
  type UserParser = JsonObject -> Result<User>

  /** `mediaUrl` is `""` when the tweet has no photo. */
  datatype Tweet = Tweet(
    body: string,
    createdAt: string,
    user: User,
    mediaUrl: string,
    id: Int64,
    rtCount: Int32,
    likeCount: Int32)

  /** The outcome of parsing a page, with the value of `max_id` afterwards. */
  datatype Parsed<+T> = Parsed(result: Result<T>, maxId: Int64)

  // ---------------------------------------------------------------------------
  // What `fromJson` computes, stated as functions
  // ---------------------------------------------------------------------------

  /** The six lookups before the `max_id` write, in source order; `mediaUrl` is not set yet. */
  function Scalars(o: JsonObject, users: UserParser): Result<Tweet>
  {
    var body :- GetString(o, "text");
    var createdAt :- GetString(o, "created_at");
    var userJson :- GetObject(o, "user");
    var user :- users(userJson);
    var id :- GetLong(o, "id");
    var rtCount :- GetInt(o, "retweet_count");
    var likeCount :- GetInt(o, "favorite_count");
    Ok(Tweet(body, createdAt, user, "", id, rtCount, likeCount))
  }

  /** A media entry whose `type` is the string `"photo"`. */
  predicate IsPhoto(entry: Json)
  {
    entry.JObject? && "type" in entry.fields && entry.fields["type"] == JString("photo")
  }

  /** A media entry the scan can look at without throwing: an object with a string `type`. */
  predicate Scannable(entry: Json)
  {
    entry.JObject? && GetString(entry.fields, "type").Ok?
  }

  /** The `while` scan from index `i`: the URL of the first photo, or `""` when there is none. */
  function PhotoScan(media: seq<Json>, i: nat): Result<string>
    requires i <= |media|
    decreases |media| - i
  {
    if i == |media| then Ok("")
    else
      var entry :- GetObjectAt(media, i);
      var kind :- GetString(entry, "type");
      if kind == "photo" then GetString(entry, "media_url_https") else PhotoScan(media, i + 1)
  }

  /** The photo rule: scan `extended_entities.media` only when `entities` has `media`. */
  function MediaUrl(o: JsonObject): Result<string>
  {
    var entities :- GetObject(o, "entities");
    if !Has(entities, "media") then Ok("")
    else
      var extended :- GetObject(o, "extended_entities");
      var media :- GetArray(extended, "media");
      PhotoScan(media, 0)
  }

  /** The tweet `fromJson` returns, or the exception it throws. */
  function TweetOf(o: JsonObject, users: UserParser): Result<Tweet>
  {
    var t :- Scalars(o, users);
    var url :- MediaUrl(o);
    Ok(t.(mediaUrl := url))
  }

  /** `max_id` after `fromJson`: the record's id once the six lookups succeeded, else unchanged. */
  function MaxIdAfter(o: JsonObject, users: UserParser, maxId: Int64): Int64
  {
    if Scalars(o, users).Ok? then Scalars(o, users).value.id else maxId
  }

  /** A page element that `fromJsonArray` turns into a tweet. */
  predicate RecordParses(record: Json, users: UserParser)
  {
    record.JObject? && TweetOf(record.fields, users).Ok?
  }

  /** The exception a record at `index` makes `fromJsonArray` throw. */
  function RecordError(record: Json, index: nat, users: UserParser): JsonError
    requires !RecordParses(record, users)
  {
    if !record.JObject? then NotAnObjectAt(index) else TweetOf(record.fields, users).error
  }

  /** What `fromJsonArray` computes: records parsed left to right, stopping at the first exception. */
  function ParsePage(page: seq<Json>, users: UserParser, maxId: Int64): Parsed<seq<Tweet>>
    decreases |page|
  {
    if page == [] then Parsed(Ok([]), maxId)
    else
      var i := |page| - 1;
      var before := ParsePage(page[..i], users, maxId);
      if before.result.Err? then before
      else if !page[i].JObject? then Parsed(Err(NotAnObjectAt(i)), before.maxId)
      else
        var o := page[i].fields;
        var after := MaxIdAfter(o, users, before.maxId);
        match TweetOf(o, users)
        case Err(e) => Parsed(Err(e), after)
        case Ok(t) => Parsed(Ok(before.result.value + [t]), after)
  }

  // ---------------------------------------------------------------------------
  // The parsers, as the source writes them
  // ---------------------------------------------------------------------------

  /** `Tweet.fromJson`: field by field, then the photo scan with an early return. */
  method FromJson(o: JsonObject, users: UserParser, maxId: Int64) returns (r: Result<Tweet>, maxId': Int64)
    ensures r == TweetOf(o, users)
    ensures maxId' == MaxIdAfter(o, users, maxId)
  {
    maxId' := maxId;
    var body :- GetString(o, "text");
    var createdAt :- GetString(o, "created_at");
    var userJson :- GetObject(o, "user");
    var user :- users(userJson);
    var id :- GetLong(o, "id");
    var rtCount :- GetInt(o, "retweet_count");
    var likeCount :- GetInt(o, "favorite_count");
    var tweet := Tweet(body, createdAt, user, "", id, rtCount, likeCount);
    maxId' := tweet.id;

    var entities :- GetObject(o, "entities");
    if Has(entities, "media") {
      var extended :- GetObject(o, "extended_entities");
      var media :- GetArray(extended, "media");
      var i := 0;
      while i < |media|
        invariant 0 <= i <= |media|
        invariant PhotoScan(media, 0) == PhotoScan(media, i)
      {
        var entry :- GetObjectAt(media, i);
        var kind :- GetString(entry, "type");
        if kind == "photo" {
          var url :- GetString(entry, "media_url_https");
          return Ok(tweet.(mediaUrl := url)), maxId';
        }
        i := i + 1;
      }
    }
    r := Ok(tweet.(mediaUrl := ""));
  }

  /** `Tweet.fromJsonArray`: parse each record in turn; an exception aborts the whole page. */
  method FromJsonArray(page: seq<Json>, users: UserParser, maxId: Int64)
    returns (r: Result<seq<Tweet>>, maxId': Int64)
    ensures Parsed(r, maxId') == ParsePage(page, users, maxId)
  {
    maxId' := maxId;
    var tweets: seq<Tweet> := [];
    for i := 0 to |page|
      invariant ParsePage(page[..i], users, maxId) == Parsed(Ok(tweets), maxId')
    {
      assert page[..i + 1][..i] == page[..i];
      if !page[i].JObject? {
        FailureSticks(page, i + 1, users, maxId);
        return Err(NotAnObjectAt(i)), maxId';
      }
      var o := GetObjectAt(page, i).value;
      var t;
      t, maxId' := FromJson(o, users, maxId');
      if t.Err? {
        FailureSticks(page, i + 1, users, maxId);
        return Err(t.error), maxId';
      }
      tweets := tweets + [t.value];
    }
    assert page[..|page|] == page;
    return Ok(tweets), maxId';
  }

  // ---------------------------------------------------------------------------
  // Properties of a single record
  // ---------------------------------------------------------------------------

  /**
   * A parsed tweet copies `text`, `created_at`, `id`, `retweet_count` and
   * `favorite_count` (narrowed to `long` / `int`), takes its author from
   * `User.fromJson` of the `user` object, and its record has an `entities` object.
   */
  lemma ParsedFields(o: JsonObject, users: UserParser)
    requires TweetOf(o, users).Ok?
    ensures var t := TweetOf(o, users).value;
      && "text" in o && o["text"] == JString(t.body)
      && "created_at" in o && o["created_at"] == JString(t.createdAt)
      && "user" in o && o["user"].JObject? && users(o["user"].fields) == Ok(t.user)
      && "id" in o && o["id"].JNumber? && t.id == Wrap64(o["id"].num)
      && "retweet_count" in o && o["retweet_count"].JNumber? && t.rtCount == Wrap32(o["retweet_count"].num)
      && "favorite_count" in o && o["favorite_count"].JNumber? && t.likeCount == Wrap32(o["favorite_count"].num)
      && "entities" in o && o["entities"].JObject?
      && MediaUrl(o) == Ok(t.mediaUrl)
  {
  }

  /** A record without `text` is refused, before `max_id` is touched. */
  lemma MissingTextFails(o: JsonObject, users: UserParser, maxId: Int64)
    requires "text" !in o
    ensures TweetOf(o, users) == Err(NotFound("text"))
    ensures MaxIdAfter(o, users, maxId) == maxId
  {
  }

  /**
   * `max_id` is written as soon as the six lookups succeed: a tweet that is
   * returned leaves its own id there, and so does a record whose `entities`
   * or media lookups then throw.
   */
  lemma MaxIdWrittenBeforeMedia(o: JsonObject, users: UserParser, maxId: Int64)
    ensures TweetOf(o, users).Ok? ==> MaxIdAfter(o, users, maxId) == TweetOf(o, users).value.id
    ensures Scalars(o, users).Ok? && MediaUrl(o).Err? ==>
      TweetOf(o, users).Err? && "id" in o && MaxIdAfter(o, users, maxId) == Wrap64(o["id"].num)
    ensures Scalars(o, users).Err? ==> TweetOf(o, users).Err? && MaxIdAfter(o, users, maxId) == maxId
  {
  }

  /** Without a `media` key in `entities` the tweet has no photo, whatever `extended_entities` holds. */
  lemma NoMediaKeyNoPhoto(o: JsonObject)
    requires "entities" in o && o["entities"].JObject? && "media" !in o["entities"].fields
    ensures MediaUrl(o) == Ok("")
  {
  }

  /** With a `media` key in `entities`, a missing `extended_entities.media` array is an exception. */
  lemma MediaWithoutExtendedFails(o: JsonObject)
    requires "entities" in o && o["entities"].JObject? && "media" in o["entities"].fields
    requires "extended_entities" !in o || !o["extended_entities"].JObject?
      || "media" !in o["extended_entities"].fields || !o["extended_entities"].fields["media"].JArray?
    ensures MediaUrl(o).Err?
  {
  }

  /** With a `media` key in `entities`, the URL is what the scan of `extended_entities.media` gives. */
  lemma MediaScansExtended(o: JsonObject)
    requires "entities" in o && o["entities"].JObject? && "media" in o["entities"].fields
    requires "extended_entities" in o && o["extended_entities"].JObject?
    requires "media" in o["extended_entities"].fields && o["extended_entities"].fields["media"].JArray?
    ensures MediaUrl(o) == PhotoScan(o["extended_entities"].fields["media"].items, 0)
  {
  }

  /**
   * The first photo wins: when the entries before index `k` are all scannable
   * non-photos and entry `k` is a photo, the result is entry `k`'s
   * `media_url_https`, and any later photo is ignored.
   */
  lemma {:induction false} FirstPhotoWins(media: seq<Json>, i: nat, k: nat)
    requires i <= k < |media|
    requires IsPhoto(media[k])
    requires forall j :: i <= j < k ==> Scannable(media[j]) && !IsPhoto(media[j])
    ensures PhotoScan(media, i) == GetString(media[k].fields, "media_url_https")
    decreases k - i
  {
    if i < k {
      FirstPhotoWins(media, i + 1, k);
    }
  }

  /** When every entry is a scannable non-photo, the tweet has no photo. */
  lemma {:induction false} NoPhotoNoUrl(media: seq<Json>, i: nat)
    requires i <= |media|
    requires forall j :: i <= j < |media| ==> Scannable(media[j]) && !IsPhoto(media[j])
    ensures PhotoScan(media, i) == Ok("")
    decreases |media| - i
  {
    if i < |media| {
      NoPhotoNoUrl(media, i + 1);
    }
  }

  /**
   * An entry reached by the scan that is not an object, or has no string
   * `type`, makes `fromJson` throw.
   */
  lemma {:induction false} UnscannableEntryFails(media: seq<Json>, i: nat, k: nat)
    requires i <= k < |media|
    requires !Scannable(media[k])
    requires forall j :: i <= j < k ==> Scannable(media[j]) && !IsPhoto(media[j])
    ensures PhotoScan(media, i).Err?
    ensures PhotoScan(media, i).error == (if media[k].JObject? then Missing(media[k].fields, "type") else NotAnObjectAt(k))
    decreases k - i
  {
    if i < k {
      UnscannableEntryFails(media, i + 1, k);
    }
  }

  // ---------------------------------------------------------------------------
  // Properties of a page
  // ---------------------------------------------------------------------------

  /** Once a prefix of the page has thrown, the page throws the same and `max_id` stops moving. */
  lemma {:induction false} FailureSticks(page: seq<Json>, k: nat, users: UserParser, maxId: Int64)
    requires k <= |page|
    requires ParsePage(page[..k], users, maxId).result.Err?
    ensures ParsePage(page, users, maxId) == ParsePage(page[..k], users, maxId)
    decreases |page| - k
  {
    if k < |page| {
      var n := |page| - 1;
      if k < n {
        assert page[..n][..k] == page[..k];
        FailureSticks(page[..n], k, users, maxId);
      } else {
        assert page[..k] == page[..n];
      }
      assert ParsePage(page[..n], users, maxId).result.Err?;
    } else {
      assert page[..k] == page;
    }
  }

  /** A page parses exactly when every record does. */
  lemma {:induction false} PageParsesIffRecordsParse(page: seq<Json>, users: UserParser, maxId: Int64)
    ensures ParsePage(page, users, maxId).result.Ok? <==>
      forall i :: 0 <= i < |page| ==> RecordParses(page[i], users)
    decreases |page|
  {
    if page != [] {
      var n := |page| - 1;
      var prefix := page[..n];
      PageParsesIffRecordsParse(prefix, users, maxId);
      var before := ParsePage(prefix, users, maxId);
      if before.result.Err? {
        assert ParsePage(page, users, maxId) == before;
        var j :| 0 <= j < n && !RecordParses(prefix[j], users);
        assert prefix[j] == page[j];
      } else if RecordParses(page[n], users) {
        assert ParsePage(page, users, maxId).result.Ok?;
        forall i | 0 <= i < n ensures RecordParses(page[i], users) {
          assert prefix[i] == page[i];
        }
      } else {
        assert ParsePage(page, users, maxId).result.Err?;
      }
    }
  }

  /** A parsed page has one tweet per record, in order, each the tweet `fromJson` makes of it. */
  lemma {:induction false} PageTweetsAreRecordTweets(page: seq<Json>, users: UserParser, maxId: Int64)
    requires ParsePage(page, users, maxId).result.Ok?
    ensures var ts := ParsePage(page, users, maxId).result.value;
      && |ts| == |page|
      && forall i :: 0 <= i < |page| ==> page[i].JObject? && TweetOf(page[i].fields, users) == Ok(ts[i])
    decreases |page|
  {
    if page != [] {
      var n := |page| - 1;
      var prefix := page[..n];
      var before := ParsePage(prefix, users, maxId);
      assert before.result.Ok?;
      PageTweetsAreRecordTweets(prefix, users, maxId);
      var ts := before.result.value + [TweetOf(page[n].fields, users).value];
      assert ParsePage(page, users, maxId).result == Ok(ts);
      forall i | 0 <= i < n
        ensures page[i].JObject? && TweetOf(page[i].fields, users) == Ok(ts[i])
      {
        assert prefix[i] == page[i] && ts[i] == before.result.value[i];
      }
    }
  }

  /**
   * Fail-fast: when the records before `k` parse and record `k` does not, the
   * page throws record `k`'s exception and no list is returned.
   */
  lemma PageFailsAtFirstBadRecord(page: seq<Json>, users: UserParser, maxId: Int64, k: nat)
    requires k < |page|
    requires forall j :: 0 <= j < k ==> RecordParses(page[j], users)
    requires !RecordParses(page[k], users)
    ensures ParsePage(page, users, maxId).result == Err(RecordError(page[k], k, users))
  {
    var prefix := page[..k + 1];
    assert prefix[..k] == page[..k];
    PageParsesIffRecordsParse(page[..k], users, maxId);
    assert forall j :: 0 <= j < k ==> page[..k][j] == page[j];
    FailureSticks(page, k + 1, users, maxId);
  }

  /**
   * After a page parses, `max_id` holds the id of its last tweet, or is
   * unchanged when the page is empty.
   */
  lemma PageLeavesLastId(page: seq<Json>, users: UserParser, maxId: Int64)
    requires ParsePage(page, users, maxId).result.Ok?
    ensures var p := ParsePage(page, users, maxId);
      p.maxId == if page == [] then maxId else p.result.value[|p.result.value| - 1].id
  {
  }
}
