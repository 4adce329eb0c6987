# Twitter client core — a Dafny model

This project models the logic underneath an Android Twitter client: turning
the Twitter API's JSON records into tweets, the home timeline's list and its
pagination cursor, the "time ago" label of a tweet, the retweet counter of a
timeline row, and the checks the compose screen makes before publishing.

Modules, one per source file, plus helpers:

- `Tweets` (`models/Tweet.java`): `FromJson` and `FromJsonArray` as the
  source writes them (lookups field by field, a `while` scan over media with
  an early return, a loop over the page), each proved equal to a functional
  description (`TweetOf`, `MaxIdAfter`, `ParsePage`) about which the lemmas
  are stated. The static `TimelineActivity.max_id`, which every parsed record
  overwrites, is an explicit input and output of the parsers.
- `Timeline` (`TimelineActivity.java`): the class `TimelineActivity` with the
  shown list `tweets: seq<Tweet>` and the static cursor `maxId`, and the
  first load, pull-to-refresh, load-more and the insertion of a composed
  tweet. The network outcome of each request is a parameter.
- `TweetsAdapter` (`adapters/TweetsAdapter.java`): the `getRelativeTimeAgo`
  ladder and the row's retweet counter (`ViewHolder`), which is read back
  with `Integer.parseInt` and rewritten as the next `int`.
- `RootTweetsAdapter` (`TweetsAdapter.java`): the older adapter's copy of the
  ladder, proved to agree with the other one everywhere.
- `Compose` (`ComposeActivity.java`): the empty / over-280 checks and the
  handling of the publish response.
- `Scenarios`: runs of the timeline built from the operations above.
- Helpers: `Json` (the JSON document and `org.json`'s typed lookups),
  `JavaInt` (`int`/`long` widths, wrap-around, truncating division),
  `Decimal` (`String.valueOf` and `Integer.parseInt` on integers), `Wrappers`.

The code, not a tidier design, is what is modelled. In particular the
timeline does not remove duplicate ids; the cursor is the id of the last
record parsed, not the smallest id shown; nothing guards against two requests
at once; a refresh clears the list before parsing, so a page that fails to
parse leaves the timeline empty; a record whose `entities` has `media` but
lacks `extended_entities.media` makes the whole record (and page) fail
rather than count as "no photo"; retweet failures, including Twitter's
"already retweeted" error, are only logged; and publishing a tweet sends its
JSON through `Tweet.fromJson`, which moves the shared cursor to the new
tweet's id, so the next load-more asks for tweets below the new tweet
(`Scenarios.ComposeThenLoadMore`).

## Model

| member | source | states |
|---|---|---|
| `Tweets.FromJson` | app/src/main/java/com/codepath/apps/restclienttemplate/models/Tweet.java:30-55 | the imperative parser returns exactly `TweetOf` of the record and leaves `max_id` at `MaxIdAfter` (the record's id once the six scalar lookups succeeded, else unchanged) |
| `Tweets.FromJsonArray` | app/src/main/java/com/codepath/apps/restclienttemplate/models/Tweet.java:57-63 | the loop over the page returns exactly `ParsePage`: records parsed left to right, the first exception aborting the page, `max_id` as the parsed records left it |
| `Tweets.ParsedFields` | app/src/main/java/com/codepath/apps/restclienttemplate/models/Tweet.java:32-42 | a parsed tweet implies `text`, `created_at`, a `user` object, numeric `id`, `retweet_count`, `favorite_count` and an `entities` object; body, date, id and counts are copied (narrowed to `long`/`int`), the author is `User.fromJson` of `user`, the media URL is the photo rule's |
| `Tweets.MissingTextFails` | app/src/main/java/com/codepath/apps/restclienttemplate/models/Tweet.java:32 | a record without `text` fails with the error `NotFound("text")` and leaves `max_id` unchanged |
| `Tweets.MaxIdWrittenBeforeMedia` | app/src/main/java/com/codepath/apps/restclienttemplate/models/Tweet.java:35-43 | a returned tweet leaves its id in `max_id`; a record whose scalar part parses but whose media lookup throws fails yet still leaves its id there; a record failing earlier leaves `max_id` unchanged |
| `Tweets.NoMediaKeyNoPhoto` | app/src/main/java/com/codepath/apps/restclienttemplate/models/Tweet.java:42-53 | without `media` in `entities` the media URL is `""` |
| `Tweets.MediaWithoutExtendedFails` | app/src/main/java/com/codepath/apps/restclienttemplate/models/Tweet.java:42-43 | with `media` in `entities`, a missing `extended_entities` object or `media` array makes the record fail |
| `Tweets.MediaScansExtended` | app/src/main/java/com/codepath/apps/restclienttemplate/models/Tweet.java:42-45 | with `media` in `entities`, the media URL is the scan of `extended_entities.media` |
| `Tweets.FirstPhotoWins` | app/src/main/java/com/codepath/apps/restclienttemplate/models/Tweet.java:44-49 | the scan yields the `media_url_https` of the first entry whose `type` is `"photo"`; later photos are ignored |
| `Tweets.NoPhotoNoUrl` | app/src/main/java/com/codepath/apps/restclienttemplate/models/Tweet.java:44-53 | when no entry is a photo the scan yields `""` |
| `Tweets.UnscannableEntryFails` | app/src/main/java/com/codepath/apps/restclienttemplate/models/Tweet.java:45-46 | an entry reached by the scan that is not an object or has no string `type` makes the record fail, with that entry's error |
| `Tweets.FailureSticks` | app/src/main/java/com/codepath/apps/restclienttemplate/models/Tweet.java:59-61 | once a prefix of the page has thrown, the page's outcome and `max_id` are that prefix's |
| `Tweets.PageParsesIffRecordsParse` | app/src/main/java/com/codepath/apps/restclienttemplate/models/Tweet.java:57-63 | a page parses if and only if every one of its records parses |
| `Tweets.PageTweetsAreRecordTweets` | app/src/main/java/com/codepath/apps/restclienttemplate/models/Tweet.java:57-63 | a parsed page yields exactly one tweet per record, in record order, the i-th being what `fromJson` makes of the i-th record |
| `Tweets.PageFailsAtFirstBadRecord` | app/src/main/java/com/codepath/apps/restclienttemplate/models/Tweet.java:59-61 | the page fails with the error of its first unparseable record and returns no list |
| `Tweets.PageLeavesLastId` | app/src/main/java/com/codepath/apps/restclienttemplate/models/Tweet.java:38-61 | after a parsed page `max_id` is its last tweet's id, or unchanged for an empty page |
| `Timeline.TimelineActivity.constructor` | app/src/main/java/com/codepath/apps/restclienttemplate/TimelineActivity.java:47-81 | the timeline starts with an empty list and the cursor at 0 |
| `Timeline.TimelineActivity.PopulateHomeTimeline` | app/src/main/java/com/codepath/apps/restclienttemplate/TimelineActivity.java:204-226 | the cursor is reset to 0; a parsed page is appended to the existing list without clearing it; a failure changes no tweet |
| `Timeline.TimelineActivity.FetchTimelineAsync` | app/src/main/java/com/codepath/apps/restclienttemplate/TimelineActivity.java:129-151 | the cursor is reset to 0; a parsed page becomes the list and its last id the cursor; an unparseable page leaves the list empty; a network failure leaves the list unchanged and the cursor 0 |
| `Timeline.TimelineActivity.LoadNextDataFromApi` | app/src/main/java/com/codepath/apps/restclienttemplate/TimelineActivity.java:104-125 | requests ids up to `max_id - 1`; a parsed page is appended at the tail in order, the old list kept as prefix and the cursor moved to the page's last id; a parse or network failure appends nothing |
| `Timeline.TimelineActivity.OnActivityResult` | app/src/main/java/com/codepath/apps/restclienttemplate/TimelineActivity.java:192-202 | only request code 20 with `RESULT_OK` inserts the sent tweet at index 0, shifting the old list by one; the cursor is untouched |
| `TweetsAdapter.UnparseableDateIsBlank` | app/src/main/java/com/codepath/apps/restclienttemplate/adapters/TweetsAdapter.java:111-115 | a date that does not parse yields `""` |
| `TweetsAdapter.DiffIsElapsedTime` | app/src/main/java/com/codepath/apps/restclienttemplate/adapters/TweetsAdapter.java:87-90 | the ladder is applied to `now - time` whenever that fits a `long` |
| `TweetsAdapter.JustNow` | app/src/main/java/com/codepath/apps/restclienttemplate/adapters/TweetsAdapter.java:91-92 | any difference under 60000 ms, negative ones included, yields "just now" |
| `TweetsAdapter.FixedTexts` | app/src/main/java/com/codepath/apps/restclienttemplate/adapters/TweetsAdapter.java:93-102 | [60000,120000) yields "a minute ago", [3000000,5400000) "an hour ago", [86400000,172800000) "yesterday" |
| `TweetsAdapter.MinutesAgo` | app/src/main/java/com/codepath/apps/restclienttemplate/adapters/TweetsAdapter.java:95-96 | [120000,3000000) yields the whole minutes elapsed, between 2 and 49, followed by " m" |
| `TweetsAdapter.HoursAgo` | app/src/main/java/com/codepath/apps/restclienttemplate/adapters/TweetsAdapter.java:99-100 | [5400000,86400000) yields the whole hours elapsed, between 1 and 23, followed by " h" |
| `TweetsAdapter.DaysAgo` | app/src/main/java/com/codepath/apps/restclienttemplate/adapters/TweetsAdapter.java:103-104 | [172800000,691200000) yields the whole days elapsed, between 2 and 7, followed by " d" |
| `TweetsAdapter.DateUtilsFromEightDays` | app/src/main/java/com/codepath/apps/restclienttemplate/adapters/TweetsAdapter.java:103-109 | `DateUtils` is consulted, with the tweet's time, exactly when the difference is at least 691200000 ms |
| `TweetsAdapter.ViewHolder.Bind` | app/src/main/java/com/codepath/apps/restclienttemplate/adapters/TweetsAdapter.java:150 | the counter shows the tweet's retweet count as decimal text, which reads back as that count |
| `TweetsAdapter.ViewHolder.OnRetweetSuccess` | app/src/main/java/com/codepath/apps/restclienttemplate/adapters/TweetsAdapter.java:180-184 | after a successful retweet the shown count is the previous one plus 1 (as a Java `int`) |
| `Decimal.ParseIntOfIntToString` | app/src/main/java/com/codepath/apps/restclienttemplate/adapters/TweetsAdapter.java:182-183 | `Integer.parseInt` of `String.valueOf(n)` is `n` for every `int`, so the counter never throws |
| `RootTweetsAdapter.SameLabelsAsAdaptersPackage` | app/src/main/java/com/codepath/apps/restclienttemplate/TweetsAdapter.java:67-103 | the root adapter's `getRelativeTimeAgo` equals the other adapter's for every parse outcome and clock reading |
| `Compose.CheckContent` | app/src/main/java/com/codepath/apps/restclienttemplate/ComposeActivity.java:52-61 | empty text is rejected, text over 280 characters is rejected, and text of 1 to 280 characters is published unchanged |
| `Compose.OnTweetClick` | app/src/main/java/com/codepath/apps/restclienttemplate/ComposeActivity.java:49-85 | a rejected text publishes nothing; a publish success with a parseable response gives `RESULT_OK` with `Tweet.fromJson` of it; a parse or network failure sets no result; the response's parse moves `max_id` as `fromJson` does |
| `Scenarios.RefreshThenLoadMore` | app/src/main/java/com/codepath/apps/restclienttemplate/TimelineActivity.java:104-136 | refresh then load-more shows the newer page followed by the older one, requests ids below the refreshed page's last id, and leaves the cursor on the last id parsed |
| `Scenarios.RefreshThenLoadMoreExample` | app/src/main/java/com/codepath/apps/restclienttemplate/TimelineActivity.java:104-136 | refresh with 50, 49, 48 then load-more with 47, 46 shows 50 to 46, requested 47 and ends with cursor 46 |
| `Scenarios.ComposeThenLoadMore` | app/src/main/java/com/codepath/apps/restclienttemplate/ComposeActivity.java:65-71 | a composed tweet heads the list and, because its parse writes the shared cursor, the next load-more requests ids below the composed tweet's id |
| `Scenarios.ComposeThenLoadMoreExample` | app/src/main/java/com/codepath/apps/restclienttemplate/ComposeActivity.java:65-71 | after refreshing 50, 49, 48 and publishing a tweet with id 100, the list is 100, 50, 49, 48 and load-more requests 99 |

## Left out

- Android UI: activity lifecycle, view binding other than the retweet counter, Glide image loading, toasts, logging, the action-bar menu (compose, logout and its unreachable duplicate compose branch) and the refresh spinner.
- Networking, OAuth and `TwitterClient`: each request's outcome is a parameter (failure, or success carrying the JSON); what the server returns for a given cursor is not modelled.
- Callback timing: a request and its callback are one atomic step; overlapping requests and callbacks arriving late are not modelled.
- `EndlessRecyclerViewScrollListener`, which decides when load-more runs, and the unused `offset` argument of `loadNextDataFromApi`.
- Date handling: `SimpleDateFormat` parsing and `System.currentTimeMillis` are parameters (the parse result as an option, the clock as a number); the text of `DateUtils.getRelativeTimeSpanString` is not modelled, only that it is asked for the tweet's time (its second clock reading is not a parameter).
- `User.fromJson` is not part of this model: it is a parameter, some function from a JSON object to a user or an exception.
- `org.json`'s coercions are not modelled: a lookup of the wrong kind fails here, whereas `getString` turns any present value into text and `getLong`/`getInt` read numeric strings. Numbers are integers only; a number outside the `long` range, which `org.json` holds as a `double` and narrows by saturation, is narrowed here by wrapping.
- Tweets.UnscannableEntryFails: a media entry whose `type` is present but not a string (for example `null`) makes the record fail here, whereas `getString` would give its text (such as "null"), which is not "photo", and the scan would go on.
- A response whose body is not the expected JSON array (timeline) or object (publish), for which the source would dereference null, is not modelled: the callbacks receive the array's elements or the object directly.
- Parceler: wrapping and unwrapping the composed tweet is taken to give back the same tweet.
- The reply extras (`ID`, `screenname`) put on the compose intent are not read by the compose screen shown, so they are not modelled.
- Text length: Java counts UTF-16 code units, the model counts Dafny characters; they differ only for characters outside the Basic Multilingual Plane.
- `Decimal.ParseInt`: accepts ASCII digits only, whereas `Integer.parseInt` also accepts other Unicode decimal digits; this does not matter for the counter, which only reads back what `String.valueOf` wrote.
- `JavaInt.JavaDiv`: does not wrap the most negative value divided by -1; the ladder only divides positive values by positive constants.
- A retweet failure only logs, so it changes nothing and is not modelled as an operation.
