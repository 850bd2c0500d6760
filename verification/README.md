# Kafka–YouTube–Telegram pipeline, modelled in Dafny

This project models the decision logic of a three-service pipeline:

- **Producer service**:
  - extracts a video id from a YouTube link;
  - fetches the video, its channel and its newest comment through the YouTube Data API, using ETag-conditional requests and an in-memory cache;
  - saves the record and routes it onto Kafka by comment-length parity;
  - re-fetches every stored video on a schedule;
  - serves `/search` and `/videos/{id}` over HTTP.
- **Consumer service**: keeps a live map of the records it receives and computes analytics over it (totals, per-metric leaders, engagement leader).
- **Telegram bot**: formats one chat message for every record on the comments topic that has a non-blank comment.

The model is purely functional:
- Java `null` is `Option.None`.
- A thrown exception is `Result.Failure`.
- Long counts are `nat`.
- Strings are sequences of code points.
- The API's answers, the Kafka outbox, the cache, the repository and the log of API calls are explicit values threaded through each operation (`YouTubeFetch.ProducerState`).

Modules, one per source file:

| file | module | models |
|---|---|---|
| `wrappers.dfy` | `Wrappers` | `Option` and `Result` |
| `java_text.dfy` | `JavaText` | `String.trim`, `isEmpty`, UTF-16 `length()`, `%d` |
| `videos.dfy` | `Videos` | the `YoutubeVideo` record shared by the three services |
| `video_id.dfy` | `VideoIdExtraction` | the `VIDEO_ID_PATTERN` regex search |
| `video_cache.dfy` | `VideoCache` | `VideoCacheService` |
| `video_repository.dfy` | `VideoRepository` | the upsert-by-id store |
| `kafka_producer.dfy` | `KafkaProducer` | `KafkaProducerService` |
| `youtube_service.dfy` | `YouTubeFetch` | `YouTubeService.fetchVideoData`, `fetchChannelData` |
| `scheduler.dfy` | `VideoUpdate` | `VideoUpdateScheduler` |
| `controller.dfy` | `Controller` | `YoutubeController` |
| `analytics.dfy` | `Analytics` | the consumer's `getAnalytics` |
| `live_set.dfy` | `LiveSet` | the consumer's listeners and `getAllVideos` |
| `telegram.dfy` | `TelegramNotifier` | the Telegram bot's `consume` |
| `analytics_record.dfy` | `AnalyticsRecord` | the `YoutubeVideoAnalytics` constructor |

Behaviour worth noting, as the code has it:

- **Significant changes.** A change counts as significant when either comment is non-null. It does not depend on whether the comment is non-empty. Every fetched record carries a non-null comment (`""` when there is none). So the scheduler always forwards a successful re-fetch (`VideoUpdate.UpdateAlwaysResends`). After a fresh fetch, the record is therefore routed twice: once inside the fetch and once by the scheduler.
- **Routing on every fresh fetch.** A fresh fetch hands the record to the router, so a record with a blank comment is saved but sent nowhere.
- **Failed fetches can still change the channel cache.** A failure in the comment request happens after the channel answer was cached, so the channel cache can change on a failed fetch. The video cache, the repository and the outbox stay unchanged (`YouTubeFetch.CommentFailureKeepsChannel`).
- **Nulls in the analytics.** Null counts are summed as zero, but they are not compared as zero:
  - only the first record can lead with a null count, because it is taken whatever its counts are; a later record with a null count never takes the lead;
  - a leader whose count is null throws a `NullPointerException` as soon as a later record has that count non-null.

  The whole call then fails (`Analytics.GetAnalyticsCorrect`).
- **Deleting sends nothing to the consumer.** `deleteVideo` removes the row but sends no delete notification, so the consumer's live map keeps the record.

## Model

| member | source | states |
|---|---|---|
| VideoIdExtraction.ExtractVideoId | spring-producer/src/main/java/com/example/producer/service/YouTubeService.java:31-57 | None exactly when no marker of the lookbehind ends anywhere in the url; otherwise the id is the maximal run of non-`#&?\n` characters after the leftmost marker end |
| VideoIdExtraction.ExtractFindsMatch | spring-producer/src/main/java/com/example/producer/service/YouTubeService.java:31-57 | any id sitting at the leftmost marker end and stopped by a delimiter or the end is exactly what the search returns (the converse of the above) |
| VideoIdExtraction.ExtractShortLink | spring-producer/src/main/java/com/example/producer/service/YouTubeService.java:31 | `https://youtu.be/` + id + rest yields id, for every id free of delimiters and rest starting with one |
| VideoIdExtraction.ExtractWatchLink | spring-producer/src/main/java/com/example/producer/service/YouTubeService.java:31 | `https://www.youtube.com/watch?v=` + id + rest yields id under the same conditions |
| VideoIdExtraction.ExtractVideoIdExamples | spring-producer/src/main/java/com/example/producer/service/YouTubeService.java:31-57 | short and watch links to `abc123` both yield `abc123` |
| VideoIdExtraction.ExtractDropsParameter | spring-producer/src/main/java/com/example/producer/service/YouTubeService.java:31 | the id stops at `&` |
| VideoIdExtraction.ExtractEmptyId | spring-producer/src/main/java/com/example/producer/service/YouTubeService.java:31 | a bare `youtu.be/` matches with an empty id instead of failing |
| VideoIdExtraction.ExtractRejectsForeignUrl | spring-producer/src/main/java/com/example/producer/service/YouTubeService.java:51-57 | a url with no marker is rejected |
| VideoCache.GetCachedVideo | spring-producer/src/main/java/com/example/producer/service/VideoCacheService.java:44-46 | present exactly when the id was cached, and then the stored entry |
| VideoCache.GetCachedChannel | spring-producer/src/main/java/com/example/producer/service/VideoCacheService.java:52-54 | the same for channels |
| VideoCache.CacheVideo | spring-producer/src/main/java/com/example/producer/service/VideoCacheService.java:40-42 | the id now maps to (video, etag); every other video entry and every channel entry is unchanged |
| VideoCache.CacheChannelData | spring-producer/src/main/java/com/example/producer/service/VideoCacheService.java:48-50 | the id now maps to (channel, etag); everything else unchanged |
| VideoCache.ClearCache | spring-producer/src/main/java/com/example/producer/service/VideoCacheService.java:56-59 | every lookup in either map misses afterwards |
| VideoCache.IfNoneMatch | spring-producer/src/main/java/com/example/producer/service/YouTubeService.java:68-79 | with a cached entry the request carries exactly that entry's etag; without one it carries none |
| VideoCache.ReplayVideoLookup | spring-producer/src/main/java/com/example/producer/service/VideoCacheService.java:40-59 | after any sequence of puts and clears, a video lookup returns the last write to that id since the last clear |
| VideoCache.ReplaySplit | spring-producer/src/main/java/com/example/producer/service/VideoCacheService.java:40-59 | replaying a longer history is replaying the shorter one and then applying the last operation |
| VideoRepository.Save | spring-producer/src/main/java/com/example/producer/service/YouTubeService.java:150-151 | upsert: key set gains the id, the id maps to the record, every other row unchanged |
| VideoRepository.DeleteById | spring-producer/src/main/java/com/example/producer/controller/YoutubeController.java:59 | key set loses the id, every remaining row unchanged |
| JavaText.Trim | spring-producer/src/main/java/com/example/producer/service/KafkaProducerService.java:52-53 | the result is the input minus a prefix and suffix of characters at most U+0020, with no such character at either end; it is empty exactly when the input is blank |
| JavaText.Utf16Length | spring-producer/src/main/java/com/example/producer/service/KafkaProducerService.java:54 | the code-point count plus the number of characters outside the BMP (counted independently, from the other end); hence between the code-point count and twice it, and equal to it exactly when no character is outside the BMP |
| JavaText.DecimalRoundTrip | telegram-bot/src/main/java/com/example/telegrambot/service/KafkaConsumerService.java:36-38 | the decimal text printed for a count parses back to that count |
| KafkaProducer.SendVideoData | spring-producer/src/main/java/com/example/producer/service/KafkaProducerService.java:40-77 | at most one message; one exactly when the record is non-null with a non-null, non-blank comment; it is keyed by the video id, carries the record, never goes to the delete topic, and goes to the analytics topic exactly when the trimmed comment has even UTF-16 length |
| KafkaProducer.SendDeleteNotification | spring-producer/src/main/java/com/example/producer/service/KafkaProducerService.java:79-105 | nothing for a null or blank id; otherwise one delete-topic message keyed by the untrimmed id whose payload carries only that id |
| KafkaProducer.RoutingIgnoresPadding | spring-producer/src/main/java/com/example/producer/service/KafkaProducerService.java:52-59 | surrounding a comment with whitespace never changes where the record goes |
| KafkaProducer.RouteOddComment | spring-producer/src/main/java/com/example/producer/service/KafkaProducerService.java:64-73 | `"hello"` (length 5) goes to the comments topic |
| KafkaProducer.RouteEvenComment | spring-producer/src/main/java/com/example/producer/service/KafkaProducerService.java:59-63 | `"hi"` (length 2) goes to the analytics topic |
| KafkaProducer.RouteBlankComment | spring-producer/src/main/java/com/example/producer/service/KafkaProducerService.java:74-76 | a whitespace-only comment sends nothing |
| KafkaProducer.RouteAstralComment | spring-producer/src/main/java/com/example/producer/service/KafkaProducerService.java:54 | one emoji outside the BMP counts as length 2 and goes to the analytics topic |
| YouTubeFetch.FetchChannelData | spring-producer/src/main/java/com/example/producer/service/YouTubeService.java:165-199 | one conditional channel call; a non-empty answer is returned and cached with the response etag; an empty one is "Channel not found"; 304 with a cached entry returns the cached channel; any other error is a fetch failure; repository, outbox and video cache untouched |
| YouTubeFetch.ChannelFetchThenNotModified | spring-producer/src/main/java/com/example/producer/service/YouTubeService.java:165-199 | after a listed channel answer, the next channel call carries that answer's etag, and a 304 to it returns the same channel and changes nothing but the call log |
| YouTubeFetch.AssembleVideo | spring-producer/src/main/java/com/example/producer/service/YouTubeService.java:127-143 | every field of the new record: id, url and comment as given, title and channel from the snippet, the three video counts and the two channel counts with null as zero |
| YouTubeFetch.CommentOutcome | spring-producer/src/main/java/com/example/producer/service/YouTubeService.java:104-125 | a listing gives the first comment or `""` with the count unchanged; 403 gives count 0 and `""`; any other error fails the fetch |
| YouTubeFetch.FetchFresh | spring-producer/src/main/java/com/example/producer/service/YouTubeService.java:100-157 | succeeds exactly when the channel step yields a channel (a non-empty listing, or a 304 while it is cached) and the comment call is listed or answered 403; an empty channel listing is "Channel not found", another channel status or a non-403 comment status is a wrapped I/O failure with that status (`FreshVerdict`); on failure repository, outbox and video cache unchanged; on success the record has the id, url, a comment and every count set, is cached with the response etag, upserted, and routed exactly once; its title, channel, view/like/comment counts and comment text come from the video item and the comment answer, and its subscriber and video counts from the listed channel, or from the cached channel after a 304 (`FreshRecord`); no other video's cache entry changes; the calls made are the channel call with the cached channel etag, then the comment call exactly when a channel was obtained (`FreshCalls`); a non-empty channel listing is cached with its etag even when the comment call then fails, no other channel entry changes, and any other channel answer leaves the channel cache alone (`ChannelCacheAfter`) |
| YouTubeFetch.FetchVideoData | spring-producer/src/main/java/com/example/producer/service/YouTubeService.java:63-163 | bad url: "Invalid YouTube URL" and no state change; the first call is the video request with the cached etag; 304 with a cached entry returns the cached record and changes nothing but the call log; other errors fail; an empty list is "Video not found"; a non-empty list succeeds or fails by `FreshVerdict` (channel available and comments listed or 403); a fresh success caches, saves and routes the new record, built field by field from the first listed item, the channel answer (or the cached channel on a 304) and the comment answer; no other video's cache entry changes; the whole call log is pinned: the video call alone unless the list is non-empty, otherwise the video call followed by `FreshCalls`, with the channel cache as `ChannelCacheAfter` says |
| YouTubeFetch.CommentFailureKeepsChannel | spring-producer/src/main/java/com/example/producer/service/YouTubeService.java:100-125 | a listed channel followed by a comment error other than 403 fails the fetch with that status, yet the channel stays cached with the listing's etag; video cache, repository and outbox untouched |
| YouTubeFetch.FetchPreservesInvariant | spring-producer/src/main/java/com/example/producer/service/YouTubeService.java:127-151 | every cached record has its own id, a comment and all counts, and every saved row is stored under its own id, before and after any fetch |
| YouTubeFetch.FetchThenNotModified | spring-producer/src/main/java/com/example/producer/service/YouTubeService.java:67-98 | a second fetch answered 304 returns the first fetch's result and only adds the conditional call with the first response's etag: no re-save, no re-route |
| YouTubeFetch.FetchOnlyAppends | spring-producer/src/main/java/com/example/producer/service/YouTubeService.java:145-157 | a fetch never removes a saved row and only ever appends the routing of the returned record to the outbox |
| VideoUpdate.StatsChangedSpec | spring-producer/src/main/java/com/example/producer/service/VideoUpdateScheduler.java:81-85 | false exactly when every compared old count is non-null and equal; a null pointer exactly when the first null old count comes before any difference |
| VideoUpdate.HasSignificantChanges | spring-producer/src/main/java/com/example/producer/service/VideoUpdateScheduler.java:69-98 | true whenever either comment is non-null; otherwise false exactly when all five old counts are non-null and equal to the new ones; and it throws a null pointer exception exactly when a null old count is reached before any count differs |
| VideoUpdate.StatsWithoutNulls | spring-producer/src/main/java/com/example/producer/service/VideoUpdateScheduler.java:80-97 | with no comments and no null old counts, the answer is whether some count differs |
| VideoUpdate.UpdateOne | spring-producer/src/main/java/com/example/producer/service/VideoUpdateScheduler.java:44-64 | null url: null pointer, no state change; a failed fetch is reported with the fetch's state; otherwise the record is routed again exactly when the change test says true, nothing is sent when it says false, and a throwing change test is a null pointer result |
| VideoUpdate.UpdateVideoData | spring-producer/src/main/java/com/example/producer/service/VideoUpdateScheduler.java:35-67 | rows are updated in order, row i by `UpdateOne` from the state row i - 1 left, and its outcome, exception or not, is its result before the next row starts; a row without a url fails alone; rows are never removed, and the outbox only grows by routed (never delete) messages; an empty table does nothing |
| VideoRepository.ListingCoversRepository | spring-producer/src/main/java/com/example/producer/service/VideoUpdateScheduler.java:37 | a `findAll` listing (as many rows as stored ids, each a stored record, no id twice) names every stored id |
| VideoUpdate.PassCoversRepository | spring-producer/src/main/java/com/example/producer/service/VideoUpdateScheduler.java:37-44 | over the rows `findAll` returns, a pass has one result per stored video, visits exactly the stored ids, updates each from its own stored row, and does nothing on an empty repository |
| VideoUpdate.UpdateOneOutcome | spring-producer/src/main/java/com/example/producer/service/VideoUpdateScheduler.java:44-64 | from a well-formed state, one row throws a null pointer exactly when its url is null, succeeds exactly when its fetch does and is then always sent again, and leaves a well-formed state |
| VideoUpdate.PassIsolation | spring-producer/src/main/java/com/example/producer/service/VideoUpdateScheduler.java:44-64 | from a well-formed state, every row's result depends only on its own url and its own fetch: a null pointer exactly for a null url, success exactly when that row's fetch succeeds, whatever the earlier rows did |
| VideoUpdate.UpdateOneGrows | spring-producer/src/main/java/com/example/producer/service/VideoUpdateScheduler.java:44-64 | one row's update never removes a saved row and only appends routed messages |
| VideoUpdate.RoutingAppendsOnlyRoutes | spring-producer/src/main/java/com/example/producer/service/KafkaProducerService.java:40-77 | routing a record only appends non-delete messages |
| VideoUpdate.UpdateAlwaysResends | spring-producer/src/main/java/com/example/producer/service/VideoUpdateScheduler.java:44-78 | every successful re-fetch is forwarded; after a fresh fetch the record is routed twice, after a 304 once |
| VideoUpdate.UpdatePreservesInvariant | spring-producer/src/main/java/com/example/producer/service/VideoUpdateScheduler.java:35-67 | a whole scheduled pass keeps the cache and repository well formed |
| Controller.NormalizeQuery | spring-producer/src/main/java/com/example/producer/controller/YoutubeController.java:30-37 | a query containing `youtube.com/` or `youtu.be/` is used verbatim; anything else becomes a watch link, which itself passes that test |
| Controller.WatchLinkLooksLikeUrl | spring-producer/src/main/java/com/example/producer/controller/YoutubeController.java:35 | every constructed watch link contains `youtube.com/` |
| Controller.BareIdRoundTrip | spring-producer/src/main/java/com/example/producer/controller/YoutubeController.java:34-36 | a bare id without delimiters is extracted back unchanged from the link built for it |
| Controller.SearchVideo | spring-producer/src/main/java/com/example/producer/controller/YoutubeController.java:27-46 | 200 with the record exactly when the fetch succeeds; 400 with "Invalid YouTube URL or video ID: " + message for an illegal-argument failure; 500 with "Error processing video request: " + message otherwise; state is the fetch's |
| Controller.SearchByIdIsSearchByWatchLink | spring-producer/src/main/java/com/example/producer/controller/YoutubeController.java:30-37 | searching a bare id is the same request as searching its watch link |
| Controller.SearchStatusMeaning | spring-producer/src/main/java/com/example/producer/controller/YoutubeController.java:38-45 | status is 200, 400 or 500; 400 exactly for invalid url / not found, 500 exactly for transport failures; a non-200 never saves or routes |
| Controller.SearchListedVideoStatus | spring-producer/src/main/java/com/example/producer/controller/YoutubeController.java:27-46 | once the video is listed, the search answers 200 exactly when the channel is available and the comments are listed or disabled; a missing channel is a 400, any other channel or comment error a 500 |
| Controller.DeleteVideo | spring-producer/src/main/java/com/example/producer/controller/YoutubeController.java:54-61 | 404 and nothing changes for an unknown id; otherwise 200 and only that row is removed; no message is sent and the cache is untouched |
| Analytics.Rate | spring-consumer/src/main/java/com/example/consumer/service/KafkaConsumerService.java:93-97 | non-negative; zero when views are null or zero |
| Analytics.AverageRate | spring-consumer/src/main/java/com/example/consumer/service/KafkaConsumerService.java:121-122 | zero when total views are zero |
| Analytics.UpdateHolder | spring-consumer/src/main/java/com/example/consumer/service/KafkaConsumerService.java:100-112 | throws exactly when the leader's count is null and the candidate's is not; otherwise keeps the leader or takes the candidate; with no leader yet the candidate leads, and a candidate whose count is null never displaces a leader |
| Analytics.UpdateHolders | spring-consumer/src/main/java/com/example/consumer/service/KafkaConsumerService.java:99-114 | fails exactly when some metric's update throws; untouched metrics keep their leader, the others take their update |
| Analytics.GetAnalytics | spring-consumer/src/main/java/com/example/consumer/service/KafkaConsumerService.java:64-141 | empty map exactly for no records; otherwise the video total is the record count |
| Analytics.ScanTotals | spring-consumer/src/main/java/com/example/consumer/service/KafkaConsumerService.java:87-91 | running totals are the sums of views, likes and comments with nulls as zero |
| Analytics.ScanHolders | spring-consumer/src/main/java/com/example/consumer/service/KafkaConsumerService.java:99-114 | the pass fails exactly when the first record has a null count that some later record has non-null; otherwise every leader is the first record with the greatest non-null count (the first record when all are null) |
| Analytics.ScanEngagement | spring-consumer/src/main/java/com/example/consumer/service/KafkaConsumerService.java:93-118 | no engagement leader exactly when every rate is zero; otherwise the leader is the first record of greatest rate and the maximum is its rate |
| Analytics.GetAnalyticsCorrect | spring-consumer/src/main/java/com/example/consumer/service/KafkaConsumerService.java:64-141 | the whole snapshot against the reference definitions: failure condition, three sums, average rate, first-maximum leaders, engagement leader |
| Analytics.IsFirstMaxUnique | spring-consumer/src/main/java/com/example/consumer/service/KafkaConsumerService.java:100-112 | a metric has at most one first-maximum position, so the leader is determined |
| Analytics.TieKeepsFirst | spring-consumer/src/main/java/com/example/consumer/service/KafkaConsumerService.java:100-101 | on equal counts the earlier record stays the leader |
| Analytics.TwoRecordScenario | spring-consumer/src/main/java/com/example/consumer/service/KafkaConsumerService.java:64-141 | records (100, 10, 5) and (50, 20, 1): totals 150/30/6, average 24%, views leader the first, likes and engagement leader the second |
| LiveSet.Consume | spring-consumer/src/main/java/com/example/consumer/service/KafkaConsumerService.java:19-39 | a null record or id changes nothing; otherwise the id maps to the record and every other entry stays |
| LiveSet.HandleDeleteNotification | spring-consumer/src/main/java/com/example/consumer/service/KafkaConsumerService.java:41-57 | a null record or id changes nothing; otherwise only that id is removed |
| LiveSet.ListenersKeepWellKeyed | spring-consumer/src/main/java/com/example/consumer/service/KafkaConsumerService.java:19-57 | both listeners keep every record stored under its own id |
| LiveSet.ConsumeIdempotent | spring-consumer/src/main/java/com/example/consumer/service/KafkaConsumerService.java:30 | redelivering a record changes nothing |
| LiveSet.EvictAfterConsume | spring-consumer/src/main/java/com/example/consumer/service/KafkaConsumerService.java:30-52 | consuming then evicting the same id is the same as evicting it |
| LiveSet.EvictAbsent | spring-consumer/src/main/java/com/example/consumer/service/KafkaConsumerService.java:52 | evicting an unknown id changes nothing |
| LiveSet.GetAllVideos | spring-consumer/src/main/java/com/example/consumer/service/KafkaConsumerService.java:60-62 | one row per entry, every row a stored record and every stored record a row; in a map that stores each record under its own id, no record is listed twice |
| LiveSet.DeleteNotificationEvicts | spring-consumer/src/main/java/com/example/consumer/service/KafkaConsumerService.java:41-57 | the producer's delete notification for an id, delivered to the delete listener, evicts exactly that id; a blank id sends nothing |
| LiveSet.ComputeAnalytics | spring-consumer/src/main/java/com/example/consumer/service/KafkaConsumerService.java:64-70 | empty snapshot exactly for an empty map; otherwise the count is the map size and every leader is a live record |
| LiveSet.HoldersAreRows | spring-consumer/src/main/java/com/example/consumer/service/KafkaConsumerService.java:99-118 | every reported leader is one of the input records |
| LiveSet.EvictedNeverReported | spring-consumer/src/main/java/com/example/consumer/service/KafkaConsumerService.java:41-118 | after an eviction, no leader of the snapshot has the evicted id |
| TelegramNotifier.Consume | telegram-bot/src/main/java/com/example/telegrambot/service/KafkaConsumerService.java:20-60 | at most one message; one exactly when the record is non-null and its comment non-null and not blank after trim, and then it is the composed message |
| TelegramNotifier.MessageLayout | telegram-bot/src/main/java/com/example/telegrambot/service/KafkaConsumerService.java:28-49 | read back line by line, the message is the twelve template lines in order (title, channel, comment, views, likes, comments, url in place, nulls as "null"), then the empty tail after the final line break |
| TelegramNotifier.LinesOfJoin | telegram-bot/src/main/java/com/example/telegrambot/service/KafkaConsumerService.java:28-41 | splitting single lines joined with terminating line breaks gives the lines back plus an empty tail |
| TelegramNotifier.CommentsTopicAlwaysNotifies | telegram-bot/src/main/java/com/example/telegrambot/service/KafkaConsumerService.java:24-25 | every record the producer routes to the comments topic produces exactly its message, so the bot's own blank check never drops one |
| AnalyticsRecord.FromVideo | spring-producer/src/main/java/com/example/producer/model/YoutubeVideoAnalytics.java:34-47 | no id yet; comment, like and view counts copied or zero when null; subscriber and video counts kept, null included; video id, title, channel name, url and comment copied |
| AnalyticsRecord.RowRoundTrip | spring-producer/src/main/java/com/example/producer/model/YoutubeVideoAnalytics.java:34-47 | through `ToVideo`, a reference inverse with no counterpart in the source: reading the row back gives the record with only the channel id dropped and the three counts defaulted; the record itself when those were already set |
| AnalyticsRecord.FromVideoIdempotent | spring-producer/src/main/java/com/example/producer/model/YoutubeVideoAnalytics.java:38-41 | the zero defaults apply once: rebuilding a row from its read-back through the reference inverse `ToVideo` gives the same row |

## Left out

- **Not modelled at all:**
  - timestamps (`publishedAt`, `fetchedAt`, `receivedAt`, `lastUpdated`, the cache entry timestamp), because they are clock reads that no decision depends on;
  - logging.
- **`Instant.parse` of `publishedAt`** is assumed to succeed.
- **Kafka sends** are modelled as appending to an outbox, and every send succeeds:
  - the asynchronous futures and their completion callbacks are not modelled; a failure that completes a future is only logged;
  - an exception thrown by `kafkaTemplate.send` itself is not modelled. Only the comments-topic path catches it (`KafkaProducerService.java:68-72`, `:125-143`). On the analytics-topic path (`:107-109`) and in `sendDeleteNotification` (`:91-92`) it would escape: out of `fetchVideoData` after the save, and out of that row of a scheduled pass.
- **Telegram `sendMessage` failures** are not modelled (`YouTubeTelegramBot` is not part of this model). `TelegramNotifier.Consume` lists the messages handed to the bot.
- **Concurrency** is not modelled: the concurrent maps and concurrent listeners. Each operation is one atomic step on an explicit state.
- **`@Scheduled` timing** is not modelled. `VideoUpdate.UpdateVideoData` is one pass.
- **Row order:**
  - `findAll` order and `HashMap` iteration order are inputs: the rows passed to a pass, and the order chosen by `LiveSet.GetAllVideos`. What `findAll` returns is pinned down by `VideoRepository.IsListing`, and `VideoUpdate.PassCoversRepository` states the pass under it.
  - `VideoUpdate.UpdateVideoData` assumes one API answer per row.
- Controller.DeleteVideo: the repository calls are assumed not to throw, because the repository is an in-memory map here. So the catch of `deleteVideo` (`YoutubeController.java:62-65`), which answers 500 with "Error deleting video: " and the exception's message, is not modelled.
- **Integer widths** are not modelled, because counts are `nat`:
  - `BigInteger.longValue` truncation;
  - `long` overflow of the running totals.
- **`double` arithmetic** is replaced by exact rationals (`real`). `String.format("%.2f%%")` of the average is left out; the snapshot holds the rate itself.
- **The YouTube client** becomes a fixed `Answers` value per fetch, as follows:
  - its `IOException`s other than HTTP status errors are status codes in `ListAnswer.HttpError`;
  - API keys, part names and `maxResults`/`order` are not modelled.
- **Records with null fields:**
  - API records are assumed to have a non-null snippet, statistics and channel id;
  - a null `channelId` or null `statistics` (NPE paths) is not modelled.
- **Other code not in this model:**
  - `YoutubeConfig`;
  - `AnalyticsController`, which only wraps `getAnalytics` and `getAllVideos` in HTTP responses;
  - the unused `stringsEqual` helper;
  - `YoutubeController.getAllVideos`, which returns `findAll` unchanged.
- **The consumer's `consume`** rethrows exceptions from `put`. With non-null key and value that call cannot throw, so no failure path is modelled.
- Analytics.Rate: does not state the exact rate formula `(likes + comments) * 100 / views` as a contract, only its sign and the zero-views case, to keep nonlinear real arithmetic out of client proofs; `Analytics.TwoRecordScenario` pins concrete values.
- Analytics.AverageRate: states only the zero-views case, for the same reason.
- VideoRepository.Save: requires a non-null id. Every caller passes a record built from an extracted id, and a null-id save is a persistence error that is not modelled.
