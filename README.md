# SponsorBlock skipping for a Chromecast, modelled in Dafny

`sb_chromecast.py` watches a Chromecast. When YouTube plays an item with a
title and an artist, it looks up the SponsorBlock segments for the key
`"artist title"` and seeks past every segment that contains the current
position and that it has not skipped before. Lookups go through a cache
that keeps entries for two hours. The cache is a JSON file keyed by that
string.

The model covers the two pieces of logic in that file:

- `segment_cache.dfy`, module `SegmentCache`, covers `is_cache_expired` and
  `get_sponsorblock_segments`.
  - `Lookup` is the lookup as a function of the cache, the key, the clock and
    what the two collaborators would answer.
  - `Cache` is a class whose `entries` field stands for the JSON file. Its
    method `GetSponsorBlockSegments` updates the field in place and is proved
    equal to `Lookup`.
  - A lookup records the collaborator calls it makes (`Search(key)`,
    `Fetch(id)`). This makes "no resolve or fetch happens" something a
    contract can state.
- `monitor.dfy`, module `Monitor`, covers the body of the polling loop of
  `monitor_chromecast`.
  - `Scan` is the `for` loop over the segments. It is proved against the
    specification function `ScanFrom`.
  - `Tick` is one poll: the three guards, the cache key, the cache lookup and
    the scan. It is proved against `TickSpec`.
  - `MonitorChromecast` runs a finite list of polls with one
    `played_segments` set that is created before the loop and never cleared.
    It is proved against `RunSpec`.
- `wrappers.dfy` holds `Option` and `Truthy`. `Truthy` is the test that an
  `if` on a possibly-`None` string performs.

Inputs and units:

- Time is a whole number of seconds.
- Playback positions are `real`. The source only compares them.
- The video id is an `Option<string>`. Both `None` and `""` are falsy.
- The cache is a `map<string, Entry>`.

Where the code and the intended design differ, the model follows the code:

- The cache stores the raw answer of the SponsorBlock API (lines 66-72),
  not a pre-filtered list.
- Only a miss filters to `sponsor`/`selfpromo` (line 74). A hit returns the
  stored list as it is (line 51). `HitAfterMissIsUnfiltered` shows a case
  where the two results differ.
- `played_segments` is never reset when the video changes (line 101). A
  start offset skipped in one video is never skipped again in another.
  `ScenarioSecondVideoSameStart` shows this.
- The cache key `artist + " " + title` is not injective
  (`CacheKeyCollides`).

## Model

| member | source | states |
|---|---|---|
| SegmentCache.ExpiredExactly | sb_chromecast.py:42-44 | an entry is expired exactly when more than 7200 s have passed since its timestamp; at exactly two hours it is still fresh, one second later it is stale |
| SegmentCache.ExpiryIsPermanent | sb_chromecast.py:42-44 | an expired entry stays expired at every later time |
| SegmentCache.FilterRelevant | sb_chromecast.py:74 | the filtered list is no longer than the input, and a segment is in it exactly when it is in the input and its category is `sponsor` or `selfpromo` |
| SegmentCache.FilterConcat | sb_chromecast.py:74 | filtering a concatenation is the concatenation of the filtered parts, so the order of the kept segments is kept |
| SegmentCache.FilterKeepsAllRelevant | sb_chromecast.py:74 | the filter leaves a list unchanged exactly when every segment in it is relevant |
| SegmentCache.FilterIdempotent | sb_chromecast.py:74 | filtering twice gives the same list as filtering once |
| SegmentCache.HitReturnsStored | sb_chromecast.py:49-51 | on a present, fresh key: the stored segments and video id are returned unchanged, the cache is unchanged, and no collaborator is called |
| SegmentCache.HitIgnoresCollaborators | sb_chromecast.py:49-51 | on a hit, the result does not depend on what the search or the API would answer |
| SegmentCache.MissStoresRaw | sb_chromecast.py:53-73 | on an absent or stale key: the search is called first; the key then holds the raw list, the resolved id and `now`; every other key keeps its entry; no key is removed; the resolved id is returned |
| SegmentCache.MissWithoutVideoId | sb_chromecast.py:54-58 | on a miss where the search gives `None` or `""`: no fetch is made, nothing is returned, and the falsy id is cached with an empty list |
| SegmentCache.MissWithFailedFetch | sb_chromecast.py:59-64 | on a miss where the status is not 200: search then fetch are called, nothing is returned, and an empty list is cached under the id |
| SegmentCache.MissReturnsRelevant | sb_chromecast.py:65-75 | on a miss, the result is exactly the stored list filtered, every returned segment is `sponsor` or `selfpromo`, and on a 200 answer it is that answer filtered |
| SegmentCache.StoredEntryLifetime | sb_chromecast.py:46-73 | after a miss at `now`, a lookup of the same key up to `now + 7200` is a hit that serves the raw list and the id without calls; a later lookup is a miss again |
| SegmentCache.HitAfterMissIsUnfiltered | sb_chromecast.py:49-75 | a fetched list holding only an `intro` segment gives nothing on the miss and the intro segment on the next lookup |
| SegmentCache.Cache.Load | sb_chromecast.py:28-35 | the cache starts as the saved map, or as empty when no file exists |
| SegmentCache.Cache.GetSponsorBlockSegments | sb_chromecast.py:46-75 | the in-place lookup returns the same segments, id and calls as `Lookup` on the old cache, and leaves the cache that `Lookup` describes |
| Monitor.CacheKeyCollides | sb_chromecast.py:112 | the key `artist + " " + title` can be the same for two different artist/title pairs |
| Monitor.TargetsAreEnds | sb_chromecast.py:121 | there is one seek per skipped segment, to that segment's end, in order |
| Monitor.ScanSkipsFresh | sb_chromecast.py:118-122 | every skipped segment is in the list and contains `t`; skipped starts are pairwise distinct and none was already played; the played set grows by exactly those starts |
| Monitor.ScanPlayedIsCovering | sb_chromecast.py:118-122 | after a scan, the played set is the old set plus the start of every segment that contains `t` |
| Monitor.ScanSeeksOncePerStart | sb_chromecast.py:118-122 | the played set only grows, and the number of seeks equals the number of starts added |
| Monitor.ScanNothingNew | sb_chromecast.py:119 | if every start of a segment containing `t` is already played, the scan seeks nowhere and changes nothing |
| Monitor.ScanAgainIsNoop | sb_chromecast.py:115-122 | re-running a scan with the same `t` and segments on the set it produced issues no seek and adds nothing |
| Monitor.ScanSplit | sb_chromecast.py:118-122 | scanning `a + b` is scanning `a` and then scanning `b` from the set `a` left |
| Monitor.ScanDecidesInOrder | sb_chromecast.py:118-122 | the segment at index `i` is skipped exactly when `start <= t <= end` and its start is not in the set left by the segments before it; it then adds its start; otherwise nothing changes |
| Monitor.Scan | sb_chromecast.py:118-122 | the loop issues the seeks `ScanFrom` describes, in order, and leaves the played set it describes |
| Monitor.TickIdle | sb_chromecast.py:107-111 | if the player is not `PLAYING`, the app is not `YouTube`, or the title or artist is empty: no seek, no call, played set and cache unchanged |
| Monitor.TickLooksUpArtistTitle | sb_chromecast.py:111-119 | otherwise the poll looks up `artist + " " + title`; with a falsy id there is no seek and the played set is unchanged; with a truthy one it scans the returned segments at the current position |
| Monitor.TickCachedWithoutId | sb_chromecast.py:113-114 | a fresh cached entry with a falsy id gives no call, no seek and no change |
| Monitor.TickSkipsOnce | sb_chromecast.py:113-122 | what a poll skips contains the current position and was not played before; skipped starts are distinct and added to the set, one per seek |
| Monitor.Tick | sb_chromecast.py:106-122 | one poll issues the seeks, leaves the played set, makes the calls and leaves the cache that `TickSpec` describes |
| Monitor.RunSkipsEachStartOnce | sb_chromecast.py:101-122 | over a whole run of polls, across videos: no start is skipped twice, none already played is skipped, and there is one seek per start added |
| Monitor.MonitorChromecast | sb_chromecast.py:97-126 | running the polls in order with one played set, created empty once, issues the seeks and leaves the cache that `RunSpec` describes |
| Monitor.ScenarioKey | sb_chromecast.py:112 | the key for artist "Rick Astley" and title "Never Gonna Give You Up" is "Rick Astley Never Gonna Give You Up" |
| Monitor.ScenarioFirstPoll | sb_chromecast.py:106-122 | at 5.0 s, on an empty cache, with id `dQw4w9WgXcQ` and one sponsor segment [3.0, 10.0]: one seek to 10.0, start 3.0 recorded, the answer cached at `now` |
| Monitor.ScenarioLaterPolls | sb_chromecast.py:49-51 | later polls of the same item within two hours, at 7.0 s or 10.5 s with 3.0 recorded, are served from the cache and issue no seek |
| Monitor.ScenarioServerError | sb_chromecast.py:60-73 | an HTTP 500 answer caches an empty list under the id at `now` and issues no seek |
| Monitor.TwoVideosFirstTick | sb_chromecast.py:106-122 | the first video's poll skips its segment at 3.0 and caches the answer |
| Monitor.TwoVideosSecondTick | sb_chromecast.py:101 | a second video with a segment starting at 3.0, polled after 3.0 was recorded, is not skipped |
| Monitor.ScenarioSecondVideoSameStart | sb_chromecast.py:101-122 | a run of the two videos issues only one seek, to 10.0 |

## Left out

- `get_chromecast`, `cast.wait`, `block_until_active` and `update_status`: device discovery and the control channel. Each poll's status is an input.
- `load_cache` / `save_cache`: JSON file I/O. The file is modelled as the `entries` field, which always holds the last saved map. A corrupt file, which makes `json.load` raise, is not modelled.
- `search_youtube_video_id`: a yt_dlp search. Its answer (an id, `""` or `None`) is an input.
- `requests.get`: the status code and the decoded JSON list are inputs. An exception from the request, or a body that is not JSON, propagates and ends the process in the source (the `try` around the main loop is commented out). The model does not cover this.
- Malformed API records are not modelled. A record without `category` or `segment` raises `KeyError` in the source.
- ISO-8601 timestamps become whole seconds. The source calls `datetime.now()` twice, at lines 44 and 71; the model uses one `now` per call.
- Logging is left out, and so is `remaining_segments` (line 116), which only feeds a log line.
- The infinite `while True` and `time.sleep(1)` become a finite list of polls.
- `sleep_time` is left out. It is assigned but never read.
- Floating-point positions become `real`. NaN and rounding are not modelled.
- `mc.seek` is treated as always issued. Its success is never checked in the source, and a start is recorded either way.
