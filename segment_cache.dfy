/** The time-bounded cache of SponsorBlock segments: `is_cache_expired` and
    `get_sponsorblock_segments` of sb_chromecast.py.

    The cache maps a free-text key ("artist title") to the segment list
    fetched for it, the video id the search resolved it to, and the time the
    entry was written. Time is a whole number of seconds. The two
    collaborators a miss consults, the YouTube search and the HTTP GET to the
    SponsorBlock API, are supplied as inputs (`resolved`, `response`); which of
    them a lookup actually calls is part of its result (`calls`). */
module SegmentCache {
  import opened Wrappers

  /** CACHE_EXPIRATION_HOURS: how long an entry stays fresh. */
  const CacheExpirationHours: int := 2

  /** The same window in seconds, the unit of the model's clock. */
  const ExpirationSeconds: int := CacheExpirationHours * 60 * 60

  /** One record of the SponsorBlock answer: its category and its
      `segment: [start, end]` pair, in seconds of playback. */
  datatype Segment = Segment(category: string, start: real, end: real)

  /** A cached lookup: the list as the API returned it, the resolved
      video id (possibly None or empty) and the time it was stored. */
  datatype Entry = Entry(segments: seq<Segment>, videoId: Option<string>, timestamp: int)

  /** What the GET to the SponsorBlock API answered: a status code and the
      decoded JSON list (only read when the status is 200). */
  datatype Response = Response(status: int, body: seq<Segment>)

  /** A call into a collaborator: the YouTube search for a query, or the
      SponsorBlock request for a video id. */
  datatype Call = Search(query: string) | Fetch(videoId: string)

  /** What one lookup returns, together with the cache it leaves behind and
      the collaborator calls it made, in order. */
  datatype LookupResult = LookupResult(
    segments: seq<Segment>,
    videoId: Option<string>,
    entries: map<string, Entry>,
    calls: seq<Call>)

  /** An entry written at `timestamp` is stale at `now` once the window has
      strictly passed (lines 42-44). */
  predicate IsCacheExpired(timestamp: int, now: int)
  {
    now > timestamp + ExpirationSeconds
  }

  /** Expiry happens exactly when more than 7200 seconds have passed; at
      exactly two hours the entry is still fresh, one second later it is not. */
  lemma ExpiredExactly(timestamp: int, now: int)
    ensures IsCacheExpired(timestamp, now) <==> now - timestamp > 7200
    ensures !IsCacheExpired(timestamp, timestamp + 7200)
    ensures IsCacheExpired(timestamp, timestamp + 7201)
  {
  }

  /** Once stale, an entry stays stale as the clock moves on. */
  lemma ExpiryIsPermanent(timestamp: int, now: int, later: int)
    requires now <= later && IsCacheExpired(timestamp, now)
    ensures IsCacheExpired(timestamp, later)
  {
  }

  /** The categories the monitor acts on (line 74). */
  predicate IsRelevant(s: Segment)
  {
    s.category == "sponsor" || s.category == "selfpromo"
  }

  /** The list comprehension of line 74: keep the relevant segments, in order. */
  function FilterRelevant(segments: seq<Segment>): (r: seq<Segment>)
    ensures |r| <= |segments|
    ensures forall s :: s in r <==> s in segments && IsRelevant(s)
  {
    if segments == [] then []
    else if IsRelevant(segments[0]) then [segments[0]] + FilterRelevant(segments[1..])
    else FilterRelevant(segments[1..])
  }

  /** Filtering works piecewise, so the relative order of the kept segments
      is that of the input. */
  lemma {:induction false} FilterConcat(a: seq<Segment>, b: seq<Segment>)
    ensures FilterRelevant(a + b) == FilterRelevant(a) + FilterRelevant(b)
  {
    if a == [] {
      assert a + b == b;
    } else {
      assert (a + b)[1..] == a[1..] + b;
      FilterConcat(a[1..], b);
    }
  }

  /** A list is left as it is by the filter exactly when every segment in it
      is relevant. */
  lemma {:induction false} FilterKeepsAllRelevant(segments: seq<Segment>)
    ensures FilterRelevant(segments) == segments <==> forall s :: s in segments ==> IsRelevant(s)
  {
    if segments != [] {
      FilterKeepsAllRelevant(segments[1..]);
      if !IsRelevant(segments[0]) {
        assert |FilterRelevant(segments)| < |segments|;
      }
    }
  }

  /** Filtering twice is filtering once. */
  lemma FilterIdempotent(segments: seq<Segment>)
    ensures FilterRelevant(FilterRelevant(segments)) == FilterRelevant(segments)
  {
    FilterKeepsAllRelevant(FilterRelevant(segments));
  }

  /** The list a miss writes to the cache (lines 55-66): nothing without a
      video id, nothing on a status other than 200, else the whole answer. */
  function RawSegments(videoId: Option<string>, response: Response): seq<Segment>
  {
    if !Truthy(videoId) then []
    else if response.status != 200 then []
    else response.body
  }

  /** The collaborator calls a miss makes: always the search, and the
      SponsorBlock request only for a truthy video id (lines 54-60). */
  function MissCalls(key: string, videoId: Option<string>): seq<Call>
  {
    [Search(key)] + (if Truthy(videoId) then [Fetch(videoId.value)] else [])
  }

  /** The condition of line 49: the key is cached and its entry is fresh. */
  predicate IsHit(entries: map<string, Entry>, key: string, now: int)
  {
    key in entries && !IsCacheExpired(entries[key].timestamp, now)
  }

  /** `get_sponsorblock_segments(key)` at time `now`, on the cache `entries`,
      with the search answering `resolved` and the API answering `response`. */
  function Lookup(entries: map<string, Entry>, key: string, now: int,
                  resolved: Option<string>, response: Response): LookupResult
  {
    if IsHit(entries, key, now) then
      LookupResult(entries[key].segments, entries[key].videoId, entries, [])
    else
      var raw := RawSegments(resolved, response);
      LookupResult(FilterRelevant(raw), resolved,
                   entries[key := Entry(raw, resolved, now)], MissCalls(key, resolved))
  }

  /** On a hit the stored list and id come back as they are, the cache is
      untouched and no collaborator is called. */
  lemma HitReturnsStored(entries: map<string, Entry>, key: string, now: int,
                         resolved: Option<string>, response: Response)
    requires key in entries && !IsCacheExpired(entries[key].timestamp, now)
    ensures var r := Lookup(entries, key, now, resolved, response);
      && r.segments == entries[key].segments
      && r.videoId == entries[key].videoId
      && r.entries == entries
      && r.calls == []
  {
  }

  /** On a hit nothing the collaborators would answer matters. */
  lemma HitIgnoresCollaborators(entries: map<string, Entry>, key: string, now: int,
                                resolved: Option<string>, response: Response,
                                resolved': Option<string>, response': Response)
    requires IsHit(entries, key, now)
    ensures Lookup(entries, key, now, resolved, response) == Lookup(entries, key, now, resolved', response')
  {
  }

  /** On a miss (absent or stale key) the search is called, the key is
      (over)written with the raw list, the resolved id and `now`, and every
      other key keeps its entry. */
  lemma MissStoresRaw(entries: map<string, Entry>, key: string, now: int,
                      resolved: Option<string>, response: Response)
    requires key !in entries || IsCacheExpired(entries[key].timestamp, now)
    ensures var r := Lookup(entries, key, now, resolved, response);
      && r.entries.Keys == entries.Keys + {key}
      && r.entries[key] == Entry(RawSegments(resolved, response), resolved, now)
      && (forall k :: k in entries && k != key ==> r.entries[k] == entries[k])
      && r.videoId == resolved
      && |r.calls| >= 1 && r.calls[0] == Search(key)
  {
  }

  /** A miss whose search finds no id (None or "") fetches nothing, returns
      nothing and caches that falsy id with an empty list. */
  lemma MissWithoutVideoId(entries: map<string, Entry>, key: string, now: int,
                           resolved: Option<string>, response: Response)
    requires !IsHit(entries, key, now) && !Truthy(resolved)
    ensures var r := Lookup(entries, key, now, resolved, response);
      && r.segments == []
      && r.calls == [Search(key)]
      && r.entries[key] == Entry([], resolved, now)
  {
  }

  /** A miss whose API request does not answer 200 returns nothing and caches
      an empty list under the resolved id. */
  lemma MissWithFailedFetch(entries: map<string, Entry>, key: string, now: int,
                            resolved: Option<string>, response: Response)
    requires !IsHit(entries, key, now) && Truthy(resolved) && response.status != 200
    ensures var r := Lookup(entries, key, now, resolved, response);
      && r.segments == []
      && r.calls == [Search(key), Fetch(resolved.value)]
      && r.entries[key] == Entry([], resolved, now)
  {
  }

  /** A miss returns exactly the stored list filtered to the relevant
      categories, and on a 200 answer that is the answer filtered. */
  lemma MissReturnsRelevant(entries: map<string, Entry>, key: string, now: int,
                            resolved: Option<string>, response: Response)
    requires !IsHit(entries, key, now)
    ensures var r := Lookup(entries, key, now, resolved, response);
      && r.segments == FilterRelevant(r.entries[key].segments)
      && (forall s :: s in r.segments ==> IsRelevant(s))
      && (Truthy(resolved) && response.status == 200 ==>
            r.segments == FilterRelevant(response.body) && r.calls == [Search(key), Fetch(resolved.value)])
  {
  }

  /** What a miss stores is served for two hours: a later lookup of the same
      key up to `now + 7200` is a hit returning the raw list and the same id;
      one after that is a miss again. */
  lemma StoredEntryLifetime(entries: map<string, Entry>, key: string, now: int, later: int,
                            resolved: Option<string>, response: Response,
                            resolved': Option<string>, response': Response)
    requires !IsHit(entries, key, now) && now <= later
    ensures var first := Lookup(entries, key, now, resolved, response);
      var second := Lookup(first.entries, key, later, resolved', response');
      && (later <= now + 7200 ==>
            second.segments == RawSegments(resolved, response) && second.videoId == resolved
            && second.calls == [] && second.entries == first.entries)
      && (later > now + 7200 ==> second.calls == MissCalls(key, resolved'))
  {
    var first := Lookup(entries, key, now, resolved, response);
    assert first.entries[key].timestamp == now;
  }

  /** The hit path does not filter (line 51 against line 74): an answer holding
      only an "intro" segment gives nothing on the miss that fetched it and the
      intro segment on the next lookup. */
  lemma HitAfterMissIsUnfiltered()
    ensures var intro := Segment("intro", 0.0, 5.0);
      var first := Lookup(map[], "a b", 0, Some("x"), Response(200, [intro]));
      var second := Lookup(first.entries, "a b", 60, None, Response(404, []));
      first.segments == [] && second.segments == [intro]
  {
    var intro := Segment("intro", 0.0, 5.0);
    assert !IsRelevant(intro);
  }

  /** The cache as the program holds it. The source re-reads the JSON file at
      every lookup (line 47) and saves it after every miss (line 73), so the
      file always holds the last map written; here that map is a field. */
  class Cache {
    var entries: map<string, Entry>

    /** `load_cache`: the saved map if there is one, else an empty cache
        (lines 28-35). */
    constructor Load(saved: Option<map<string, Entry>>)
      ensures entries == (if saved.Some? then saved.value else map[])
    {
      if saved.Some? {
        entries := saved.value;
      } else {
        entries := map[];
      }
    }

    /** `get_sponsorblock_segments(key)` (lines 46-75): returns the segments
        and video id, and the collaborator calls made in order. */
    method GetSponsorBlockSegments(key: string, now: int, resolved: Option<string>, response: Response)
      returns (segments: seq<Segment>, videoId: Option<string>, calls: seq<Call>)
      modifies this
      ensures var r := Lookup(old(entries), key, now, resolved, response);
        && segments == r.segments
        && videoId == r.videoId
        && calls == r.calls
        && entries == r.entries
    {
      if key in entries && !IsCacheExpired(entries[key].timestamp, now) {
        segments, videoId, calls := entries[key].segments, entries[key].videoId, [];
        return;
      }
      calls := [Search(key)];
      videoId := resolved;
      var raw: seq<Segment>;
      if !Truthy(videoId) {
        raw := [];
      } else {
        calls := calls + [Fetch(videoId.value)];
        if response.status != 200 {
          raw := [];
        } else {
          raw := response.body;
        }
      }
      entries := entries[key := Entry(raw, videoId, now)];
      segments := FilterRelevant(raw);
    }
  }
}
