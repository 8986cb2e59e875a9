/** One poll of `monitor_chromecast` in sb_chromecast.py, and a finite run of
    polls.

    A poll reads the media status, and when YouTube is playing a titled item
    it looks up the segments for "artist title" and seeks past every segment
    that contains the current position and whose start has not been skipped
    before. The set of skipped starts, `played_segments`, is created once
    before the loop (line 101) and never cleared, so it spans every video the
    run sees. Positions are only compared, so `real` stands in for the floats. */
module Monitor {
  import opened Wrappers
  import opened SegmentCache

  /** The fields of the media status a poll reads (lines 107-115). An app
      name of None is any string other than "YouTube" here. */
  datatype Status = Status(
    playerState: string,
    appName: string,
    title: Option<string>,
    artist: Option<string>,
    currentTime: real)

  /** The I/O one poll consumes: the status, the clock, and what the search
      and the SponsorBlock API would answer if asked. */
  datatype PollInput = PollInput(status: Status, now: int, resolved: Option<string>, response: Response)

  /** The segments a scan (or a sequence of them) skipped, in order, and the
      set of skipped starts afterwards. */
  datatype ScanResult = ScanResult(skipped: seq<Segment>, played: set<real>)

  /** What a poll (or a run of them) did: the segments skipped in order, the
      skipped starts afterwards, the cache afterwards and the collaborator
      calls made. */
  datatype TickResult = TickResult(
    skipped: seq<Segment>,
    played: set<real>,
    entries: map<string, Entry>,
    calls: seq<Call>)

  /** The guard of line 107. */
  predicate IsPlayingYouTube(status: Status)
  {
    status.playerState == "PLAYING" && status.appName == "YouTube"
  }

  /** The guard of line 111: both title and artist are truthy. */
  predicate HasMetadata(status: Status)
  {
    Truthy(status.title) && Truthy(status.artist)
  }

  /** The cache key of line 112: artist, a space, title. */
  function CacheKey(artist: string, title: string): string
  {
    artist + " " + title
  }

  /** The key is not injective: different (artist, title) pairs can share a
      key, and then share a cache entry and a search. */
  lemma CacheKeyCollides()
    ensures CacheKey("A B", "C") == CacheKey("A", "B C")
  {
  }

  /** A segment contains the position `t`, bounds included (line 119). */
  predicate Covers(s: Segment, t: real)
  {
    s.start <= t <= s.end
  }

  /** The condition of line 119 against the starts skipped so far. */
  predicate Qualifies(s: Segment, t: real, played: set<real>)
  {
    Covers(s, t) && s.start !in played
  }

  /** The `for` loop of lines 118-122, segment by segment from the front:
      a qualifying segment is skipped and its start is added before the rest
      of the list is examined. */
  function ScanFrom(segments: seq<Segment>, t: real, played: set<real>): ScanResult
    decreases |segments|
  {
    if segments == [] then ScanResult([], played)
    else
      var s := segments[0];
      if Qualifies(s, t, played) then
        var rest := ScanFrom(segments[1..], t, played + {s.start});
        ScanResult([s] + rest.skipped, rest.played)
      else
        ScanFrom(segments[1..], t, played)
  }

  /** The seek targets for a list of skipped segments: their ends, in order. */
  function Targets(skipped: seq<Segment>): seq<real>
  {
    if skipped == [] then [] else [skipped[0].end] + Targets(skipped[1..])
  }

  /** The start offsets of a list of segments. */
  function StartsOf(segments: seq<Segment>): set<real>
  {
    if segments == [] then {} else {segments[0].start} + StartsOf(segments[1..])
  }

  /** No two segments of the list share a start offset. */
  predicate DistinctStarts(segments: seq<Segment>)
  {
    forall i, j :: 0 <= i < j < |segments| ==> segments[i].start != segments[j].start
  }

  /** The starts of the segments of `segments` that contain `t`. */
  function CoveringStarts(segments: seq<Segment>, t: real): set<real>
  {
    set s | s in segments && Covers(s, t) :: s.start
  }

  lemma {:induction false} TargetsConcat(a: seq<Segment>, b: seq<Segment>)
    ensures Targets(a + b) == Targets(a) + Targets(b)
  {
    if a == [] {
      assert a + b == b;
    } else {
      assert (a + b)[1..] == a[1..] + b;
      TargetsConcat(a[1..], b);
    }
  }

  /** One seek per skipped segment, to that segment's end. */
  lemma {:induction false} TargetsAreEnds(skipped: seq<Segment>)
    ensures |Targets(skipped)| == |skipped|
    ensures forall i :: 0 <= i < |skipped| ==> Targets(skipped)[i] == skipped[i].end
  {
    if skipped != [] {
      TargetsAreEnds(skipped[1..]);
    }
  }

  /** A start is in the set exactly when some segment of the list has it. */
  lemma {:induction false} StartsOfMember(segments: seq<Segment>, x: real)
    ensures x in StartsOf(segments) <==> exists s :: s in segments && s.start == x
  {
    if segments != [] {
      StartsOfMember(segments[1..], x);
      assert segments == [segments[0]] + segments[1..];
    }
  }

  lemma {:induction false} StartsOfConcat(a: seq<Segment>, b: seq<Segment>)
    ensures StartsOf(a + b) == StartsOf(a) + StartsOf(b)
  {
    if a == [] {
      assert a + b == b;
    } else {
      assert (a + b)[1..] == a[1..] + b;
      StartsOfConcat(a[1..], b);
    }
  }

  /** A list with distinct starts has as many starts as segments. */
  lemma {:induction false} DistinctStartsCount(segments: seq<Segment>)
    requires DistinctStarts(segments)
    ensures |StartsOf(segments)| == |segments|
  {
    if segments != [] {
      var rest := segments[1..];
      assert DistinctStarts(rest) by {
        forall i, j | 0 <= i < j < |rest| ensures rest[i].start != rest[j].start {
          assert rest[i] == segments[i + 1] && rest[j] == segments[j + 1];
        }
      }
      DistinctStartsCount(rest);
      StartsOfMember(rest, segments[0].start);
      assert segments[0].start !in StartsOf(rest) by {
        forall s | s in rest ensures s.start != segments[0].start {
          var k :| 0 <= k < |rest| && rest[k] == s;
          assert segments[k + 1] == s;
        }
      }
    }
  }

  /** Segments none of whose starts is in `played` contribute starts
      disjoint from it. */
  lemma StartsOutside(segments: seq<Segment>, played: set<real>)
    requires forall s :: s in segments ==> s.start !in played
    ensures StartsOf(segments) !! played
  {
    forall x | x in StartsOf(segments) ensures x !in played {
      StartsOfMember(segments, x);
    }
  }

  /** The skips `skipped` took the set of skipped starts from `before` to
      `after`: their starts are pairwise distinct, none was in `before`, and
      `after` adds exactly those starts. */
  predicate FreshSkips(skipped: seq<Segment>, before: set<real>, after: set<real>)
  {
    && DistinctStarts(skipped)
    && (forall s :: s in skipped ==> s.start !in before)
    && after == before + StartsOf(skipped)
  }

  /** Such skips only grow the set, by one start per seek. */
  lemma FreshSkipsCount(skipped: seq<Segment>, before: set<real>, after: set<real>)
    requires FreshSkips(skipped, before, after)
    ensures before <= after && |Targets(skipped)| == |after - before|
  {
    TargetsAreEnds(skipped);
    DistinctStartsCount(skipped);
    StartsOutside(skipped, before);
    assert after - before == StartsOf(skipped);
  }

  lemma DistinctStartsConcat(a: seq<Segment>, b: seq<Segment>)
    requires DistinctStarts(a) && DistinctStarts(b)
    requires forall s :: s in b ==> s.start !in StartsOf(a)
    ensures DistinctStarts(a + b)
  {
    var c := a + b;
    forall i, j | 0 <= i < j < |c| ensures c[i].start != c[j].start {
      if j >= |a| && i < |a| {
        assert c[j] == b[j - |a|] && c[j] in b;
        assert c[i] == a[i] && c[i] in a;
        StartsOfMember(a, c[i].start);
      } else if i >= |a| {
        assert c[i] == b[i - |a|] && c[j] == b[j - |a|];
      }
    }
  }

  /** Fresh skips compose: one batch after another is a fresh batch. */
  lemma FreshSkipsCompose(a: seq<Segment>, b: seq<Segment>, p0: set<real>, p1: set<real>, p2: set<real>)
    requires FreshSkips(a, p0, p1) && FreshSkips(b, p1, p2)
    ensures FreshSkips(a + b, p0, p2)
  {
    forall u | u in b ensures u.start !in StartsOf(a) {
      assert u.start !in p1;
    }
    DistinctStartsConcat(a, b);
    StartsOfConcat(a, b);
    forall u | u in a + b ensures u.start !in p0 {
      if u !in a {
        assert u in b;
        StartsOfMember(a, u.start);
      }
    }
  }

  /** What a scan skips: segments of the list that contain `t`, with
      pairwise distinct starts, none of which was skipped before; the set of
      skipped starts grows by exactly their starts. */
  lemma {:induction false} ScanSkipsFresh(segments: seq<Segment>, t: real, played: set<real>)
    ensures var r := ScanFrom(segments, t, played);
      && (forall s :: s in r.skipped ==> s in segments && Covers(s, t))
      && FreshSkips(r.skipped, played, r.played)
  {
    if segments != [] {
      var s := segments[0];
      if Qualifies(s, t, played) {
        var rest := ScanFrom(segments[1..], t, played + {s.start});
        ScanSkipsFresh(segments[1..], t, played + {s.start});
        assert [s][1..] == [];
        assert FreshSkips([s], played, played + {s.start});
        FreshSkipsCompose([s], rest.skipped, played, played + {s.start}, rest.played);
      } else {
        ScanSkipsFresh(segments[1..], t, played);
      }
    }
  }

  /** After a scan every start of a segment containing `t` has been skipped,
      and nothing else has been added. */
  lemma {:induction false} ScanPlayedIsCovering(segments: seq<Segment>, t: real, played: set<real>)
    ensures ScanFrom(segments, t, played).played == played + CoveringStarts(segments, t)
  {
    if segments != [] {
      var s := segments[0];
      var tail := segments[1..];
      assert segments == [s] + tail;
      assert CoveringStarts(segments, t) == (if Covers(s, t) then {s.start} else {}) + CoveringStarts(tail, t) by {
        forall x | x in CoveringStarts(segments, t)
          ensures x in (if Covers(s, t) then {s.start} else {}) + CoveringStarts(tail, t)
        {
          var u :| u in segments && Covers(u, t) && u.start == x;
          if u != s {
            assert u in tail;
          }
        }
        forall x | x in CoveringStarts(tail, t) ensures x in CoveringStarts(segments, t) {
          var u :| u in tail && Covers(u, t) && u.start == x;
          assert u in segments;
        }
      }
      if Qualifies(s, t, played) {
        ScanPlayedIsCovering(tail, t, played + {s.start});
      } else {
        ScanPlayedIsCovering(tail, t, played);
      }
    }
  }

  /** Each start offset causes at most one seek: the number of seeks is the
      number of starts the scan added, and the set only grows. */
  lemma ScanSeeksOncePerStart(segments: seq<Segment>, t: real, played: set<real>)
    ensures var r := ScanFrom(segments, t, played);
      played <= r.played && |Targets(r.skipped)| == |r.played - played|
  {
    var r := ScanFrom(segments, t, played);
    ScanSkipsFresh(segments, t, played);
    FreshSkipsCount(r.skipped, played, r.played);
  }

  /** A scan in which every covering start is already skipped does nothing. */
  lemma {:induction false} ScanNothingNew(segments: seq<Segment>, t: real, played: set<real>)
    requires CoveringStarts(segments, t) <= played
    ensures ScanFrom(segments, t, played) == ScanResult([], played)
  {
    if segments != [] {
      var s := segments[0];
      if Covers(s, t) {
        assert s.start in CoveringStarts(segments, t);
      }
      assert CoveringStarts(segments[1..], t) <= CoveringStarts(segments, t) by {
        forall x | x in CoveringStarts(segments[1..], t) ensures x in CoveringStarts(segments, t) {
          var u :| u in segments[1..] && Covers(u, t) && u.start == x;
          assert u in segments;
        }
      }
      ScanNothingNew(segments[1..], t, played);
    }
  }

  /** Scanning the same list at the same position again issues no seek and
      adds nothing. */
  lemma ScanAgainIsNoop(segments: seq<Segment>, t: real, played: set<real>)
    ensures var r := ScanFrom(segments, t, played);
      ScanFrom(segments, t, r.played) == ScanResult([], r.played)
  {
    var r := ScanFrom(segments, t, played);
    ScanPlayedIsCovering(segments, t, played);
    ScanNothingNew(segments, t, r.played);
  }

  /** A scan of a concatenation is the scan of the first part followed by
      the scan of the second part from the starts the first left. */
  lemma {:induction false} ScanSplit(a: seq<Segment>, b: seq<Segment>, t: real, played: set<real>)
    ensures var ra := ScanFrom(a, t, played);
      var rb := ScanFrom(b, t, ra.played);
      ScanFrom(a + b, t, played) == ScanResult(ra.skipped + rb.skipped, rb.played)
  {
    if a == [] {
      assert a + b == b;
    } else {
      assert (a + b)[1..] == a[1..] + b;
      if Qualifies(a[0], t, played) {
        ScanSplit(a[1..], b, t, played + {a[0].start});
      } else {
        ScanSplit(a[1..], b, t, played);
      }
    }
  }

  /** The decision for the segment at index `i`: it is skipped exactly when
      it contains `t` and its start is not among the starts skipped by the
      segments before it (or before the scan). */
  lemma ScanDecidesInOrder(segments: seq<Segment>, t: real, played: set<real>, i: nat)
    requires i < |segments|
    ensures var before := ScanFrom(segments[..i], t, played);
      var after := ScanFrom(segments[..i + 1], t, played);
      && (Qualifies(segments[i], t, before.played) ==>
            after == ScanResult(before.skipped + [segments[i]], before.played + {segments[i].start}))
      && (!Qualifies(segments[i], t, before.played) ==> after == before)
  {
    assert segments[..i + 1] == segments[..i] + [segments[i]];
    ScanSplit(segments[..i], [segments[i]], t, played);
    var before := ScanFrom(segments[..i], t, played);
    assert [segments[i]][1..] == [];
    if !Qualifies(segments[i], t, before.played) {
      assert before.skipped + [] == before.skipped;
    }
  }

  /** The `for` loop of lines 118-122: the seek targets issued, in order, and
      the set of skipped starts afterwards. */
  method Scan(segments: seq<Segment>, t: real, played: set<real>)
    returns (seeks: seq<real>, after: set<real>)
    ensures seeks == Targets(ScanFrom(segments, t, played).skipped)
    ensures after == ScanFrom(segments, t, played).played
  {
    seeks, after := [], played;
    var i := 0;
    while i < |segments|
      invariant 0 <= i <= |segments|
      invariant Targets(ScanFrom(segments, t, played).skipped)
                == seeks + Targets(ScanFrom(segments[i..], t, after).skipped)
      invariant ScanFrom(segments, t, played).played == ScanFrom(segments[i..], t, after).played
    {
      var s := segments[i];
      assert segments[i..][1..] == segments[i + 1..];
      if s.start <= t <= s.end && s.start !in after {
        var rest := ScanFrom(segments[i + 1..], t, after + {s.start});
        assert ([s] + rest.skipped)[1..] == rest.skipped;
        seeks := seeks + [s.end];
        after := after + {s.start};
      }
      i := i + 1;
    }
  }

  /** One iteration of the `while True` loop (lines 106-122) on the cache
      `entries` with the skipped starts `played`. */
  function TickSpec(entries: map<string, Entry>, input: PollInput, played: set<real>): TickResult
  {
    var status := input.status;
    if !IsPlayingYouTube(status) || !HasMetadata(status) then
      TickResult([], played, entries, [])
    else
      var key := CacheKey(status.artist.value, status.title.value);
      var r := Lookup(entries, key, input.now, input.resolved, input.response);
      if !Truthy(r.videoId) then
        TickResult([], played, r.entries, r.calls)
      else
        var s := ScanFrom(r.segments, status.currentTime, played);
        TickResult(s.skipped, s.played, r.entries, r.calls)
  }

  /** A poll that finds the player not playing, another app in front, or
      the title or the artist missing does nothing at all. */
  lemma TickIdle(entries: map<string, Entry>, input: PollInput, played: set<real>)
    requires input.status.playerState != "PLAYING" || input.status.appName != "YouTube"
             || !Truthy(input.status.title) || !Truthy(input.status.artist)
    ensures TickSpec(entries, input, played) == TickResult([], played, entries, [])
  {
  }

  /** Otherwise the poll looks up "artist title"; with a falsy video id it
      seeks nowhere and leaves the skipped starts as they are. */
  lemma TickLooksUpArtistTitle(entries: map<string, Entry>, input: PollInput, played: set<real>)
    requires IsPlayingYouTube(input.status) && HasMetadata(input.status)
    ensures var key := input.status.artist.value + " " + input.status.title.value;
      var l := Lookup(entries, key, input.now, input.resolved, input.response);
      var r := TickSpec(entries, input, played);
      && r.entries == l.entries && r.calls == l.calls
      && (!Truthy(l.videoId) ==> r.skipped == [] && r.played == played)
      && (Truthy(l.videoId) ==> r.skipped == ScanFrom(l.segments, input.status.currentTime, played).skipped)
  {
  }

  /** A fresh cached entry with a falsy video id: no collaborator is called,
      nothing is skipped, nothing changes. */
  lemma TickCachedWithoutId(entries: map<string, Entry>, input: PollInput, played: set<real>)
    requires IsPlayingYouTube(input.status) && HasMetadata(input.status)
    requires var key := CacheKey(input.status.artist.value, input.status.title.value);
      IsHit(entries, key, input.now) && !Truthy(entries[key].videoId)
    ensures TickSpec(entries, input, played) == TickResult([], played, entries, [])
  {
  }

  /** Whatever a poll skips contains the current position and was not
      skipped before; the skipped starts only grow, by one per seek. */
  lemma TickSkipsOnce(entries: map<string, Entry>, input: PollInput, played: set<real>)
    ensures var r := TickSpec(entries, input, played);
      && (forall s :: s in r.skipped ==> Covers(s, input.status.currentTime))
      && FreshSkips(r.skipped, played, r.played)
      && |Targets(r.skipped)| == |r.played - played|
  {
    var status := input.status;
    if IsPlayingYouTube(status) && HasMetadata(status) {
      var key := CacheKey(status.artist.value, status.title.value);
      var l := Lookup(entries, key, input.now, input.resolved, input.response);
      if Truthy(l.videoId) {
        ScanSkipsFresh(l.segments, status.currentTime, played);
        ScanSeeksOncePerStart(l.segments, status.currentTime, played);
      } else {
        assert StartsOf([]) == {};
      }
    } else {
      assert StartsOf([]) == {};
    }
  }

  /** The body of the `while True` loop (lines 106-122): returns the seek
      targets issued, the skipped starts afterwards and the collaborator
      calls made; the cache is updated in place. */
  method Tick(cache: Cache, input: PollInput, played: set<real>)
    returns (seeks: seq<real>, after: set<real>, calls: seq<Call>)
    modifies cache
    ensures var r := TickSpec(old(cache.entries), input, played);
      && seeks == Targets(r.skipped)
      && after == r.played
      && calls == r.calls
      && cache.entries == r.entries
  {
    seeks, after, calls := [], played, [];
    var status := input.status;
    if status.playerState == "PLAYING" && "YouTube" == status.appName {
      if Truthy(status.title) && Truthy(status.artist) {
        var key := CacheKey(status.artist.value, status.title.value);
        var segments, videoId;
        segments, videoId, calls := cache.GetSponsorBlockSegments(key, input.now, input.resolved, input.response);
        if Truthy(videoId) {
          seeks, after := Scan(segments, status.currentTime, played);
        }
      }
    }
  }

  /** A run of polls from the cache `entries` and the skipped starts
      `played`, in order. */
  function RunSpec(entries: map<string, Entry>, polls: seq<PollInput>, played: set<real>): TickResult
    decreases |polls|
  {
    if polls == [] then TickResult([], played, entries, [])
    else
      var before := RunSpec(entries, polls[..|polls| - 1], played);
      var last := TickSpec(before.entries, polls[|polls| - 1], before.played);
      TickResult(before.skipped + last.skipped, last.played, last.entries, before.calls + last.calls)
  }

  /** Over a whole run, across every video it sees, no start offset is
      skipped twice, none already in `played` is skipped, and there is one
      seek per start added. */
  lemma {:induction false} RunSkipsEachStartOnce(entries: map<string, Entry>, polls: seq<PollInput>, played: set<real>)
    ensures var r := RunSpec(entries, polls, played);
      FreshSkips(r.skipped, played, r.played) && |Targets(r.skipped)| == |r.played - played|
    decreases |polls|
  {
    var r := RunSpec(entries, polls, played);
    if polls == [] {
      assert StartsOf([]) == {};
    } else {
      var before := RunSpec(entries, polls[..|polls| - 1], played);
      var last := TickSpec(before.entries, polls[|polls| - 1], before.played);
      RunSkipsEachStartOnce(entries, polls[..|polls| - 1], played);
      TickSkipsOnce(before.entries, polls[|polls| - 1], before.played);
      FreshSkipsCompose(before.skipped, last.skipped, played, before.played, last.played);
      FreshSkipsCount(r.skipped, played, r.played);
    }
  }

  /** `monitor_chromecast` (lines 97-126) over a finite list of polls:
      `played_segments` starts empty once, before the loop, and is never
      cleared. Returns every seek target issued, in order. */
  method MonitorChromecast(cache: Cache, polls: seq<PollInput>) returns (seeks: seq<real>)
    modifies cache
    ensures var r := RunSpec(old(cache.entries), polls, {});
      seeks == Targets(r.skipped) && cache.entries == r.entries
  {
    var played: set<real> := {};
    seeks := [];
    var i := 0;
    while i < |polls|
      invariant 0 <= i <= |polls|
      invariant var r := RunSpec(old(cache.entries), polls[..i], {});
        seeks == Targets(r.skipped) && played == r.played && cache.entries == r.entries
    {
      ghost var before := RunSpec(old(cache.entries), polls[..i], {});
      assert polls[..i + 1][..i] == polls[..i];
      var tickSeeks, calls;
      tickSeeks, played, calls := Tick(cache, polls[i], played);
      TargetsConcat(before.skipped, TickSpec(before.entries, polls[i], before.played).skipped);
      seeks := seeks + tickSeeks;
      i := i + 1;
    }
    assert polls[..i] == polls;
  }

  /** The key of the scenario below. */
  lemma ScenarioKey()
    ensures CacheKey("Rick Astley", "Never Gonna Give You Up") == "Rick Astley Never Gonna Give You Up"
  {
  }

  /** The first poll of the scenario: "Rick Astley" playing "Never Gonna Give
      You Up" at 5.0 s on an empty cache; the search finds "dQw4w9WgXcQ" and
      the API answers one sponsor segment [3.0, 10.0]. One seek to 10.0, start
      3.0 recorded, the answer cached at `now`. */
  lemma ScenarioFirstPoll(now: int)
    ensures var sponsor := Segment("sponsor", 3.0, 10.0);
      var input := PollInput(Status("PLAYING", "YouTube", Some("Never Gonna Give You Up"), Some("Rick Astley"), 5.0),
                             now, Some("dQw4w9WgXcQ"), Response(200, [sponsor]));
      var r := TickSpec(map[], input, {});
      && Targets(r.skipped) == [10.0]
      && r.played == {3.0}
      && r.entries == map["Rick Astley Never Gonna Give You Up" := Entry([sponsor], Some("dQw4w9WgXcQ"), now)]
      && r.calls == [Search("Rick Astley Never Gonna Give You Up"), Fetch("dQw4w9WgXcQ")]
  {
    var sponsor := Segment("sponsor", 3.0, 10.0);
    var key := "Rick Astley Never Gonna Give You Up";
    var id := Some("dQw4w9WgXcQ");
    var input := PollInput(Status("PLAYING", "YouTube", Some("Never Gonna Give You Up"), Some("Rick Astley"), 5.0),
                           now, id, Response(200, [sponsor]));
    ScenarioKey();
    assert [sponsor][1..] == [];
    assert Truthy(id) && RawSegments(id, Response(200, [sponsor])) == [sponsor];
    assert FilterRelevant([sponsor]) == [sponsor];
    var l := Lookup(map[], key, now, id, Response(200, [sponsor]));
    assert l == LookupResult([sponsor], id, map[key := Entry([sponsor], id, now)], [Search(key), Fetch(id.value)]);
    assert ScanFrom([sponsor], 5.0, {}) == ScanResult([sponsor], {3.0});
    assert TickSpec(map[], input, {}) == TickResult([sponsor], {3.0}, l.entries, l.calls);
    assert Targets([sponsor]) == [10.0];
  }

  /** Later polls of the same item within the window are served from the
      cache; at 7.0 s (inside the segment) nothing is skipped again because
      3.0 is recorded, and neither at 10.5 s. */
  lemma ScenarioLaterPolls(now: int, later: int, t: real)
    requires now <= later <= now + 7200 && (t == 7.0 || t == 10.5)
    ensures var sponsor := Segment("sponsor", 3.0, 10.0);
      var key := "Rick Astley Never Gonna Give You Up";
      var entries := map[key := Entry([sponsor], Some("dQw4w9WgXcQ"), now)];
      var input := PollInput(Status("PLAYING", "YouTube", Some("Never Gonna Give You Up"), Some("Rick Astley"), t),
                             later, None, Response(500, []));
      TickSpec(entries, input, {3.0}) == TickResult([], {3.0}, entries, [])
  {
    var sponsor := Segment("sponsor", 3.0, 10.0);
    var key := "Rick Astley Never Gonna Give You Up";
    ScenarioKey();
    assert [sponsor][1..] == [];
    assert ScanFrom([sponsor], t, {3.0}) == ScanResult([], {3.0});
  }

  /** A miss whose API request answers 500 caches an empty list under the
      resolved id with the current time, and skips nothing. */
  lemma ScenarioServerError(now: int, played: set<real>)
    ensures var input := PollInput(Status("PLAYING", "YouTube", Some("t"), Some("a"), 1.0),
                                   now, Some("id"), Response(500, [Segment("sponsor", 0.0, 9.0)]));
      var r := TickSpec(map[], input, played);
      r.skipped == [] && r.played == played && r.entries == map["a t" := Entry([], Some("id"), now)]
  {
    assert CacheKey("a", "t") == "a t";
  }

  /** The two inputs of the scenario below: two videos by "a", each with
      a sponsor segment [3.0, 10.0], both polled at 5.0 s. */
  function TwoVideos(now: int): seq<PollInput>
  {
    var seg := Segment("sponsor", 3.0, 10.0);
    [PollInput(Status("PLAYING", "YouTube", Some("one"), Some("a"), 5.0), now, Some("v1"), Response(200, [seg])),
     PollInput(Status("PLAYING", "YouTube", Some("two"), Some("a"), 5.0), now, Some("v2"), Response(200, [seg]))]
  }

  /** The first video's poll skips its segment and records 3.0. */
  lemma TwoVideosFirstTick(now: int)
    ensures var seg := Segment("sponsor", 3.0, 10.0);
      TickSpec(map[], TwoVideos(now)[0], {})
      == TickResult([seg], {3.0}, map["a one" := Entry([seg], Some("v1"), now)], [Search("a one"), Fetch("v1")])
  {
    var seg := Segment("sponsor", 3.0, 10.0);
    assert CacheKey("a", "one") == "a one";
    assert [seg][1..] == [];
    assert FilterRelevant([seg]) == [seg];
    assert ScanFrom([seg], 5.0, {}) == ScanResult([seg], {3.0});
  }

  /** The second video's poll, after the first, finds 3.0 recorded. */
  lemma TwoVideosSecondTick(now: int, entries: map<string, Entry>)
    requires "a two" !in entries
    ensures TickSpec(entries, TwoVideos(now)[1], {3.0}).skipped == []
  {
    var seg := Segment("sponsor", 3.0, 10.0);
    assert CacheKey("a", "two") == "a two";
    assert [seg][1..] == [];
    assert FilterRelevant([seg]) == [seg];
    assert ScanFrom([seg], 5.0, {3.0}) == ScanResult([], {3.0});
  }

  /** Because `played_segments` is never cleared, a start skipped in one video
      is not skipped in the next: both videos have a sponsor segment at 3.0,
      and only the first one is skipped. */
  lemma ScenarioSecondVideoSameStart(now: int)
    ensures Targets(RunSpec(map[], TwoVideos(now), {}).skipped) == [10.0]
  {
    var seg := Segment("sponsor", 3.0, 10.0);
    var polls := TwoVideos(now);
    TwoVideosFirstTick(now);
    var m1 := map["a one" := Entry([seg], Some("v1"), now)];
    assert "a two" != "a one";
    TwoVideosSecondTick(now, m1);
    assert polls[..1] == [polls[0]] && polls[..1][..0] == [];
    assert RunSpec(map[], polls[..1], {}).skipped == [seg];
    assert RunSpec(map[], polls[..1], {}).played == {3.0};
    assert RunSpec(map[], polls[..1], {}).entries == m1;
    assert polls[..2] == polls;
    assert [seg][1..] == [];
  }
}
