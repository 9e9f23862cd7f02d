/**
 * The fixed table of countdown videos (main.py:33-47) and the two URL
 * helpers (main.py:90-96).
 */
module Timers {
  import opened Wrappers
  import opened PyText

  /** Every timer URL is this prefix followed by an 11-character YouTube id. */
  const Watch: string := "https://www.youtube.com/watch?v="

  /** TIMER_VIDEOS: keyed by `str(minutes)`. */
  const TimerVideos: map<string, string> := map[
    "1" := Watch + "OUQXwVIQw54",
    "2" := Watch + "R36tED8kLsU",
    "3" := Watch + "07T16GrtySQ",
    "4" := Watch + "zVHWhLme2NQ",
    "5" := Watch + "h6Hr8IJLpLo",
    "6" := Watch + "2Zdyu2lE-dM",
    "7" := Watch + "Em14gkKfczM",
    "8" := Watch + "xwgVlLn2Btc",
    "9" := Watch + "RA9KsHy6Ejo",
    "10" := Watch + "v77I_bByCDQ",
    "15" := Watch + "u_BcMXgws6Y",
    "20" := Watch + "kxGWsHYITAw",
    "25" := Watch + "WctdLnMAOPg"
  ]

  /** The durations, in minutes, that have a timer video. */
  const TimerMinutes: set<int> := {1, 2, 3, 4, 5, 6, 7, 8, 9, 10, 15, 20, 25}

  /** Timers run from one minute to twenty-five. */
  lemma TimerMinutesBounds(m: int)
    requires m in TimerMinutes
    ensures 1 <= m <= 25
  {
  }

  /** `TIMER_VIDEOS[str(minutes)]`, which raises KeyError for any other duration. */
  function TimerVideo(minutes: int): (r: Result<string, Failure>)
    ensures r.Err? ==> r.error == KeyError(DecimalString(minutes))
    ensures r.Ok? ==> DecimalString(minutes) in TimerVideos && r.value == TimerVideos[DecimalString(minutes)]
  {
    var key := DecimalString(minutes);
    if key in TimerVideos then Ok(TimerVideos[key]) else Err(KeyError(key))
  }

  lemma DecimalStringInjective(a: int, b: int)
    requires DecimalString(a) == DecimalString(b)
    ensures a == b
  {
    ParseIntRoundTrip(a);
    ParseIntRoundTrip(b);
  }

  /** The keys of the table are exactly the decimal forms of the listed durations. */
  lemma TimerKeys()
    ensures TimerVideos.Keys == set m | m in TimerMinutes :: DecimalString(m)
  {
    assert DecimalString(10) == "10" && DecimalString(15) == "15";
    assert DecimalString(20) == "20" && DecimalString(25) == "25";
  }

  /** A duration has a video iff it is 1 to 10, 15, 20 or 25 minutes. */
  lemma TimerVideoDefined(minutes: int)
    ensures TimerVideo(minutes).Ok? <==> minutes in TimerMinutes
  {
    TimerKeys();
    var key := DecimalString(minutes);
    if key in TimerVideos {
      var m :| m in TimerMinutes && DecimalString(m) == key;
      DecimalStringInjective(m, minutes);
    }
  }

  /** `video_url.partition("v=")[2]` */
  function GetVideoId(url: string): (id: string)
    ensures |id| <= |url|
  {
    PartitionTail(url, "v=")
  }

  /** The id is what follows the first "v=", here the one that ends a prefix free of `v`. */
  lemma VideoIdOf(prefix: string, id: string)
    requires forall k :: 0 <= k < |prefix| ==> prefix[k] != 'v'
    ensures GetVideoId(prefix + "v=" + id) == id
  {
    var head := prefix + "v=";
    assert head[|prefix|..] == "v=";
    forall j | 0 <= j < |prefix| ensures !OccursAt(head, "v=", j) {
      assert head[j] == prefix[j];
      NotOccursAt(head, "v=", j);
    }
    PartitionAtFirst(head, "v=", id);
  }

  /** Every timer URL is non-empty, so one is always inserted, and its video id is its 11-character suffix. */
  lemma TimerVideoIds(key: string)
    requires key in TimerVideos
    ensures TimerVideos[key] != []
    ensures TimerVideos[key] == Watch + GetVideoId(TimerVideos[key])
    ensures |GetVideoId(TimerVideos[key])| == 11
  {
    var url := TimerVideos[key];
    TimerUrlShape(key);
    WatchId(url[|Watch|..]);
    assert url == Watch + url[|Watch|..];
  }

  /** Every entry of the table is the watch prefix and eleven more characters. */
  lemma TimerUrlShape(key: string)
    requires key in TimerVideos
    ensures |TimerVideos[key]| == |Watch| + 11
    ensures TimerVideos[key][..|Watch|] == Watch
  {
  }

  /** The id of a watch URL is what follows the prefix. */
  lemma WatchId(id: string)
    ensures GetVideoId(Watch + id) == id
  {
    var prefix := "https://www.youtube.com/watch?";
    assert Watch == prefix + "v=";
    forall k | 0 <= k < |prefix| ensures prefix[k] != 'v' {
    }
    VideoIdOf(prefix, id);
  }

  /** The URL found for a duration is never empty, and its video id is its last 11 characters. */
  lemma TimerVideoInsertable(minutes: int)
    requires TimerVideo(minutes).Ok?
    ensures TimerVideo(minutes).value != []
    ensures TimerVideo(minutes).value == Watch + GetVideoId(TimerVideo(minutes).value)
    ensures |GetVideoId(TimerVideo(minutes).value)| == 11
  {
    TimerVideoIds(DecimalString(minutes));
  }

  /** The id of the video that counts down `minutes`: what `get_video_id` makes of its URL. */
  function TimerId(minutes: int): (id: string)
    requires minutes in TimerMinutes
    ensures |id| == 11 && TimerVideo(minutes) == Ok(Watch + id)
  {
    TimerVideoDefined(minutes);
    TimerVideoInsertable(minutes);
    GetVideoId(TimerVideo(minutes).value)
  }

  /** No two durations share a video, so an inserted id tells which duration it counts down. */
  lemma TimerIdInjective(a: int, b: int)
    requires a in TimerMinutes && b in TimerMinutes && TimerId(a) == TimerId(b)
    ensures a == b
  {
    var ka, kb := DecimalString(a), DecimalString(b);
    assert TimerVideos[ka] == TimerVideos[kb];
    TimerValuesDistinct(ka, kb);
    DecimalStringInjective(a, b);
  }

  /** The table maps different keys to different URLs. */
  lemma TimerValuesDistinct(k1: string, k2: string)
    requires k1 in TimerVideos && k2 in TimerVideos && TimerVideos[k1] == TimerVideos[k2]
    ensures k1 == k2
  {
    TimerKeyOfUrl(k1);
    TimerKeyOfUrl(k2);
  }

  /**
   * The key a timer URL is filed under, read back from the first two
   * characters of its id. `main.py` has no such function; it is here only
   * as a left inverse of the table, which proves the URLs distinct.
   */
  function KeyOfUrl(url: string): string
    requires |url| >= |Watch| + 2
  {
    var a, b := url[|Watch|], url[|Watch| + 1];
    if a == 'O' then "1" else if a == 'R' && b == '3' then "2" else if a == '0' then "3"
    else if a == 'z' then "4" else if a == 'h' then "5" else if a == '2' then "6"
    else if a == 'E' then "7" else if a == 'x' then "8" else if a == 'R' then "9"
    else if a == 'v' then "10" else if a == 'u' then "15" else if a == 'k' then "20" else "25"
  }

  lemma TimerKeyOfUrl(k: string)
    requires k in TimerVideos
    ensures |TimerVideos[k]| >= |Watch| + 2 && KeyOfUrl(TimerVideos[k]) == k
  {
  }

  /** `presentation_url.partition("/d/")[2].split("/edit")[0]` */
  function GetPresentationId(url: string): (id: string)
    ensures |id| <= |url|
  {
    SplitHead(PartitionTail(url, "/d/"), "/edit")
  }

  /**
   * A document URL `<prefix>/d/<id>` followed by nothing or by "/edit...":
   * the id comes back, provided it has no `/` and "/d/" first occurs after the prefix.
   */
  lemma PresentationIdOf(prefix: string, id: string, tail: string)
    requires forall j :: 0 <= j < |prefix| ==> !OccursAt(prefix + "/d/", "/d/", j)
    requires forall k :: 0 <= k < |id| ==> id[k] != '/'
    requires tail == [] || (|tail| >= 5 && tail[..5] == "/edit")
    ensures GetPresentationId(prefix + "/d/" + (id + tail)) == id
  {
    var head := prefix + "/d/";
    assert head[|prefix|..] == "/d/";
    PartitionAtFirst(head, "/d/", id + tail);
    forall j | 0 <= j < |id| ensures !OccursAt(id + tail, "/edit", j) {
      assert (id + tail)[j] == id[j];
      NotOccursAt(id + tail, "/edit", j);
    }
    SplitBefore(id, "/edit", tail);
  }

  /** Without "/d/" the URL yields the empty id. */
  lemma PresentationIdMissing(url: string)
    requires forall j :: !OccursAt(url, "/d/", j)
    ensures GetPresentationId(url) == []
  {
  }
}
