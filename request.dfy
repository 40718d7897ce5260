/**
 * The request glue of the UV endpoint: time-zone resolution with its
 * fallbacks, the cache key, the choice of the "now" bucket, and the handler
 * itself with its insert-only in-memory cache. The time-zone finder, the
 * zone database, the clock, the providers and timestamp arithmetic are
 * parameters (see `Environment`).
 */
module Request {
  import opened Wrappers
  import opened UvProviders
  import opened Timeline
  import opened Consensus
  import opened Summarizer

  // ---------------------------------------------------------------------
  // Time zone
  // ---------------------------------------------------------------------

  function LowerChar(c: char): char
  {
    if 'A' <= c <= 'Z' then (c as int + 32) as char else c
  }

  function Lower(s: string): (r: string)
    ensures |r| == |s|
    ensures forall i :: 0 <= i < |s| ==> r[i] == LowerChar(s[i])
  {
    seq(|s|, i requires 0 <= i < |s| => LowerChar(s[i]))
  }

  /** The request asks for detection: "auto" in any letter case. */
  predicate IsAuto(tz: string)
  {
    Lower(tz) == "auto"
  }

  /** The finder's answer, or "UTC" when it has none. */
  function DetectTz(found: Option<string>): (r: string)
    ensures r != ""
    ensures found.Some? && found.value != "" ==> r == found.value
    ensures found.None? || found.value == "" ==> r == "UTC"
  {
    if found.Some? && found.value != "" then found.value else "UTC"
  }

  /** The zone named by the request, or the detected one when it is missing, empty or "auto". */
  function ResolveTz(tz: Option<string>, found: Option<string>): (r: string)
    ensures r != ""
    ensures tz.Some? && tz.value != "" && !IsAuto(tz.value) ==> r == tz.value
    ensures tz.None? || tz.value == "" || IsAuto(tz.value) ==> r == DetectTz(found)
  {
    if tz.None? || tz.value == "" || IsAuto(tz.value) then DetectTz(found) else tz.value
  }

  /** The zone actually used: the resolved one if the zone database knows it, else "UTC"; so it is always a known zone. */
  function EffectiveZone(tz: string, zoneKnown: string -> bool): (r: string)
    ensures zoneKnown(tz) ==> r == tz
    ensures !zoneKnown(tz) ==> r == "UTC"
    ensures zoneKnown("UTC") ==> zoneKnown(r)
  {
    if zoneKnown(tz) then tz else "UTC"
  }

  /** Four letter-case spellings of "auto" are recognised; "UTC", "" and "autos" are not. */
  lemma AutoExamples()
    ensures IsAuto("auto") && IsAuto("AUTO") && IsAuto("Auto") && IsAuto("aUtO")
    ensures !IsAuto("UTC") && !IsAuto("") && !IsAuto("autos")
  {
    assert Lower("AUTO") == "auto";
    assert Lower("Auto") == "auto";
    assert Lower("aUtO") == "auto";
    assert Lower("UTC")[0] == 'u';
    assert |Lower("autos")| == 5;
  }

  /** A zone asks for detection exactly when it is four letters spelling "auto" in any letter case. */
  lemma AutoAnyCase(s: string)
    ensures IsAuto(s) <==> |s| == 4 && LowerChar(s[0]) == 'a' && LowerChar(s[1]) == 'u'
                           && LowerChar(s[2]) == 't' && LowerChar(s[3]) == 'o'
  {
    if |s| == 4 && LowerChar(s[0]) == 'a' && LowerChar(s[1]) == 'u' && LowerChar(s[2]) == 't' && LowerChar(s[3]) == 'o' {
      assert Lower(s) == "auto";
    }
  }

  // ---------------------------------------------------------------------
  // Fixed-point formatting with four decimals
  // ---------------------------------------------------------------------

  predicate IsDigit(c: char) { '0' <= c <= '9' }

  predicate NoComma(s: string) { forall i :: 0 <= i < |s| ==> s[i] != ',' }

  predicate AllDigits(s: string) { forall i :: 0 <= i < |s| ==> IsDigit(s[i]) }

  function Digit(d: nat): (c: char)
    requires d < 10
    ensures IsDigit(c) && (c as int) - ('0' as int) == d
  {
    ((d + '0' as int) as char)
  }

  /** The decimal value of a string of digits. */
  function DigitsValue(s: string): nat
    requires AllDigits(s)
  {
    if s == [] then 0
    else DigitsValue(s[..|s| - 1]) * 10 + ((s[|s| - 1] as int) - ('0' as int))
  }

  /** The decimal numeral of `n`, without leading zeros. */
  function NatToString(n: nat): (s: string)
    ensures |s| >= 1 && AllDigits(s)
    decreases n
  {
    if n < 10 then [Digit(n)] else NatToString(n / 10) + [Digit(n % 10)]
  }

  /** Four digits, zero-padded. */
  function Pad4(n: nat): (s: string)
    requires n < 10000
    ensures |s| == 4 && AllDigits(s)
  {
    var tens := n / 10;
    var hundreds := tens / 10;
    [Digit(hundreds / 10), Digit(hundreds % 10), Digit(tens % 10), Digit(n % 10)]
  }

  /** The magnitude of `x` in ten-thousandths, rounded half up. */
  function Scaled(x: real): nat
  {
    (Abs(x) * 10000.0 + 0.5).Floor as nat
  }

  /** `x` printed with four decimals: sign, integer part, point, four digits. */
  function Fixed4(x: real): (s: string)
    ensures NoComma(s)
  {
    var q := Scaled(x);
    (if x < 0.0 then "-" else "") + NatToString(q / 10000) + "." + Pad4(q % 10000)
  }

  /** Reads back an optional minus, digits, a point and exactly four digits. */
  function DecimalOf(s: string): Option<real>
  {
    if |s| < 6 || s[|s| - 5] != '.' then
      None
    else
      var neg := s[0] == '-';
      var ip := if neg then s[1..|s| - 5] else s[..|s| - 5];
      var fp := s[|s| - 4..];
      if ip == [] || !AllDigits(ip) || !AllDigits(fp) then
        None
      else
        var m := DigitsValue(ip) as real + DigitsValue(fp) as real / 10000.0;
        Some(if neg then -m else m)
  }

  lemma {:induction false} NatToStringValue(n: nat)
    ensures DigitsValue(NatToString(n)) == n
    decreases n
  {
    if n >= 10 {
      NatToStringValue(n / 10);
      var s := NatToString(n);
      assert s[..|s| - 1] == NatToString(n / 10);
    }
  }

  lemma Pad4Value(n: nat)
    requires n < 10000
    ensures DigitsValue(Pad4(n)) == n
  {
    var s := Pad4(n);
    var tens := n / 10;
    var hundreds := tens / 10;
    assert s[..3][..2][..1][..0] == [];
    assert DigitsValue(s[..1]) == hundreds / 10;
    assert s[..3][..2] == s[..2];
    assert DigitsValue(s[..2]) == hundreds;
    assert DigitsValue(s[..3]) == tens;
  }

  /**
   * The printed number reads back as a value within half a unit of the last
   * place of `x`, with the sign of `x`.
   */
  lemma Fixed4Accurate(x: real)
    ensures DecimalOf(Fixed4(x)).Some?
    ensures var v := DecimalOf(Fixed4(x)).value;
      -0.00005 <= v - x <= 0.00005 && (x < 0.0 ==> v <= 0.0) && (x >= 0.0 ==> v >= 0.0)
  {
    var q := Scaled(x);
    var sign := if x < 0.0 then "-" else "";
    var ip := NatToString(q / 10000);
    var fp := Pad4(q % 10000);
    var s := Fixed4(x);
    assert s == sign + ip + "." + fp;
    assert s[|s| - 5] == '.';
    assert s[|s| - 4..] == fp;
    if x < 0.0 {
      assert s[0] == '-';
      assert s[1..|s| - 5] == ip;
    } else {
      assert s[0] == ip[0] && s[0] != '-';
      assert s[..|s| - 5] == ip;
    }
    NatToStringValue(q / 10000);
    Pad4Value(q % 10000);
    var m := (q / 10000) as real + (q % 10000) as real / 10000.0;
    assert m == q as real / 10000.0;
    var a := Abs(x);
    assert a * 10000.0 - 0.5 < q as real <= a * 10000.0 + 0.5;
  }

  /** Two coordinates printing alike are less than a ten-thousandth apart. */
  lemma Fixed4Collision(x: real, y: real)
    requires Fixed4(x) == Fixed4(y)
    ensures -0.0001 <= x - y <= 0.0001
  {
    Fixed4Accurate(x);
    Fixed4Accurate(y);
  }

  // ---------------------------------------------------------------------
  // Cache key
  // ---------------------------------------------------------------------

  /** `a` and `rest` joined by a comma. */
  function Field(a: string, rest: string): string
  {
    a + "," + rest
  }

  /** The cache key: both coordinates with four decimals, the date and the zone, comma-separated. */
  function CacheKey(lat: real, lon: real, date: string, tz: string): string
  {
    Field(Fixed4(lat), Field(Fixed4(lon), Field(date, tz)))
  }

  lemma CommaAfter(a: string, rest: string)
    ensures Field(a, rest)[|a|] == ','
  {
  }

  /** A comma-free leading field is split off uniquely. */
  lemma SplitField(a: string, c: string, b: string, d: string)
    requires NoComma(a) && NoComma(b) && Field(a, c) == Field(b, d)
    ensures a == b && c == d
  {
    if |a| < |b| {
      CommaAfter(a, c);
      assert false;
    } else if |b| < |a| {
      CommaAfter(b, d);
      assert false;
    }
    var l := Field(a, c);
    assert a == l[..|a|] && b == l[..|b|];
    assert c == l[|a| + 1..] && d == l[|b| + 1..];
  }

  /**
   * Equal keys come from requests whose coordinates print alike and whose
   * date and zone agree, as long as the dates hold no comma.
   */
  lemma CacheKeyFields(lat1: real, lon1: real, d1: string, tz1: string,
                       lat2: real, lon2: real, d2: string, tz2: string)
    requires NoComma(d1) && NoComma(d2)
    requires CacheKey(lat1, lon1, d1, tz1) == CacheKey(lat2, lon2, d2, tz2)
    ensures Fixed4(lat1) == Fixed4(lat2) && Fixed4(lon1) == Fixed4(lon2)
    ensures d1 == d2 && tz1 == tz2
  {
    SplitField(Fixed4(lat1), Field(Fixed4(lon1), Field(d1, tz1)),
               Fixed4(lat2), Field(Fixed4(lon2), Field(d2, tz2)));
    SplitField(Fixed4(lon1), Field(d1, tz1), Fixed4(lon2), Field(d2, tz2));
    SplitField(d1, tz1, d2, tz2);
  }

  lemma LatitudeExample()
    ensures Fixed4(12.345678) == "12.3457"
  {
    assert Scaled(12.345678) == 123457;
    assert NatToString(12) == "12";
    assert Pad4(3457) == "3457";
  }

  lemma LongitudeExample()
    ensures Fixed4(98.765432) == "98.7654"
  {
    assert Scaled(98.765432) == 987654;
    assert NatToString(98) == "98";
    assert Pad4(7654) == "7654";
  }

  /** The key of the documented request. */
  lemma CacheKeyExample()
    ensures CacheKey(12.345678, 98.765432, "2024-02-03", "UTC") == "12.3457,98.7654,2024-02-03,UTC"
  {
    LatitudeExample();
    LongitudeExample();
  }

  // ---------------------------------------------------------------------
  // The "now" bucket
  // ---------------------------------------------------------------------

  /** The distance of a label from the current hour; a failed subtraction counts as 10**9. */
  function AbsMinutes(d: Option<int>): nat
  {
    if d.None? then 1000000000 else if d.value < 0 then -d.value else d.value
  }

  /** The first label of least distance, as a left-to-right minimum scan keeps it. */
  function NearestIndex(times: seq<string>, minutesFromNow: string -> Option<int>): (k: nat)
    requires |times| > 0
    ensures k < |times|
    ensures forall j :: 0 <= j < |times| ==>
      AbsMinutes(minutesFromNow(times[k])) <= AbsMinutes(minutesFromNow(times[j]))
    ensures forall j :: 0 <= j < k ==>
      AbsMinutes(minutesFromNow(times[k])) < AbsMinutes(minutesFromNow(times[j]))
  {
    if |times| == 1 then
      0
    else
      var k := NearestIndex(times[..|times| - 1], minutesFromNow);
      var last := times[|times| - 1];
      if AbsMinutes(minutesFromNow(last)) < AbsMinutes(minutesFromNow(times[k])) then |times| - 1 else k
  }

  /** The current hour's label when the timeline has it, else the nearest label; none without a timeline. */
  function NowBucket(times: seq<string>, nowHour: string, minutesFromNow: string -> Option<int>): (r: Option<string>)
    ensures r.None? <==> times == []
    ensures r.Some? ==> r.value in times
    ensures nowHour in times ==> r == Some(nowHour)
  {
    if times == [] then None
    else if nowHour in times then Some(nowHour)
    else Some(times[NearestIndex(times, minutesFromNow)])
  }

  /**
   * When the current hour is not a label, the choice is the earliest label
   * nearest to it.
   */
  lemma NowBucketNearest(times: seq<string>, nowHour: string, minutesFromNow: string -> Option<int>)
    requires times != [] && nowHour !in times
    ensures exists k :: (0 <= k < |times| && NowBucket(times, nowHour, minutesFromNow) == Some(times[k])
      && (forall j :: 0 <= j < |times| ==>
            AbsMinutes(minutesFromNow(times[k])) <= AbsMinutes(minutesFromNow(times[j])))
      && (forall j :: 0 <= j < k ==>
            AbsMinutes(minutesFromNow(times[k])) < AbsMinutes(minutesFromNow(times[j]))))
  {
    var k := NearestIndex(times, minutesFromNow);
    assert NowBucket(times, nowHour, minutesFromNow) == Some(times[k]);
  }

  /** Labels whose distances all fail to compute are equally far. */
  lemma EqualDistances(times: seq<string>, minutesFromNow: string -> Option<int>, k: nat)
    requires k < |times|
    requires forall j :: 0 <= j < |times| ==> minutesFromNow(times[j]).None?
    ensures AbsMinutes(minutesFromNow(times[k])) == AbsMinutes(minutesFromNow(times[0]))
  {
  }

  /**
   * When every distance fails to compute (labels parse as naive times while
   * the current hour carries a zone), the first label is chosen.
   */
  lemma NowBucketWhenDistanceFails(times: seq<string>, nowHour: string, minutesFromNow: string -> Option<int>)
    requires times != [] && nowHour !in times
    requires forall j :: 0 <= j < |times| ==> minutesFromNow(times[j]).None?
    ensures NowBucket(times, nowHour, minutesFromNow) == Some(times[0])
  {
    var k := NearestIndex(times, minutesFromNow);
    EqualDistances(times, minutesFromNow, k);
    assert k == 0;
  }

  // ---------------------------------------------------------------------
  // The handler and its cache
  // ---------------------------------------------------------------------

  /**
   * What the handler consults outside this model: the time-zone finder, the
   * zone database, the clock (per zone), the providers, and label arithmetic.
   */
  datatype Environment = Environment(
    finder: (real, real) -> Option<string>,
    zoneKnown: string -> bool,
    todayUtc: string,
    nowIso: string -> string,
    nowHour: string -> string,
    minutesFromNow: string -> string -> Option<int>,
    fetch: (real, real, string, string) -> seq<ProviderResult>,
    succHour: string -> string)

  /** The response body. */
  datatype UVResponse = UVResponse(
    lat: real,
    lon: real,
    date: string,
    tz: string,
    nowLocalIso: string,
    nowBucketTime: Option<string>,
    providers: seq<ProviderMeta>,
    hourly: seq<BucketView>,
    summary: Summary)

  /** Coordinates outside the accepted ranges are refused before the handler runs. */
  datatype Reply = Rejected | Payload(body: UVResponse)

  predicate ValidCoordinates(lat: real, lon: real)
  {
    -90.0 <= lat <= 90.0 && -180.0 <= lon <= 180.0
  }

  /** The date part of the key: the requested date, or "" when none was given. */
  function KeyDate(date: Option<string>): string
  {
    if date.None? then "" else date.value
  }

  /** The date served: the requested one, or today's UTC date when none (or "") was given. */
  function DayOf(date: Option<string>, todayUtc: string): string
  {
    if date.None? || date.value == "" then todayUtc else date.value
  }

  /** The key a request is cached under; it uses the zone before the zone-database fallback. */
  function RequestKey(lat: real, lon: real, date: Option<string>, tz: Option<string>, env: Environment): string
  {
    CacheKey(lat, lon, KeyDate(date), ResolveTz(tz, env.finder(lat, lon)))
  }

  /** The metadata of every provider, in invocation order. */
  function MetaOf(results: seq<ProviderResult>): (ms: seq<ProviderMeta>)
    ensures |ms| == |results|
  {
    seq(|results|, i requires 0 <= i < |results| => ProviderMeta(results[i].name, results[i].error))
  }

  /** The response for a resolved day and zone. */
  function ResponseAt(lat: real, lon: real, day: string, zone: string, env: Environment): UVResponse
  {
    var results := env.fetch(lat, lon, day, zone);
    var frames := FramesOf(results);
    var hourly := HourlyOf(frames);
    UVResponse(lat, lon, day, zone, env.nowIso(zone),
      NowBucket(TimelineOf(frames), env.nowHour(zone), env.minutesFromNow(zone)),
      MetaOf(results), hourly, SummaryOf(hourly, env.succHour))
  }

  /** The response computed afresh for a request. */
  function ResponseOf(lat: real, lon: real, date: Option<string>, tz: Option<string>, env: Environment): UVResponse
  {
    ResponseAt(lat, lon, DayOf(date, env.todayUtc),
      EffectiveZone(ResolveTz(tz, env.finder(lat, lon)), env.zoneKnown), env)
  }

  /**
   * Compute a response for a resolved day and zone: query the providers,
   * align their columns, fill the hour buckets, summarise, pick the "now" bucket.
   */
  method Respond(lat: real, lon: real, day: string, zone: string, env: Environment)
    returns (payload: UVResponse)
    ensures payload == ResponseAt(lat, lon, day, zone, env)
  {
    var nowLocalIso := env.nowIso(zone);
    var results := env.fetch(lat, lon, day, zone);
    var meta, frames := BuildFrames(results);
    var buckets, times := Aggregate(frames);
    var hourly := Dump(buckets);
    var summary := Summarise(hourly, env.succHour);
    var nowBucket := NowBucket(times, env.nowHour(zone), env.minutesFromNow(zone));
    assert meta == MetaOf(results);
    payload := UVResponse(lat, lon, day, zone, nowLocalIso, nowBucket, meta, hourly, summary);
  }

  /** When no provider returns samples, the response is empty apart from the metadata. */
  lemma AllProvidersFailed(lat: real, lon: real, date: Option<string>, tz: Option<string>, env: Environment)
    requires var zone := EffectiveZone(ResolveTz(tz, env.finder(lat, lon)), env.zoneKnown);
      var results := env.fetch(lat, lon, DayOf(date, env.todayUtc), zone);
      forall i :: 0 <= i < |results| ==> results[i].hourly == []
    ensures var r := ResponseOf(lat, lon, date, tz, env);
      r.hourly == [] && r.summary == EmptySummary && r.nowBucketTime.None?
      && |r.providers| == |env.fetch(lat, lon, r.date, r.tz)|
  {
    var zone := EffectiveZone(ResolveTz(tz, env.finder(lat, lon)), env.zoneKnown);
    var results := env.fetch(lat, lon, DayOf(date, env.todayUtc), zone);
    NoDataNoTimeline(results);
    NoConsensusEmptySummary(HourlyOf(FramesOf(results)), env.succHour);
  }

  /** The endpoint with its process-wide response cache. */
  class UvService {
    var cache: map<string, UVResponse>

    constructor()
      ensures cache == map[]
    {
      cache := map[];
    }

    /**
     * Serve a request: a cached response is returned as stored; otherwise
     * the response is computed, stored under the request's key, and returned.
     */
    method Uv(lat: real, lon: real, date: Option<string>, tz: Option<string>, env: Environment)
      returns (reply: Reply)
      modifies this
      ensures !ValidCoordinates(lat, lon) ==> reply == Rejected && cache == old(cache)
      ensures ValidCoordinates(lat, lon) ==>
        var key := RequestKey(lat, lon, date, tz, env);
        if key in old(cache) then
          reply == Payload(old(cache)[key]) && cache == old(cache)
        else
          reply == Payload(ResponseOf(lat, lon, date, tz, env))
          && cache == old(cache)[key := ResponseOf(lat, lon, date, tz, env)]
      ensures forall k :: k in old(cache) ==> k in cache && cache[k] == old(cache)[k]
    {
      if !ValidCoordinates(lat, lon) {
        return Rejected;
      }
      var zone: string;
      if tz.None? || tz.value == "" || IsAuto(tz.value) {
        zone := DetectTz(env.finder(lat, lon));
      } else {
        zone := tz.value;
      }
      var key := CacheKey(lat, lon, KeyDate(date), zone);
      if key in cache {
        return Payload(cache[key]);
      }
      ghost var resolved := zone;
      var day := if date.None? || date.value == "" then env.todayUtc else date.value;
      if !env.zoneKnown(zone) {
        zone := "UTC";
      }
      assert resolved == ResolveTz(tz, env.finder(lat, lon));
      assert zone == EffectiveZone(resolved, env.zoneKnown) && day == DayOf(date, env.todayUtc);
      var payload := Respond(lat, lon, day, zone, env);
      cache := cache[key := payload];
      reply := Payload(payload);
    }
  }
}
