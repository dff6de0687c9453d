/** The weather handlers of main.py that reshape a cached feed payload:
    `get_station_temperature`, `get_rainfall_data` and `get_forecast`.

    A payload holds only the fields these handlers read. A key missing from
    the JSON is `None`; the defaults the source passes to `dict.get` are
    applied where it applies them. */
module WeatherFeed {
  import opened Wrappers
  import opened HttpErrors
  import opened PySlice
  import opened ResponseCache

  /** An item of `temperature.data` in the `rhrread` feed. */
  datatype Temperature = Temperature(place: Option<string>, value: Option<real>, unit: Option<string>)

  /** An item of `rainfall.data` in the `rhrread` feed. */
  datatype Rainfall = Rainfall(place: Option<string>, max: Option<real>, unit: Option<string>)

  /** A feed section of the form `{"data": [...]}`. */
  datatype Section<T> = Section(data: Option<seq<T>>)

  /** A `{"value": ...}` reading inside a forecast day. */
  datatype Measure = Measure(value: Option<real>)

  /** An item of `weatherForecast` in the `fnd` feed. */
  datatype ForecastDay = ForecastDay(
    forecastDate: Option<string>,
    week: Option<string>,
    forecastWeather: Option<string>,
    forecastWind: Option<string>,
    forecastMaxtemp: Option<Measure>,
    forecastMintemp: Option<Measure>,
    forecastMaxrh: Option<Measure>,
    forecastMinrh: Option<Measure>)

  datatype General = General(forecastTime: Option<string>)

  /** A decoded feed document, for either data type. */
  datatype Payload = Payload(
    iconUpdateTime: Option<string>,
    temperature: Option<Section<Temperature>>,
    rainfall: Option<Section<Rainfall>>,
    general: Option<General>,
    weatherForecast: Option<seq<ForecastDay>>)

  /** The data types requested from the feed. */
  const CurrentWeather: string := "rhrread"
  const NineDayForecast: string := "fnd"

  /** `data.get(name, {}).get("data", [])`: a missing section and a section
      without data both read as no items. */
  function SectionData<T>(section: Option<Section<T>>): seq<T> {
    match section
    case Some(s) => s.data.GetOr([])
    case None => []
  }

  // ---------------------------------------------------------------------
  // Station lookup

  /** `str.lower` on ASCII letters; every other character is kept. */
  function LowerChar(c: char): char {
    if 'A' <= c <= 'Z' then (c as int + 32) as char else c
  }

  function Lower(s: string): (r: string)
    ensures |r| == |s|
    ensures forall i :: 0 <= i < |s| ==> r[i] == LowerChar(s[i])
  {
    seq(|s|, i requires 0 <= i < |s| => LowerChar(s[i]))
  }

  /** A station answers a query when its place (`""` when missing) equals
      the query, both lower-cased. */
  predicate Matches(t: Temperature, query: string) {
    Lower(t.place.GetOr("")) == Lower(query)
  }

  /** The position of the first station that answers the query. */
  function FirstMatch(stations: seq<Temperature>, query: string): (r: Option<nat>)
    ensures r.Some? ==>
      && r.value < |stations| && Matches(stations[r.value], query)
      && forall j :: 0 <= j < r.value ==> !Matches(stations[j], query)
    ensures r.None? ==> forall j :: 0 <= j < |stations| ==> !Matches(stations[j], query)
  {
    if stations == [] then None
    else if Matches(stations[0], query) then Some(0)
    else
      match FirstMatch(stations[1..], query)
      case Some(i) => Some(i + 1)
      case None => None
  }

  /** `[s.get("place") for s in temp_data]` */
  function Places(stations: seq<Temperature>): (r: seq<Option<string>>)
    ensures |r| == |stations|
    ensures forall i :: 0 <= i < |stations| ==> r[i] == stations[i].place
  {
    seq(|stations|, i requires 0 <= i < |stations| => stations[i].place)
  }

  /** The body of a successful `GET /temperature/{station_name}`. */
  datatype StationReading = StationReading(station: Option<string>, temperature: Option<real>, unit: string, timestamp: string)

  function ReadingOf(t: Temperature, data: Payload): StationReading {
    StationReading(t.place, t.value, t.unit.GetOr("C"), data.iconUpdateTime.GetOr(""))
  }

  /** The search loop of `get_station_temperature` over a payload: the first
      station whose place matches the name case-insensitively, or a 404 that
      lists every station's place in feed order. */
  function LookupStation(data: Payload, stationName: string): (r: Result<StationReading, ApiError>)
    ensures var stations := SectionData(data.temperature);
      r.Success? <==> exists i :: 0 <= i < |stations| && Matches(stations[i], stationName)
    ensures var stations := SectionData(data.temperature);
      r.Success? ==> exists i :: (
        && 0 <= i < |stations|
        && Matches(stations[i], stationName)
        && (forall j :: 0 <= j < i ==> !Matches(stations[j], stationName))
        && r.value == ReadingOf(stations[i], data))
    ensures var stations := SectionData(data.temperature);
      r.Failure? ==>
        && r.error.StatusCode() == 404
        && r.error == StationNotFound(stationName, r.error.availableStations)
        && |r.error.availableStations| == |stations|
        && forall i :: 0 <= i < |stations| ==> r.error.availableStations[i] == stations[i].place
  {
    var stations := SectionData(data.temperature);
    match FirstMatch(stations, stationName)
    case Some(i) => Success(ReadingOf(stations[i], data))
    case None => Failure(StationNotFound(stationName, Places(stations)))
  }

  // ---------------------------------------------------------------------
  // Rainfall

  /** `item.get("max", 0) > 0` */
  predicate HasRain(item: Rainfall) {
    item.max.GetOr(0.0) > 0.0
  }

  /** One district of the rainfall reply. */
  datatype RainEntry = RainEntry(district: Option<string>, rainfall: real, unit: string)

  function RainEntryOf(item: Rainfall): RainEntry {
    RainEntry(item.place, item.max.GetOr(0.0), item.unit.GetOr("mm"))
  }

  /** The `all_stations` list comprehension. */
  function AllStations(items: seq<Rainfall>): (r: seq<RainEntry>)
    ensures |r| == |items|
    ensures forall i :: 0 <= i < |items| ==> r[i] == RainEntryOf(items[i])
  {
    seq(|items|, i requires 0 <= i < |items| => RainEntryOf(items[i]))
  }

  /** The `raining_places` list comprehension with its `if` filter. */
  function RainingPlaces(items: seq<Rainfall>): (r: seq<RainEntry>)
    ensures |r| <= |items|
    ensures forall k :: 0 <= k < |r| ==> r[k].rainfall > 0.0
  {
    if items == [] then []
    else if HasRain(items[0]) then [RainEntryOf(items[0])] + RainingPlaces(items[1..])
    else RainingPlaces(items[1..])
  }

  /** `idx` lists, in increasing order, exactly the positions of the items
      with rain, and `r` holds those items' entries in that order. */
  ghost predicate IsRainSelection(items: seq<Rainfall>, r: seq<RainEntry>, idx: seq<nat>) {
    && |idx| == |r|
    && (forall k :: 0 <= k < |idx| ==> idx[k] < |items| && r[k] == RainEntryOf(items[idx[k]]))
    && (forall k :: 0 < k < |idx| ==> idx[k - 1] < idx[k])
    && (forall i :: 0 <= i < |items| ==> (HasRain(items[i]) <==> i in idx))
  }

  /** `raining_places` is the order-preserving subsequence of the items with
      rain: the witness `idx` gives the position each entry comes from. */
  lemma {:induction false} RainingPlacesIsSelection(items: seq<Rainfall>) returns (idx: seq<nat>)
    ensures IsRainSelection(items, RainingPlaces(items), idx)
  {
    if items == [] {
      idx := [];
    } else {
      var rest := RainingPlacesIsSelection(items[1..]);
      if HasRain(items[0]) {
        idx := SelectHead(items, RainingPlaces(items[1..]), rest);
      } else {
        idx := SkipHead(items, RainingPlaces(items[1..]), rest);
      }
    }
  }

  /** A head with rain goes in front of the tail's selection. */
  lemma SelectHead(items: seq<Rainfall>, r: seq<RainEntry>, rest: seq<nat>) returns (idx: seq<nat>)
    requires items != [] && HasRain(items[0])
    requires IsRainSelection(items[1..], r, rest)
    ensures IsRainSelection(items, [RainEntryOf(items[0])] + r, idx)
  {
    idx := [0] + Shift(rest);
    HeadEntries(items, r, rest, idx);
    HeadOrdered(items, r, rest, idx);
    HeadMembers(items, r, rest, idx);
  }

  lemma HeadEntries(items: seq<Rainfall>, r: seq<RainEntry>, rest: seq<nat>, idx: seq<nat>)
    requires items != [] && IsRainSelection(items[1..], r, rest)
    requires idx == [0] + Shift(rest)
    ensures |idx| == |r| + 1
    ensures forall k :: 0 <= k < |idx| ==>
      idx[k] < |items| && ([RainEntryOf(items[0])] + r)[k] == RainEntryOf(items[idx[k]])
  {
    ShiftSelection(items, r, rest);
    var r' := [RainEntryOf(items[0])] + r;
    forall k | 0 < k < |idx| ensures idx[k] < |items| && r'[k] == RainEntryOf(items[idx[k]]) {
      assert idx[k] == Shift(rest)[k - 1] && r'[k] == r[k - 1];
    }
  }

  lemma HeadOrdered(items: seq<Rainfall>, r: seq<RainEntry>, rest: seq<nat>, idx: seq<nat>)
    requires items != [] && IsRainSelection(items[1..], r, rest)
    requires idx == [0] + Shift(rest)
    ensures forall k :: 0 < k < |idx| ==> idx[k - 1] < idx[k]
  {
    ShiftSelection(items, r, rest);
    forall k | 0 < k < |idx| ensures idx[k - 1] < idx[k] {
      if k == 1 {
        assert idx[1] == Shift(rest)[0];
      } else {
        assert idx[k - 1] == Shift(rest)[k - 2] && idx[k] == Shift(rest)[k - 1];
      }
    }
  }

  lemma HeadMembers(items: seq<Rainfall>, r: seq<RainEntry>, rest: seq<nat>, idx: seq<nat>)
    requires items != [] && HasRain(items[0]) && IsRainSelection(items[1..], r, rest)
    requires idx == [0] + Shift(rest)
    ensures forall i :: 0 <= i < |items| ==> (HasRain(items[i]) <==> i in idx)
  {
    ShiftSelection(items, r, rest);
    forall i | 0 <= i < |items| ensures HasRain(items[i]) <==> i in idx {
      assert i in idx <==> i == 0 || i in Shift(rest);
    }
  }

  /** A head without rain is left out of the tail's selection. */
  lemma SkipHead(items: seq<Rainfall>, r: seq<RainEntry>, rest: seq<nat>) returns (idx: seq<nat>)
    requires items != [] && !HasRain(items[0])
    requires IsRainSelection(items[1..], r, rest)
    ensures IsRainSelection(items, r, idx)
  {
    ShiftSelection(items, r, rest);
    idx := Shift(rest);
  }

  /** Every position moved one place to the right. */
  function Shift(idx: seq<nat>): (r: seq<nat>)
    ensures |r| == |idx|
    ensures forall k :: 0 <= k < |idx| ==> r[k] == idx[k] + 1
  {
    seq(|idx|, k requires 0 <= k < |idx| => idx[k] + 1)
  }

  /** A selection from the tail of `items`, shifted, is a selection from
      `items` that leaves out the head. */
  lemma ShiftSelection(items: seq<Rainfall>, r: seq<RainEntry>, idx: seq<nat>)
    requires items != []
    requires IsRainSelection(items[1..], r, idx)
    ensures |Shift(idx)| == |r|
    ensures forall k :: 0 <= k < |idx| ==> 0 < Shift(idx)[k] < |items| && r[k] == RainEntryOf(items[Shift(idx)[k]])
    ensures forall k :: 0 < k < |idx| ==> Shift(idx)[k - 1] < Shift(idx)[k]
    ensures forall i :: 1 <= i < |items| ==> (HasRain(items[i]) <==> i in Shift(idx))
    ensures 0 !in Shift(idx)
  {
    var shifted := Shift(idx);
    forall i | 1 <= i < |items| ensures HasRain(items[i]) <==> i in shifted {
      assert items[i] == items[1..][i - 1];
      if i - 1 in idx {
        var k :| 0 <= k < |idx| && idx[k] == i - 1;
        assert shifted[k] == i;
      }
    }
  }

  /** The body of `GET /rainfall`. */
  datatype RainfallReport = RainfallReport(
    timestamp: string,
    totalStations: nat,
    stationsWithRain: nat,
    rainingPlaces: seq<RainEntry>,
    allStations: seq<RainEntry>)

  /** `get_rainfall_data` over a payload: every station listed, the raining
      ones counted and listed again. */
  function RainfallOf(data: Payload): (r: RainfallReport)
    ensures var items := SectionData(data.rainfall);
      && r.totalStations == |items| == |r.allStations|
      && r.stationsWithRain == |r.rainingPlaces| <= r.totalStations
      && (forall i :: 0 <= i < |items| ==> r.allStations[i] == RainEntryOf(items[i]))
      && (forall k :: 0 <= k < |r.rainingPlaces| ==> r.rainingPlaces[k].rainfall > 0.0)
  {
    var items := SectionData(data.rainfall);
    var raining := RainingPlaces(items);
    RainfallReport(data.iconUpdateTime.GetOr(""), |items|, |raining|, raining, AllStations(items))
  }

  // ---------------------------------------------------------------------
  // Forecast

  /** `if days and 1 <= days <= 9`: a day count is applied only when it is
      given, non-zero and within the nine forecast days. */
  predicate LimitsDays(days: Option<int>) {
    days.Some? && days.value != 0 && 1 <= days.value <= 9
  }

  /** The days the forecast reply covers. */
  function SelectDays(days: Option<int>, forecast: seq<ForecastDay>): (r: seq<ForecastDay>)
    ensures days.Some? && 1 <= days.value <= 9 ==>
      r == forecast[..if days.value <= |forecast| then days.value else |forecast|]
    ensures days.None? || days.value < 1 || 9 < days.value ==> r == forecast
  {
    if LimitsDays(days) then Take(forecast, days.value) else forecast
  }

  /** One day of the forecast reply. */
  datatype DaySummary = DaySummary(
    date: Option<string>,
    dayOfWeek: Option<string>,
    weather: Option<string>,
    wind: Option<string>,
    maxTemp: Option<real>,
    minTemp: Option<real>,
    maxHumidity: Option<real>,
    minHumidity: Option<real>)

  /** `day.get(name, {}).get("value")` */
  function MeasureValue(m: Option<Measure>): Option<real> {
    m.GetOr(Measure(None)).value
  }

  function Summarize(day: ForecastDay): DaySummary {
    DaySummary(day.forecastDate, day.week, day.forecastWeather, day.forecastWind,
      MeasureValue(day.forecastMaxtemp), MeasureValue(day.forecastMintemp),
      MeasureValue(day.forecastMaxrh), MeasureValue(day.forecastMinrh))
  }

  /** The body of `GET /forecast`. */
  datatype ForecastReport = ForecastReport(forecastGenerated: string, daysCount: nat, forecast: seq<DaySummary>)

  /** `get_forecast` over a payload: the first `days` days when a day count
      between 1 and 9 is given, every day otherwise, and `days_count` is the
      number of days in the reply. */
  function ForecastOf(data: Payload, days: Option<int>): (r: ForecastReport)
    ensures r.daysCount == |r.forecast|
    ensures var all := data.weatherForecast.GetOr([]);
      && (days.Some? && 1 <= days.value <= 9 ==>
            r.daysCount == if days.value <= |all| then days.value else |all|)
      && (days.None? || days.value < 1 || 9 < days.value ==> r.daysCount == |all|)
      && forall i :: 0 <= i < |r.forecast| ==> i < |all| && r.forecast[i] == Summarize(all[i])
  {
    var selected := SelectDays(days, data.weatherForecast.GetOr([]));
    var summaries := seq(|selected|, i requires 0 <= i < |selected| => Summarize(selected[i]));
    ForecastReport(data.general.GetOr(General(None)).forecastTime.GetOr(""), |summaries|, summaries)
  }

  /** The station a query finds does not depend on the case of the query. */
  lemma LookupIgnoresCase(data: Payload, a: string, b: string)
    requires Lower(a) == Lower(b)
    ensures LookupStation(data, a).Success? <==> LookupStation(data, b).Success?
    ensures LookupStation(data, a).Success? ==> LookupStation(data, a) == LookupStation(data, b)
  {
    var stations := SectionData(data.temperature);
    assert forall t :: Matches(t, a) <==> Matches(t, b);
    assert FirstMatch(stations, a) == FirstMatch(stations, b) by {
      FirstMatchSameQuery(stations, a, b);
    }
  }

  lemma {:induction false} FirstMatchSameQuery(stations: seq<Temperature>, a: string, b: string)
    requires Lower(a) == Lower(b)
    ensures FirstMatch(stations, a) == FirstMatch(stations, b)
  {
    if stations != [] {
      FirstMatchSameQuery(stations[1..], a, b);
    }
  }

  /** The `raining_places` of the rainfall reply are exactly the stations
      with rain, in feed order. */
  lemma RainfallListsRainingStations(data: Payload) returns (idx: seq<nat>)
    ensures IsRainSelection(SectionData(data.rainfall), RainfallOf(data).rainingPlaces, idx)
  {
    idx := RainingPlacesIsSelection(SectionData(data.rainfall));
  }

  // ---------------------------------------------------------------------
  // Handlers: the cache lookup followed by the reshaping

  /** A handler's effect: the cache afterwards and the reply or error. */
  datatype Response<T> = Response(cache: Cache<Payload>, result: Result<T, ApiError>)

  /** `GET /temperature/{station_name}`: the cache afterwards is the one
      `get_hko_data` leaves for the current-weather feed, so only that entry
      can change; the reply is a 503 exactly when that entry is
      not fresh and the feed is unavailable, and otherwise the lookup of the
      station in the payload that was served. */
  function GetStationTemperature(c: Cache<Payload>, now: real, outcome: FetchOutcome<Payload>, stationName: string): (r: Response<StationReading>)
    ensures r.cache == GetHkoData(c, now, CurrentWeather, outcome).cache
    ensures forall k :: k != CurrentWeather ==> Find(r.cache, k) == Find(c, k)
    ensures (r.result.Failure? && r.result.error.ServiceUnavailable?) <==>
      (!IsFresh(c, CurrentWeather, now) && outcome.Unavailable?)
    ensures var served := GetHkoData(c, now, CurrentWeather, outcome).result;
      served.Success? ==> r.result == LookupStation(served.value, stationName)
  {
    var s := GetHkoData(c, now, CurrentWeather, outcome);
    match s.result
    case Failure(e) => Response(s.cache, Failure(e))
    case Success(data) => Response(s.cache, LookupStation(data, stationName))
  }

  /** `GET /rainfall`: the cache afterwards is the one `get_hko_data` leaves
      for the current-weather feed, so only that entry can change; the reply fails exactly when that entry is not fresh and the
      feed is unavailable, and otherwise reports on the payload served. */
  function GetRainfallData(c: Cache<Payload>, now: real, outcome: FetchOutcome<Payload>): (r: Response<RainfallReport>)
    ensures r.cache == GetHkoData(c, now, CurrentWeather, outcome).cache
    ensures forall k :: k != CurrentWeather ==> Find(r.cache, k) == Find(c, k)
    ensures r.result.Failure? <==> !IsFresh(c, CurrentWeather, now) && outcome.Unavailable?
    ensures r.result.Failure? ==> r.result.error.StatusCode() == 503
    ensures var served := GetHkoData(c, now, CurrentWeather, outcome).result;
      served.Success? ==> r.result == Success(RainfallOf(served.value))
  {
    var s := GetHkoData(c, now, CurrentWeather, outcome);
    match s.result
    case Failure(e) => Response(s.cache, Failure(e))
    case Success(data) => Response(s.cache, Success(RainfallOf(data)))
  }

  /** `GET /forecast?days=`: as `GetRainfallData`, on the nine-day forecast
      entry of the cache. */
  function GetForecast(c: Cache<Payload>, now: real, outcome: FetchOutcome<Payload>, days: Option<int>): (r: Response<ForecastReport>)
    ensures r.cache == GetHkoData(c, now, NineDayForecast, outcome).cache
    ensures forall k :: k != NineDayForecast ==> Find(r.cache, k) == Find(c, k)
    ensures r.result.Failure? <==> !IsFresh(c, NineDayForecast, now) && outcome.Unavailable?
    ensures r.result.Failure? ==> r.result.error.StatusCode() == 503
    ensures var served := GetHkoData(c, now, NineDayForecast, outcome).result;
      served.Success? ==> r.result == Success(ForecastOf(served.value, days))
  {
    var s := GetHkoData(c, now, NineDayForecast, outcome);
    match s.result
    case Failure(e) => Response(s.cache, Failure(e))
    case Success(data) => Response(s.cache, Success(ForecastOf(data, days)))
  }

  /** A rainfall request less than `CacheDuration` after one that fetched
      the feed is answered from the cache: the same report, whatever the
      network would answer, and the cache stays as the first request left
      it. */
  lemma RepeatRainfallWithinWindow(c: Cache<Payload>, t1: real, t2: real, data: Payload, o2: FetchOutcome<Payload>)
    requires !IsFresh(c, CurrentWeather, t1)
    requires t2 - t1 < CacheDuration
    ensures var r1 := GetRainfallData(c, t1, Fetched(data));
      var r2 := GetRainfallData(r1.cache, t2, o2);
      && r1.result == Success(RainfallOf(data))
      && r2.result == r1.result && r2.cache == r1.cache
  {
    RepeatWithinWindowHits(c, t1, t2, CurrentWeather, Fetched(data), o2);
  }
}
