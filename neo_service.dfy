/** The Near-Earth-Object feed service (src/services/neoService.ts): two date
    checks, one request to the feed endpoint, and the flattening of the
    upstream date map into a list of per-day records. */
module NeoService {
  import opened Wrappers
  import opened Constants
  import opened ApiTypes
  import opened ErrorMiddleware
  import opened Upstream
  import opened Validation
  import opened Calendar
  import opened NasaTypes

  /** `getDaysDifference(startDate, endDate) > 7`; a NaN difference compares
      false. */
  predicate RangeExceeded(startDate: string, endDate: string): (exceeded: bool)
    ensures ParseIsoDate(startDate).None? || ParseIsoDate(endDate).None? ==> !exceeded
    ensures IsValidDateString(startDate) && IsValidDateString(endDate) ==>
      var fs, fe := FieldsOf(startDate), FieldsOf(endDate);
      (exceeded <==> Abs(DayNumber(fe.year, fe.month, fe.day) - DayNumber(fs.year, fs.month, fs.day)) > 7)
  {
    DifferenceWhenValid(startDate, endDate);
    var diff := GetDaysDifference(startDate, endDate);
    diff.Some? && diff.value > 7
  }

  /** `DaysDifferenceOfValidDates` for any two strings, under the condition
      that both are valid. */
  lemma DifferenceWhenValid(startDate: string, endDate: string)
    ensures IsValidDateString(startDate) && IsValidDateString(endDate) ==>
      var fs, fe := FieldsOf(startDate), FieldsOf(endDate);
      GetDaysDifference(startDate, endDate) == Some(Abs(DayNumber(fe.year, fe.month, fe.day) - DayNumber(fs.year, fs.month, fs.day)))
  {
    if IsValidDateString(startDate) && IsValidDateString(endDate) {
      DaysDifferenceOfValidDates(startDate, endDate);
    }
  }

  /** One upstream object as the service returns it: the hazard flag renamed
      and only the first close approach kept. */
  function ReshapeObject(neo: NasaNeoObject): (o: NearEarthObject)
    ensures o.id == neo.id && o.name == neo.name && o.estimated_diameter == neo.estimated_diameter
    ensures o.is_potentially_hazardous == neo.is_potentially_hazardous_asteroid
    ensures o.close_approach_data.Some? <==> |neo.close_approach_data| > 0
    ensures o.close_approach_data.Some? ==> o.close_approach_data.value == neo.close_approach_data[0]
  {
    NearEarthObject(
      neo.id, neo.name, neo.estimated_diameter, neo.is_potentially_hazardous_asteroid,
      if |neo.close_approach_data| > 0 then Some(neo.close_approach_data[0]) else None)
  }

  /** The upstream object a returned object stands for, when the upstream
      listed at most one close approach. */
  function RestoreObject(o: NearEarthObject): NasaNeoObject
  {
    NasaNeoObject(
      o.id, o.name, o.estimated_diameter, o.is_potentially_hazardous,
      match o.close_approach_data case Some(a) => [a] case None => [])
  }

  /** Reshaping loses nothing but the close approaches after the first. */
  lemma RestoreReshape(neo: NasaNeoObject)
    requires |neo.close_approach_data| <= 1
    ensures RestoreObject(ReshapeObject(neo)) == neo
  {
    if |neo.close_approach_data| == 1 {
      assert [neo.close_approach_data[0]] == neo.close_approach_data;
    }
  }

  /** Every object the service can return is the reshaping of some upstream
      object. */
  lemma ReshapeRestore(o: NearEarthObject)
    ensures ReshapeObject(RestoreObject(o)) == o
  {
  }

  /** One key of the upstream map as a `{date, count, objects}` record. */
  function ProcessDay(day: NasaNeoDay): (d: NeoDateData)
    ensures d.date == day.date && d.count == |day.objects| == |d.objects|
    ensures forall j :: 0 <= j < |d.objects| ==> d.objects[j] == ReshapeObject(day.objects[j])
  {
    NeoDateData(day.date, |day.objects|,
      seq(|day.objects|, j requires 0 <= j < |day.objects| => ReshapeObject(day.objects[j])))
  }

  /** The returned data: one record per key, in key order, and the element
      count as the upstream gave it. */
  function ProcessFeed(feed: NasaNeoFeed): (r: NeoResponse)
    ensures r.element_count == feed.element_count
    ensures |r.near_earth_objects| == |feed.near_earth_objects|
    ensures forall i :: 0 <= i < |r.near_earth_objects| ==> r.near_earth_objects[i] == ProcessDay(feed.near_earth_objects[i])
  {
    NeoResponse(feed.element_count,
      seq(|feed.near_earth_objects|, i requires 0 <= i < |feed.near_earth_objects| => ProcessDay(feed.near_earth_objects[i])))
  }

  /** The number of objects the upstream lists over all its days. */
  function ObjectsListed(days: seq<NasaNeoDay>): nat
  {
    if days == [] then 0 else |days[0].objects| + ObjectsListed(days[1..])
  }

  /** The sum of the `count` fields of the returned records. */
  function CountsReported(days: seq<NeoDateData>): int
  {
    if days == [] then 0 else days[0].count + CountsReported(days[1..])
  }

  /** For every feed, the returned counts add up to the number of objects
      the upstream listed over its days. */
  lemma {:induction false} CountsAddUp(feed: NasaNeoFeed)
    ensures CountsReported(ProcessFeed(feed).near_earth_objects) == ObjectsListed(feed.near_earth_objects)
    decreases |feed.near_earth_objects|
  {
    var days := feed.near_earth_objects;
    var out := ProcessFeed(feed).near_earth_objects;
    if days != [] {
      var rest := NasaNeoFeed(days[1..], feed.element_count);
      CountsAddUp(rest);
      assert out[1..] == ProcessFeed(rest).near_earth_objects;
    }
  }

  /** The service's own checks, format then range, accept exactly the date
      pairs the route's query schema accepts. */
  lemma ServiceChecksMatchSchema(startDate: string, endDate: string)
    ensures ValidateDateFormat(startDate) && ValidateDateFormat(endDate) && !RangeExceeded(startDate, endDate)
      <==> NeoQuerySchema(NeoQuery(Some(startDate), Some(endDate)))
  {
    if ValidateDateFormat(startDate) && ValidateDateFormat(endDate) {
      ParseValidDate(startDate);
      ParseValidDate(endDate);
    }
  }

  /** `getNearEarthObjects(startDate, endDate)` with the feed call's outcome:
      the format check, then the range check, then the request. */
  function GetNearEarthObjects(startDate: string, endDate: string, response: Outcome<NasaNeoFeed>): (call: Call<NeoResponse>)
    ensures !ValidateDateFormat(startDate) || !ValidateDateFormat(endDate) ==>
      call == Call([], Err(ApiError(InvalidDateFormat, StatusBadRequest, true)))
    ensures ValidateDateFormat(startDate) && ValidateDateFormat(endDate) && RangeExceeded(startDate, endDate) ==>
      call == Call([], Err(ApiError(DateRangeExceeded, StatusBadRequest, true)))
    ensures call.requests != [] <==> NeoQuerySchema(NeoQuery(Some(startDate), Some(endDate)))
    ensures call.requests != [] ==>
      call.requests == [Get(NasaClient, NeoEndpoint, map["start_date" := StringParam(startDate), "end_date" := StringParam(endDate)])]
    ensures call.requests != [] && response.Received? ==> call.result == Ok(Success(ProcessFeed(response.payload)))
    ensures call.requests != [] && response.Failed? ==> call.result == Err(CatchAs(response.error, NeoError))
  {
    ServiceChecksMatchSchema(startDate, endDate);
    if !ValidateDateFormat(startDate) || !ValidateDateFormat(endDate) then
      Call([], Err(NewApiError(InvalidDateFormat, Some(StatusBadRequest), None)))
    else if RangeExceeded(startDate, endDate) then
      Call([], Err(NewApiError(DateRangeExceeded, Some(StatusBadRequest), None)))
    else
      var request := Get(NasaClient, NeoEndpoint, map["start_date" := StringParam(startDate), "end_date" := StringParam(endDate)]);
      match response
      case Received(feed) => Call([request], Ok(Success(ProcessFeed(feed))))
      case Failed(error) => Call([request], Err(CatchAs(error, NeoError)))
  }

  /** A feed with one day listing one object, whose element count says 2,
      becomes one record with count 1 whose object carries the first close
      approach; the element count is copied, not recounted. */
  lemma OneDayFeed(obj: NasaNeoObject)
    requires |obj.close_approach_data| >= 1
    ensures ProcessFeed(NasaNeoFeed([NasaNeoDay("2024-01-01", [obj])], 2))
      == NeoResponse(2, [NeoDateData("2024-01-01", 1, [ReshapeObject(obj)])])
    ensures ReshapeObject(obj).close_approach_data == Some(obj.close_approach_data[0])
  {
    var out := ProcessFeed(NasaNeoFeed([NasaNeoDay("2024-01-01", [obj])], 2));
    assert out.near_earth_objects[0].objects == [ReshapeObject(obj)];
  }

  /** 2020-01-01 to 2020-01-20 is refused as a range over seven days, whatever
      the upstream would have answered, and nothing is requested. */
  lemma NineteenDayRangeRefused(response: Outcome<NasaNeoFeed>)
    ensures GetNearEarthObjects("2020-01-01", "2020-01-20", response)
      == Call([], Err(ApiError(DateRangeExceeded, StatusBadRequest, true)))
  {
    NewYear2020Valid();
    TwentiethJanuary2020Valid();
    DaysDifferenceNineteenDays();
  }
}
