/** The EPIC image service (src/services/epicImageService.ts): an optional
    date check, the choice of endpoint, and the per-item copy that adds the
    denormalised `coords`. */
module EpicImageService {
  import opened Wrappers
  import opened Constants
  import opened ApiTypes
  import opened ErrorMiddleware
  import opened Upstream
  import opened Text
  import opened Validation
  import opened NasaTypes

  const EpicError := "Error fetching EPIC images"

  /** The endpoint for a date, or for the most recent images without one. */
  function EpicEndpoint(date: Option<string>): (path: string)
    ensures Truthy(date) ==> path == "/EPIC/api/natural/date/" + date.value
    ensures !Truthy(date) ==> path == "/EPIC/api/natural"
  {
    if Truthy(date) then "/EPIC/api/natural/date/" + date.value else "/EPIC/api/natural"
  }

  /** The promise of `EPICImage`: `coords` repeats the centroid coordinates. */
  predicate Denormalised(image: EpicImage)
  {
    image.coords.centroid_coordinates == image.centroid_coordinates
  }

  /** One upstream item as the service returns it. */
  function Transform(item: EpicItem): (image: EpicImage)
    ensures Denormalised(image)
    ensures image.centroid_coordinates == item.centroid_coordinates
  {
    EpicImage(
      item.identifier, item.caption, item.image, item.version,
      item.centroid_coordinates, item.dscovr_j2000_position,
      item.lunar_j2000_position, item.sun_j2000_position,
      item.attitude_quaternions, item.date,
      EpicCoords(item.centroid_coordinates))
  }

  /** The upstream fields of a returned image. */
  function Fields(image: EpicImage): EpicItem
  {
    EpicItem(
      image.identifier, image.caption, image.image, image.version,
      image.centroid_coordinates, image.dscovr_j2000_position,
      image.lunar_j2000_position, image.sun_j2000_position,
      image.attitude_quaternions, image.date)
  }

  /** Every field the service reads is copied unchanged. */
  lemma TransformCopiesFields(item: EpicItem)
    ensures Fields(Transform(item)) == item
  {
  }

  /** A denormalised image is the transform of its own upstream fields: the
      transform adds nothing but `coords`. */
  lemma TransformOfFields(image: EpicImage)
    requires Denormalised(image)
    ensures Transform(Fields(image)) == image
  {
  }

  /** `response.data.map(...)`: one image per item, in the same order. */
  function TransformAll(items: seq<EpicItem>): (images: seq<EpicImage>)
    ensures |images| == |items|
    ensures forall i :: 0 <= i < |images| ==> images[i] == Transform(items[i])
  {
    seq(|items|, i requires 0 <= i < |items| => Transform(items[i]))
  }

  /** `getEPICImages(date?)` with the outcome of the call. */
  function GetEpicImages(date: Option<string>, response: Outcome<seq<EpicItem>>): (call: Call<seq<EpicImage>>)
    ensures Truthy(date) && !ValidateDateFormat(date.value) ==>
      call == Call([], Err(ApiError(InvalidDateFormat, StatusBadRequest, true)))
    ensures !(Truthy(date) && !ValidateDateFormat(date.value)) ==>
      call.requests == [Get(NasaClient, EpicEndpoint(date), map[])]
    ensures call.requests != [] && response.Received? ==>
      call.result.Ok? && call.result.value.success && call.result.value.data.Some?
      && call.result.value.error.None?
      && |call.result.value.data.value| == |response.payload|
      && forall i :: 0 <= i < |response.payload| ==>
           Denormalised(call.result.value.data.value[i])
           && Fields(call.result.value.data.value[i]) == response.payload[i]
    ensures call.requests != [] && response.Received? ==>
      call.result == Ok(Success(TransformAll(response.payload)))
    ensures call.requests != [] && response.Failed? ==> call.result == Err(CatchAs(response.error, EpicError))
  {
    if Truthy(date) && !ValidateDateFormat(date.value) then
      Call([], Err(NewApiError(InvalidDateFormat, Some(StatusBadRequest), None)))
    else
      var request := Get(NasaClient, EpicEndpoint(date), map[]);
      match response
      case Received(items) => Call([request], Ok(Success(TransformAll(items))))
      case Failed(error) => Call([request], Err(CatchAs(error, EpicError)))
  }

  /** Without a date, or with an empty one, no date check applies and the
      most recent images are requested. */
  lemma NoDateMeansLatest(date: Option<string>, response: Outcome<seq<EpicItem>>)
    requires date == None || date == Some("")
    ensures GetEpicImages(date, response).requests == [Get(NasaClient, "/EPIC/api/natural", map[])]
  {
  }
}
