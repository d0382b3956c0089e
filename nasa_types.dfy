/** The shapes of the NASA payloads and of the responses the services build
    (src/types/nasa.types.ts). Numeric measurements are carried as `real`
    values that nothing computes with; identifiers and counts as `int`. */
module NasaTypes {
  import opened Wrappers

  // ---------------------------------------------------------------------
  // Astronomy Picture of the Day

  /** `APODResponse`, also the shape of the upstream APOD payload. */
  datatype ApodResponse = ApodResponse(
    date: string, title: string, explanation: string, url: string,
    hdurl: Option<string>, media_type: string, copyright: Option<string>)

  // ---------------------------------------------------------------------
  // Near-Earth objects

  datatype DiameterRange = DiameterRange(estimated_diameter_min: real, estimated_diameter_max: real)

  datatype EstimatedDiameter = EstimatedDiameter(
    kilometers: DiameterRange, meters: DiameterRange, miles: DiameterRange, feet: DiameterRange)

  datatype RelativeVelocity = RelativeVelocity(
    kilometers_per_second: string, kilometers_per_hour: string, miles_per_hour: string)

  datatype MissDistance = MissDistance(astronomical: string, lunar: string, kilometers: string, miles: string)

  datatype CloseApproachData = CloseApproachData(
    close_approach_date: string, close_approach_date_full: string,
    epoch_date_close_approach: int, relative_velocity: RelativeVelocity,
    miss_distance: MissDistance, orbiting_body: string)

  /** One object as the upstream feed lists it. */
  datatype NasaNeoObject = NasaNeoObject(
    id: string, name: string, estimated_diameter: EstimatedDiameter,
    is_potentially_hazardous_asteroid: bool, close_approach_data: seq<CloseApproachData>)

  /** One key of the upstream date map, with the objects listed under it. */
  datatype NasaNeoDay = NasaNeoDay(date: string, objects: seq<NasaNeoObject>)

  /** The upstream feed: its date map as the sequence of its entries in key
      order, and its element count. */
  datatype NasaNeoFeed = NasaNeoFeed(near_earth_objects: seq<NasaNeoDay>, element_count: int)

  /** `NearEarthObject`. `close_approach_data` is None where the upstream list
      was empty (the unchecked `[0]!` then yields `undefined`). */
  datatype NearEarthObject = NearEarthObject(
    id: string, name: string, estimated_diameter: EstimatedDiameter,
    is_potentially_hazardous: bool, close_approach_data: Option<CloseApproachData>)

  /** `NEODateData` */
  datatype NeoDateData = NeoDateData(date: string, count: int, objects: seq<NearEarthObject>)

  /** `NEOResponse` */
  datatype NeoResponse = NeoResponse(element_count: int, near_earth_objects: seq<NeoDateData>)

  // ---------------------------------------------------------------------
  // Mars Rover photos

  datatype MarsRoverCamera = MarsRoverCamera(id: int, name: string, rover_id: int, full_name: string)

  datatype MarsRover = MarsRover(
    id: int, name: string, landing_date: string, launch_date: string, status: string,
    max_sol: int, max_date: string, total_photos: int, cameras: seq<MarsRoverCamera>)

  datatype MarsRoverPhoto = MarsRoverPhoto(
    id: int, sol: int, camera: MarsRoverCamera, img_src: string, earth_date: string, rover: MarsRover)

  /** `MarsRoverPhotosResponse` */
  datatype MarsRoverPhotosResponse = MarsRoverPhotosResponse(photos: seq<MarsRoverPhoto>)

  /** The part of a rover manifest the service reads: `photo_manifest.max_date`. */
  datatype PhotoManifest = PhotoManifest(max_date: string)
  datatype ManifestResponse = ManifestResponse(photo_manifest: PhotoManifest)

  // ---------------------------------------------------------------------
  // EPIC

  datatype EpicCoordinates = EpicCoordinates(lat: real, lon: real)

  datatype EpicPosition = EpicPosition(x: real, y: real, z: real)

  datatype EpicQuaternions = EpicQuaternions(q0: real, q1: real, q2: real, q3: real)

  /** One item of the upstream EPIC list: the fields the service reads. */
  datatype EpicItem = EpicItem(
    identifier: string, caption: string, image: string, version: string,
    centroid_coordinates: EpicCoordinates, dscovr_j2000_position: EpicPosition,
    lunar_j2000_position: EpicPosition, sun_j2000_position: EpicPosition,
    attitude_quaternions: EpicQuaternions, date: string)

  datatype EpicCoords = EpicCoords(centroid_coordinates: EpicCoordinates)

  /** `EPICImage`: the upstream fields plus the denormalised `coords`. */
  datatype EpicImage = EpicImage(
    identifier: string, caption: string, image: string, version: string,
    centroid_coordinates: EpicCoordinates, dscovr_j2000_position: EpicPosition,
    lunar_j2000_position: EpicPosition, sun_j2000_position: EpicPosition,
    attitude_quaternions: EpicQuaternions, date: string, coords: EpicCoords)

  // ---------------------------------------------------------------------
  // NASA Image and Video Library

  datatype ImageLibraryData = ImageLibraryData(
    nasa_id: string, title: string, description: string, media_type: string,
    date_created: string, center: string, keywords: Option<seq<string>>,
    description_508: Option<string>, secondary_creator: Option<string>, photographer: Option<string>)

  datatype ImageLibraryLink = ImageLibraryLink(href: string, rel: string, render: Option<string>)

  datatype ImageLibraryItem = ImageLibraryItem(
    href: string, data: seq<ImageLibraryData>, links: Option<seq<ImageLibraryLink>>)

  datatype CollectionLink = CollectionLink(rel: string, prompt: string, href: string)

  datatype ImageLibraryCollection = ImageLibraryCollection(
    version: string, href: string, items: seq<ImageLibraryItem>, total_hits: int,
    links: Option<seq<CollectionLink>>)

  /** `NASAImageLibraryResponse` */
  datatype ImageLibraryResponse = ImageLibraryResponse(collection: ImageLibraryCollection)
}
