/** The immutable `Section` entity of package `subway.models`: one distance-weighted edge of a line. */
module Models {
  import opened Wrappers

  /** Java `Long`: a signed 64-bit integer. */
  newtype Long = x: int | -0x8000_0000_0000_0000 <= x < 0x8000_0000_0000_0000

  /** A reference to a persisted `Station` of this package, by its id. */
  datatype StationRef = StationRef(id: Long)

  /** A reference to the owning `Line` of this package, by its id. */
  datatype LineRef = LineRef(id: Long)

  /** The constructor parameters guarded by Lombok's `@NonNull`, in declaration order. */
  datatype NonNullParam = Distance | Line | UpStation

  /** Construction fails with a `NullPointerException` naming the first null guarded parameter. */
  datatype ConstructionError = NullPointer(param: NonNullParam)

  /**
   * A constructed section. Every field is set once by the constructor and there are no setters,
   * so a value of this type never changes. `downStation` may hold `null` (`None`).
   */
  datatype Section = Section(distance: Long, line: LineRef, upStation: StationRef, downStation: Option<StationRef>)

  /**
   * The builder-backed constructor. Lombok checks `distance`, `line` and `upStation` against null in
   * parameter order; `downStation` is not checked and `distance` is stored as given, of any sign.
   */
  function NewSection(distance: Option<Long>, line: Option<LineRef>, upStation: Option<StationRef>,
                      downStation: Option<StationRef>): (r: Result<Section, ConstructionError>)
    ensures r.Ok? <==> distance.Some? && line.Some? && upStation.Some?
    ensures r.Ok? ==> (r.value.distance == distance.value && r.value.line == line.value &&
                       r.value.upStation == upStation.value && r.value.downStation == downStation)
    ensures distance.None? ==> r == Err(NullPointer(Distance))
    ensures distance.Some? && line.None? ==> r == Err(NullPointer(Line))
    ensures distance.Some? && line.Some? && upStation.None? ==> r == Err(NullPointer(UpStation))
  {
    if distance.None? then Err(NullPointer(Distance))
    else if line.None? then Err(NullPointer(Line))
    else if upStation.None? then Err(NullPointer(UpStation))
    else Ok(Section(distance.value, line.value, upStation.value, downStation))
  }

  /** `getStations`: a fresh two-element list, up-station first and down-station second. */
  function GetStations(s: Section): (r: seq<Option<StationRef>>)
    ensures |r| == 2 && r[0] == Some(s.upStation) && r[1] == s.downStation
  {
    [Some(s.upStation), s.downStation]
  }

  /** The stations listed by a constructed section are exactly the two it was built from, nulls included. */
  lemma GetStationsOfNewSection(distance: Long, line: LineRef, upStation: StationRef, downStation: Option<StationRef>)
    ensures NewSection(Some(distance), Some(line), Some(upStation), downStation).Ok?
    ensures GetStations(NewSection(Some(distance), Some(line), Some(upStation), downStation).value)
         == [Some(upStation), downStation]
  {
  }
}
