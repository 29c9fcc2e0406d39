/**
 * `StationLine` of package `subway.line`: a named, coloured line that owns an ordered list of
 * sections. Sections are appended at the end; only the last one may be removed.
 */
module StationLines {
  import opened Wrappers
  import opened Lists

  /** A station; Java compares stations by reference, modelled here as equality of ids. */
  datatype Station = Station(id: int)

  /**
   * A section of a station line. `key` stands for the object's identity, so two distinct section
   * objects are two distinct values; the only accessor the line uses is `getDownStation`.
   */
  datatype StationSection = StationSection(key: int, downStation: Station)

  /**
   * The predicates of `StationSection` that the line calls. Their bodies belong to a class that is
   * not part of this model, so every operation is verified for an arbitrary choice of them.
   * The first argument is the section the method is called on, the second its argument.
   */
  datatype SectionRelations = SectionRelations(
    isExistSection: (StationSection, StationSection) -> bool,
    isConnectedSection: (StationSection, StationSection) -> bool,
    isMatchDownStation: (StationSection, Station) -> bool)

  /** The name and colour carried by an update request. */
  datatype StationLineRequest = StationLineRequest(name: string, color: string)

  /** The exceptions the line throws: `IndexOutOfBoundsException` and four `IllegalArgumentException` messages. */
  datatype LineError =
    | IndexOutOfBounds     // get(size - 1) on an empty list
    | AlreadyRegistered    // the section is already registered
    | NotConnected         // the section does not connect to the line
    | NoSectionToDelete    // the line has a single section left
    | InvalidDeleteTarget  // the station is not the end of the line

  class StationLine {
    var name: string
    var color: string
    var stationSections: seq<StationSection>
    var distance: int

    /** A new line with no sections yet. */
    constructor (name: string, color: string, distance: int)
      ensures this.name == name && this.color == color && this.distance == distance
      ensures stationSections == []
    {
      this.name := name;
      this.color := color;
      this.distance := distance;
      stationSections := [];
    }

    method SetName(name: string)
      modifies this`name
      ensures this.name == name
      ensures color == old(color) && stationSections == old(stationSections) && distance == old(distance)
    {
      this.name := name;
    }

    /** Renames and recolours the line; its sections and distance stay as they were. */
    method UpdateStationLine(request: StationLineRequest)
      modifies this`name, this`color
      ensures name == request.name && color == request.color
      ensures stationSections == old(stationSections) && distance == old(distance)
    {
      name := request.name;
      color := request.color;
    }

    /** Appends a section at the end, without any validation of its own. */
    method AddStationSection(stationSection: StationSection)
      modifies this`stationSections
      ensures stationSections == old(stationSections) + [stationSection]
      ensures name == old(name) && color == old(color) && distance == old(distance)
    {
      stationSections := stationSections + [stationSection];
    }

    /**
     * Removes the last section when `station` is its down-station. The removal goes through
     * `List.remove(Object)`, which drops the first equal element; that is the last one whenever
     * it does not also occur earlier in the list. A failed call changes nothing.
     */
    method DeleteStationSection(station: Station) returns (outcome: Outcome<LineError>)
      modifies this`stationSections
      ensures old(stationSections) == [] ==> outcome == Fail(IndexOutOfBounds)
      ensures old(stationSections) != [] && old(stationSections)[|old(stationSections)| - 1].downStation != station
              ==> outcome == Fail(InvalidDeleteTarget)
      ensures outcome.Fail? ==> stationSections == old(stationSections)
      ensures outcome == Pass <==>
              (old(stationSections) != [] && old(stationSections)[|old(stationSections)| - 1].downStation == station)
      ensures outcome == Pass ==>
              stationSections == RemoveFirst(old(stationSections), old(stationSections)[|old(stationSections)| - 1])
      ensures outcome == Pass ==> |stationSections| == |old(stationSections)| - 1
      ensures outcome == Pass && old(stationSections)[|old(stationSections)| - 1] !in old(stationSections)[..|old(stationSections)| - 1]
              ==> stationSections == old(stationSections)[..|old(stationSections)| - 1]
    {
      var last := GetLastStationSection();
      if last.Err? {
        return Fail(last.error);
      }
      if last.value.downStation != station {
        return Fail(InvalidDeleteTarget);
      }
      if last.value !in stationSections[..|stationSections| - 1] {
        RemoveFirstOfUniqueLast(stationSections);
      }
      stationSections := RemoveFirst(stationSections, last.value);
      outcome := Pass;
    }

    /** The last section; `get(size - 1)` throws on an empty list. */
    function GetLastStationSection(): (r: Result<StationSection, LineError>)
      reads this
      ensures r.Err? <==> stationSections == []
      ensures r.Err? ==> r.error == IndexOutOfBounds
      ensures r.Ok? ==> stationSections == stationSections[..|stationSections| - 1] + [r.value]
    {
      if |stationSections| == 0 then Err(IndexOutOfBounds)
      else Ok(stationSections[|stationSections| - 1])
    }

    /** Whether the line consists of one section and nothing else. */
    function IsSingleSection(): (r: bool)
      reads this
      ensures r <==> (stationSections != [] && stationSections == [stationSections[0]])
    {
      |stationSections| == 1
    }

    /** Whether some registered section reports `stationSection` as already registered. */
    function IsExistSection(stationSection: StationSection, rel: SectionRelations): (r: bool)
      reads this
      ensures r <==> exists i :: 0 <= i < |stationSections| && rel.isExistSection(stationSections[i], stationSection)
    {
      AnyMatch(stationSections, section => rel.isExistSection(section, stationSection))
    }

    /** Whether some registered section, not necessarily the last, reports `stationSection` as connected to it. */
    function IsConnectedSection(stationSection: StationSection, rel: SectionRelations): (r: bool)
      reads this
      ensures r <==> exists i :: 0 <= i < |stationSections| && rel.isConnectedSection(stationSections[i], stationSection)
    {
      AnyMatch(stationSections, section => rel.isConnectedSection(section, stationSection))
    }

    /** Whether the last section's down-station matches `station`; fails on an empty line. */
    function IsRemoveFinalSection(station: Station, rel: SectionRelations): (r: Result<bool, LineError>)
      reads this
      ensures r.Err? <==> stationSections == []
      ensures r.Err? ==> r.error == IndexOutOfBounds
      ensures r.Ok? ==> r.value == rel.isMatchDownStation(stationSections[|stationSections| - 1], station)
    {
      var last := GetLastStationSection();
      if last.Err? then Err(last.error) else Ok(rel.isMatchDownStation(last.value, station))
    }

    /** The checks before an append: the duplicate check first, then the connection check. */
    function ValidateSaveSection(stationSection: StationSection, rel: SectionRelations): (r: Outcome<LineError>)
      reads this
      ensures r == Fail(AlreadyRegistered) <==>
              exists i :: 0 <= i < |stationSections| && rel.isExistSection(stationSections[i], stationSection)
      ensures r == Fail(NotConnected) <==>
              (forall i :: 0 <= i < |stationSections| ==> !rel.isExistSection(stationSections[i], stationSection)) &&
              (forall i :: 0 <= i < |stationSections| ==> !rel.isConnectedSection(stationSections[i], stationSection))
      ensures r == Pass <==>
              (forall i :: 0 <= i < |stationSections| ==> !rel.isExistSection(stationSections[i], stationSection)) &&
              (exists i :: 0 <= i < |stationSections| && rel.isConnectedSection(stationSections[i], stationSection))
    {
      if IsExistSection(stationSection, rel) then Fail(AlreadyRegistered)
      else if !IsConnectedSection(stationSection, rel) then Fail(NotConnected)
      else Pass
    }

    /**
     * The checks before a removal: a single-section line is refused before the target is looked at;
     * otherwise the target must match the last section's down-station. On an empty line the
     * single-section check passes and the lookup of the last section throws.
     */
    function ValidateDeleteSection(station: Station, rel: SectionRelations): (r: Outcome<LineError>)
      reads this
      ensures |stationSections| == 0 ==> r == Fail(IndexOutOfBounds)
      ensures |stationSections| == 1 ==> r == Fail(NoSectionToDelete)
      ensures r == Pass <==>
              |stationSections| > 1 && rel.isMatchDownStation(stationSections[|stationSections| - 1], station)
      ensures r == Fail(InvalidDeleteTarget) <==>
              |stationSections| > 1 && !rel.isMatchDownStation(stationSections[|stationSections| - 1], station)
    {
      if IsSingleSection() then Fail(NoSectionToDelete)
      else
        var isFinal := IsRemoveFinalSection(station, rel);
        if isFinal.Err? then Fail(isFinal.error)
        else if !isFinal.value then Fail(InvalidDeleteTarget)
        else Pass
    }
  }

  /** `isMatchDownStation` behaves like the reference comparison that `deleteStationSection` makes. */
  ghost predicate MatchesDownStation(rel: SectionRelations)
  {
    forall section, station :: rel.isMatchDownStation(section, station) <==> section.downStation == station
  }

  /**
   * With a down-station matcher that agrees with the comparison in `deleteStationSection`, a removal
   * that passed validation succeeds and leaves at least one section behind.
   */
  lemma ValidatedDeleteSucceeds(line: StationLine, station: Station, rel: SectionRelations)
    requires MatchesDownStation(rel)
    requires line.ValidateDeleteSection(station, rel) == Pass
    ensures |line.stationSections| > 1
    ensures line.stationSections[|line.stationSections| - 1].downStation == station
  {
  }

  /**
   * Appending a section that is not yet in the list and then deleting at its down-station gives
   * back the original line: the delete succeeds and removes exactly the appended section.
   */
  method AppendThenDelete(line: StationLine, section: StationSection) returns (outcome: Outcome<LineError>)
    requires section !in line.stationSections
    modifies line
    ensures outcome == Pass
    ensures line.stationSections == old(line.stationSections)
    ensures line.name == old(line.name) && line.color == old(line.color) && line.distance == old(line.distance)
  {
    line.AddStationSection(section);
    assert line.stationSections[..|line.stationSections| - 1] == old(line.stationSections);
    outcome := line.DeleteStationSection(section.downStation);
  }
}
