/**
 * The read side of `SubwayLineService` in package `nextstep.subway.applicaion`: deriving a line's
 * ordered stations from its sections, and creating a line with its first section.
 */
module SubwayLineService {
  import opened Wrappers

  /** A persisted station. */
  datatype Station = Station(id: int, name: string)

  /** A section as this service sees it: the ids of its two stations and its distance. */
  datatype Section = Section(upStationId: int, downStationId: int, distance: int)

  /** A subway line with its sections in storage order. */
  datatype SubwayLine = SubwayLine(name: string, color: string, sectionList: seq<Section>)

  /** The fields of a creation request that the service reads. */
  datatype SubwayLineRequest = SubwayLineRequest(name: string, color: string, upStationId: int, downStationId: int, distance: int)

  /** The response: the saved line together with its ordered stations. */
  datatype SubwayLineResponse = SubwayLineResponse(line: SubwayLine, stations: seq<Station>)

  /** `IndexOutOfBoundsException` from `get(size - 1)`, and `NoSuchElementException` from a failed lookup. */
  datatype ServiceError = IndexOutOfBounds | NoSuchElement

  /** The station repository's `findById`: absent when no station has that id. */
  type StationLookup = int -> Option<Station>

  /** The up-station id of every section, in storage order. */
  function UpStationIds(sections: seq<Section>): (ids: seq<int>)
    ensures |ids| == |sections|
    ensures forall i :: 0 <= i < |sections| ==> ids[i] == sections[i].upStationId
  {
    if sections == [] then [] else [sections[0].upStationId] + UpStationIds(sections[1..])
  }

  /** `lastSection`: the last section; `get(size - 1)` throws on an empty list. */
  function LastSection(sections: seq<Section>): (r: Result<Section, ServiceError>)
    ensures r.Err? <==> sections == []
    ensures r.Err? ==> r.error == IndexOutOfBounds
    ensures r.Ok? ==> sections == sections[..|sections| - 1] + [r.value]
  {
    if |sections| == 0 then Err(IndexOutOfBounds) else Ok(sections[|sections| - 1])
  }

  /**
   * The id list `findAllStations` builds before its lookups: the up-station of every section in
   * storage order, then the down-station of the last section.
   */
  function StationIds(sections: seq<Section>): (r: Result<seq<int>, ServiceError>)
    ensures r.Err? <==> sections == []
    ensures r.Err? ==> r.error == IndexOutOfBounds
    ensures r.Ok? ==> |r.value| == |sections| + 1
    ensures r.Ok? ==> forall i :: 0 <= i < |sections| ==> r.value[i] == sections[i].upStationId
    ensures r.Ok? ==> r.value[0] == sections[0].upStationId
    ensures r.Ok? ==> r.value[|sections|] == sections[|sections| - 1].downStationId
  {
    var ids := UpStationIds(sections);
    var last := LastSection(sections);
    if last.Err? then Err(last.error) else Ok(ids + [last.value.downStationId])
  }

  /**
   * Looks up each id in order, keeping order and length; one id that does not resolve fails the
   * whole call with `NoSuchElement`.
   */
  function ResolveAll(ids: seq<int>, findById: StationLookup): (r: Result<seq<Station>, ServiceError>)
    ensures r.Ok? <==> forall i :: 0 <= i < |ids| ==> findById(ids[i]).Some?
    ensures r.Err? ==> r.error == NoSuchElement
    ensures r.Ok? ==> |r.value| == |ids|
    ensures r.Ok? ==> forall i :: 0 <= i < |ids| ==> r.value[i] == findById(ids[i]).value
  {
    if ids == [] then Ok([])
    else
      var head := findById(ids[0]);
      if head.None? then Err(NoSuchElement)
      else
        var rest := ResolveAll(ids[1..], findById);
        if rest.Err? then
          assert exists i :: 1 <= i < |ids| && findById(ids[i]).None? by {
            var j :| 0 <= j < |ids[1..]| && findById(ids[1..][j]).None?;
            assert findById(ids[j + 1]).None?;
          }
          Err(rest.error)
        else
          assert forall i :: 1 <= i < |ids| ==> ids[i] == ids[1..][i - 1];
          Ok([head.value] + rest.value)
  }

  /** `findAllStations`: the line's stations in order, resolved through the repository. */
  function FindAllStations(line: SubwayLine, findById: StationLookup): (r: Result<seq<Station>, ServiceError>)
    ensures line.sectionList == [] ==> r == Err(IndexOutOfBounds)
    ensures line.sectionList != [] && r.Err? ==> r.error == NoSuchElement
    ensures r.Ok? <==> (line.sectionList != [] &&
                        (forall i :: 0 <= i < |line.sectionList| ==> findById(line.sectionList[i].upStationId).Some?) &&
                        findById(line.sectionList[|line.sectionList| - 1].downStationId).Some?)
    ensures r.Ok? ==> |r.value| == |line.sectionList| + 1
    ensures r.Ok? ==> forall i :: 0 <= i < |line.sectionList| ==>
              r.value[i] == findById(line.sectionList[i].upStationId).value
    ensures r.Ok? ==> r.value[|line.sectionList|] == findById(line.sectionList[|line.sectionList| - 1].downStationId).value
  {
    var ids := StationIds(line.sectionList);
    if ids.Err? then Err(ids.error) else ResolveAll(ids.value, findById)
  }

  /**
   * `createSubwayLine`: a line holding exactly the one section built from the request, returned
   * with its stations. The repository's save is taken to return the line it was given.
   */
  function CreateSubwayLine(request: SubwayLineRequest, findById: StationLookup): (r: Result<SubwayLineResponse, ServiceError>)
    ensures r.Ok? <==> findById(request.upStationId).Some? && findById(request.downStationId).Some?
    ensures r.Err? ==> r.error == NoSuchElement
    ensures r.Ok? ==> r.value.line.sectionList == [Section(request.upStationId, request.downStationId, request.distance)]
    ensures r.Ok? ==> r.value.line.name == request.name && r.value.line.color == request.color
    ensures r.Ok? ==> r.value.stations == [findById(request.upStationId).value, findById(request.downStationId).value]
  {
    var section := Section(request.upStationId, request.downStationId, request.distance);
    var savedLine := SubwayLine(request.name, request.color, [section]);
    var stations := FindAllStations(savedLine, findById);
    if stations.Err? then Err(stations.error) else Ok(SubwayLineResponse(savedLine, stations.value))
  }

  /** Sections where each one starts at the station where the previous one ends. */
  predicate Connected(sections: seq<Section>)
  {
    forall i :: 0 <= i < |sections| - 1 ==> sections[i].downStationId == sections[i + 1].upStationId
  }

  /** On a connected chain the derived ids walk the path: entry `i + 1` is where section `i` ends. */
  lemma StationIdsFollowChain(sections: seq<Section>)
    requires sections != [] && Connected(sections)
    ensures forall i :: 0 <= i < |sections| ==> StationIds(sections).value[i + 1] == sections[i].downStationId
  {
  }

  /** Mapping commutes with appending one section. */
  lemma {:induction false} UpStationIdsAppend(sections: seq<Section>, section: Section)
    ensures UpStationIds(sections + [section]) == UpStationIds(sections) + [section.upStationId]
  {
    if sections != [] {
      assert (sections + [section])[1..] == sections[1..] + [section];
      UpStationIdsAppend(sections[1..], section);
    }
  }

  /**
   * Appending a section that starts where the chain ends extends the derived ids by exactly the
   * new section's down-station.
   */
  lemma StationIdsAppendAtTail(sections: seq<Section>, section: Section)
    requires sections != []
    requires section.upStationId == sections[|sections| - 1].downStationId
    ensures StationIds(sections + [section]) == Ok(StationIds(sections).value + [section.downStationId])
  {
    UpStationIdsAppend(sections, section);
  }

  /**
   * Dropping the last section of a chain of two or more, whose last section starts where the one
   * before it ends, drops exactly the last derived id.
   */
  lemma StationIdsRemoveTail(sections: seq<Section>)
    requires |sections| > 1
    requires sections[|sections| - 2].downStationId == sections[|sections| - 1].upStationId
    ensures StationIds(sections[..|sections| - 1]).value
         == StationIds(sections).value[..|sections|]
  {
    var prefix := sections[..|sections| - 1];
    assert sections == prefix + [sections[|sections| - 1]];
    StationIdsAppendAtTail(prefix, sections[|sections| - 1]);
  }
}
