# Subway line-section chain

A model of the core of a subway line/station backend. A line owns an ordered list of sections.
Each section is an edge between two stations. Sections are appended at the end of the list.
Only the last section can be removed, and only by naming its down-station. The list of stations
a line serves is derived from its sections.

Modules:

- `Wrappers`: `Option` (a nullable reference), `Result` (a value or a thrown exception) and
  `Outcome` (a `void` call that returns or throws).
- `Lists`: the `java.util` behaviours the line relies on, `Stream.anyMatch` and
  `List.remove(Object)`. `remove(Object)` drops the *first* equal element. `IndexOf` pins down
  which position that is (src/main/java/subway/line/StationLine.java:81).
- `Models`: the immutable `Section` entity of `subway/models/Section.java`. It has a null-checking
  constructor and `getStations`.
- `StationLines`: the `StationLine` entity, as a class. Its `stationSections` field is a `seq`
  that the mutating methods update in place. The read-only queries and validators are functions
  that read the object.
- `SubwayLineService`: `findAllStations`, `lastSection` and `createSubwayLine` as pure functions.
  The station repository's `findById` is a parameter of type `int -> Option<Station>`.

Modelling decisions:

- The predicates `isExistSection`, `isConnectedSection` and `isMatchDownStation` belong to
  `StationSection`. src/main/java/subway/section/StationSection.java is not part of this model.
  The three predicates are arbitrary function values (`SectionRelations`), and every result
  holds for every choice of them.
- A `StationSection` carries a `key` that stands for object identity, plus the `downStation`
  that `deleteStationSection` reads.
- Stations are compared by reference (`!=`) in `deleteStationSection`. The model compares them as
  values.
- `getLastStationSection` calls `get(size - 1)`. On an empty list that throws
  `IndexOutOfBoundsException`, which the model returns as the error `IndexOutOfBounds`.
  So `validateDeleteSection` on an empty line fails with `IndexOutOfBounds`, not with the
  single-section error: `isSingleSection` is false for an empty list, so the last-section lookup
  runs.
- `deleteStationSection` compares the down-station directly. `validateDeleteSection` goes through
  `isMatchDownStation`. `ValidatedDeleteSucceeds` shows the two agree when `isMatchDownStation`
  is down-station equality.
- Connectivity on append is `anyMatch` over every registered section, not a check against the
  tail alone.
- `Section`'s constructor accepts any distance and a null down-station.
- The validators are separate from the mutators, as in the code. `addStationSection` and
  `deleteStationSection` do no duplicate, connection or single-section check of their own.

## Model

| member | source | states |
|---|---|---|
| `Lists.AnyMatch` | src/main/java/subway/line/StationLine.java:92-100 | true exactly when some element of the list satisfies the predicate |
| `Lists.IndexOf` | src/main/java/subway/line/StationLine.java:81 | the first position of the element, or the length when absent; no earlier position holds it |
| `Lists.RemoveFirst` | src/main/java/subway/line/StationLine.java:81 | removing by value leaves the list unchanged when the element is absent; otherwise it drops exactly the first occurrence and the length falls by one |
| `Lists.RemoveFirstOfUniqueLast` | src/main/java/subway/line/StationLine.java:80-81 | when the last section occurs nowhere earlier, removing it by value yields exactly the list without its tail |
| `Lists.RemoveFirstOfRepeatedLast` | src/main/java/subway/line/StationLine.java:80-81 | when the last section also occurs earlier, removing it by value drops the earlier copy and the tail stays in place |
| `Models.NewSection` | src/main/java/subway/models/Section.java:34-41 | succeeds exactly when distance, line and up-station are non-null; otherwise it fails naming the first null among them in parameter order; stores every field as given, including any distance and a null down-station |
| `Models.GetStations` | src/main/java/subway/models/Section.java:43-45 | a two-element list, the up-station first and the down-station second, which may be null |
| `Models.GetStationsOfNewSection` | src/main/java/subway/models/Section.java:43-45 | the stations of a constructed section are exactly `[upStation, downStation]` in that order, including a null down-station |
| `StationLines.StationLine.constructor` | src/main/java/subway/line/StationLine.java:39-43 | sets name, colour and distance; the section list starts empty |
| `StationLines.StationLine.SetName` | src/main/java/subway/line/StationLine.java:61-63 | changes only the name |
| `StationLines.StationLine.UpdateStationLine` | src/main/java/subway/line/StationLine.java:65-68 | sets name and colour from the request; sections and distance are untouched |
| `StationLines.StationLine.AddStationSection` | src/main/java/subway/line/StationLine.java:70-72 | the new section list is the old one with the given section appended; nothing else changes |
| `StationLines.StationLine.DeleteStationSection` | src/main/java/subway/line/StationLine.java:74-82 | fails with an index error on an empty line and with an invalid-target error when the station is not the last section's down-station, leaving the list unchanged; otherwise removes the first occurrence of the last section, shortening the list by one; when that section is unique the result is exactly the old prefix |
| `StationLines.StationLine.GetLastStationSection` | src/main/java/subway/line/StationLine.java:84-86 | fails exactly on an empty line; otherwise the line is its prefix followed by the returned section |
| `StationLines.StationLine.IsSingleSection` | src/main/java/subway/line/StationLine.java:88-90 | true exactly when the line consists of one section and nothing else |
| `StationLines.StationLine.IsExistSection` | src/main/java/subway/line/StationLine.java:92-95 | true exactly when some registered section reports the given one as already registered |
| `StationLines.StationLine.IsConnectedSection` | src/main/java/subway/line/StationLine.java:97-100 | true exactly when some registered section, anywhere in the line, reports a connection |
| `StationLines.StationLine.IsRemoveFinalSection` | src/main/java/subway/line/StationLine.java:102-104 | fails exactly on an empty line; otherwise it is the down-station match of the last section |
| `StationLines.StationLine.ValidateSaveSection` | src/main/java/subway/line/StationLine.java:106-114 | rejects as already registered exactly when some section reports a duplicate; else rejects as not connected exactly when no section reports a connection; passes exactly when there is no duplicate and at least one connection |
| `StationLines.StationLine.ValidateDeleteSection` | src/main/java/subway/line/StationLine.java:116-124 | rejects a single-section line before looking at the station; fails with an index error on an empty line; passes exactly when there are two or more sections and the last one's down-station matches |
| `StationLines.ValidatedDeleteSucceeds` | src/main/java/subway/line/StationLine.java:74-82 | when the down-station matcher agrees with the reference comparison, a removal that passed validation finds its target at the tail and leaves at least one section |
| `StationLines.AppendThenDelete` | src/main/java/subway/line/StationLine.java:70-82 | appending a new section and then deleting at its down-station succeeds and restores the original line |
| `SubwayLineService.UpStationIds` | src/main/java/nextstep/subway/applicaion/SubwayLineService.java:60-62 | one id per section, the up-station of each section in storage order |
| `SubwayLineService.LastSection` | src/main/java/nextstep/subway/applicaion/SubwayLineService.java:73-75 | fails exactly on an empty list; otherwise the list is its prefix followed by the returned section |
| `SubwayLineService.StationIds` | src/main/java/nextstep/subway/applicaion/SubwayLineService.java:59-64 | fails exactly on an empty list; otherwise has one more id than there are sections; entry i is the up-station of section i and the last entry is the down-station of the last section |
| `SubwayLineService.ResolveAll` | src/main/java/nextstep/subway/applicaion/SubwayLineService.java:66-70 | succeeds exactly when every id resolves, and then keeps order and length; otherwise fails with no-such-element |
| `SubwayLineService.FindAllStations` | src/main/java/nextstep/subway/applicaion/SubwayLineService.java:58-71 | fails with an index error on a line with no sections; succeeds exactly when every up-station and the last down-station resolve; then yields the resolved up-stations in order followed by the resolved final down-station |
| `SubwayLineService.CreateSubwayLine` | src/main/java/nextstep/subway/applicaion/SubwayLineService.java:28-32 | the new line holds exactly one section built from the request; the call succeeds exactly when both stations resolve, and its stations are then `[up, down]` |
| `SubwayLineService.StationIdsFollowChain` | src/main/java/nextstep/subway/applicaion/SubwayLineService.java:59-64 | on a connected chain, entry i + 1 of the derived ids is the down-station of section i |
| `SubwayLineService.UpStationIdsAppend` | src/main/java/nextstep/subway/applicaion/SubwayLineService.java:60-62 | mapping up-stations commutes with appending one section |
| `SubwayLineService.StationIdsAppendAtTail` | src/main/java/nextstep/subway/applicaion/SubwayLineService.java:59-64 | appending a section that starts at the chain's end extends the derived ids by exactly its down-station |
| `SubwayLineService.StationIdsRemoveTail` | src/main/java/nextstep/subway/applicaion/SubwayLineService.java:59-64 | on a chain of two or more sections whose last section starts where the one before it ends, dropping the last section drops exactly the last derived id |

## Left out

- The controllers, the REST tests, the repositories and the transaction boundaries are HTTP and
  storage wiring with no logic of their own. This includes the save/modify/delete/find methods of
  `SubwayLineService` other than `findAllStations`, `lastSection` and `createSubwayLine`.
- JPA mapping (cascade, orphan removal, lazy loading) and the generated `id` fields are framework
  behaviour. So are the JPA no-argument constructors and the plain getters of `StationLine`.
- `StationSection.remove()`, called at src/main/java/subway/line/StationLine.java:80: its body is
  not part of this model. Any effect it has on the section object is not modelled.
- The bodies of `StationSection`'s predicates are not part of this model. They are parameters
  (see above).
- In `nextstep.subway`, the classes `Section`, `SubwayLine` and `Station` are not part of this
  model. Neither are `SubwayLineRequest.toEntity` and the response DTO. They are datatypes with
  the getters the service uses.
- `CreateSubwayLine`: takes `toEntity(section)` to build a line whose section list is exactly
  `[section]` and whose name and colour are copied from the request, and takes the repository's
  `save` to return that line unchanged. `toEntity` is not part of this model.
- `StationLines.StationLine`: `distance` is an unbounded integer, not a 64-bit `long`. No
  operation does arithmetic on it.
- `StationLines.StationSection`: its `key` stands for object identity. That holds only if
  `StationSection` does not override `equals`, which `List.remove(Object)` uses; the class is not
  part of this model.
- Station identity is reference identity in Java. The model uses value equality of stations.
- Java concurrency and transactions: each operation is modelled as one atomic step.
