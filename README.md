# Board snapshot model

This project models the board `Snapshot` of git-bug's board entity. A snapshot is the materialised state of one board. It holds the board's id, title, description and creation time. It holds an ordered list of columns; each column has a local id, a global `CombinedId`, a name and an ordered list of items. It also holds an insertion-ordered, de-duplicated list of participants and the list of operations replayed to build it.

`Board.Snapshot` is a class whose fields are sequences. The methods that change it (`AppendOperation`, `AddParticipant`) name the one field they may modify, and their postconditions give its new value in terms of the old one. The read-only methods keep the source's loops: `SearchColumn`, `HasParticipant` and `HasAnyParticipant` return early on the first match, and `ItemCount` keeps a running sum. `HasParticipant` and `HasAnyParticipant` are proved against the predicate `HasParticipantId`, `AddParticipant` against `WithParticipant` and `DistinctIds`, and `ItemCount` against `TotalItems`; `SearchColumn` states its result directly with quantifiers over the columns. Lemmas about those functions give the properties that need several steps.

The foreign types are reduced to what the file uses:
- `entity.Id` and `entity.CombinedId` are strings.
- An identity is its `Id()`.
- A `dag.Operation` is its `Time()`, an integer.
- An `Item` is its `CombinedId()`.
- `time.Unix(0, 0)` is the integer 0 (`Epoch`).

The panic in `Id()` becomes a precondition. The constructor cannot build a snapshot without an id. `Valid()` is the object invariant: the id is set and no two participants share an id. The constructor establishes it, and every changing method preserves it.

## Model

| member | source | states |
|---|---|---|
| `Board.Snapshot.constructor` | entities/board/snapshot.go:29-39 | a snapshot can only be built with a non-empty id; it starts with the given title, description, columns and creation time, no participant and no operation, and satisfies `Valid()` |
| `Board.Snapshot.Id` | entities/board/snapshot.go:41-48 | callable only when an id was set (the panic becomes the precondition); the returned id is non-empty and is the snapshot's id |
| `Board.Snapshot.AllOperations` | entities/board/snapshot.go:50-52 | returns the replayed operations as stored, in order |
| `Board.Snapshot.AppendOperation` | entities/board/snapshot.go:54-56 | operations become the old sequence followed by `op`; id, title, description, columns, participants and creation time are unchanged; the edit time afterwards is `op`'s time; `Valid()` is preserved |
| `Board.Snapshot.EditTime` | entities/board/snapshot.go:58-65 | the epoch (0) when there is no operation, otherwise the time of the last operation |
| `Board.Snapshot.SearchColumn` | entities/board/snapshot.go:67-76 | fails with ColumnNotFound exactly when no column has the given CombinedId; otherwise returns the column at the lowest index whose CombinedId matches |
| `Board.Snapshot.AddParticipant` | entities/board/snapshot.go:78-87 | leaves participants unchanged when one with the same id exists, otherwise appends `p` at the end; `p`'s id is present afterwards; the ids present are exactly the old ones plus `p`'s; distinct ids are preserved; earlier entries keep their order |
| `Board.WithParticipantHas` | entities/board/snapshot.go:78-87 | after an add-if-absent of `p`, an id is present iff it was present before or is `p`'s id |
| `Board.WithParticipantDistinct` | entities/board/snapshot.go:78-87 | an add-if-absent keeps participant ids pairwise distinct; the ids are distinct afterwards only if they were distinct before |
| `Board.WithParticipantIdempotent` | entities/board/snapshot.go:78-87 | adding the same participant twice gives the same list as adding it once |
| `Board.Snapshot.HasParticipant` | entities/board/snapshot.go:89-97 | true iff some participant has the given id; reads the snapshot without changing it |
| `Board.Snapshot.HasAnyParticipant` | entities/board/snapshot.go:99-107 | true iff some id in the list is a participant's id; false for an empty list |
| `Board.Snapshot.ItemCount` | entities/board/snapshot.go:109-115 | equals the sum over the columns of their item-list lengths; non-negative; 0 when there are no columns |
| `Board.TotalItemsConcat` | entities/board/snapshot.go:109-115 | the item count of two column lists joined end to end is the sum of their counts |
| `Board.TotalItemsZero` | entities/board/snapshot.go:109-115 | the count is 0 exactly when every column has no items |
| `Board.TotalItemsCountsEach` | entities/board/snapshot.go:109-115 | each column's items are at most the total count |

## Left out

- `IsAuthored` (entities/board/snapshot.go:118): an empty marker method for gqlgen, with no behaviour.
- Column pointers: the source holds `[]*Column` and `SearchColumn` returns a pointer. No method in this file changes a column, so columns are values here; aliasing between the returned column and the snapshot is not modelled.
- Nil entries: a nil column, participant or operation in the source's slices makes `SearchColumn`, `ItemCount`, `addParticipant`, `HasParticipant` or `EditTime` panic when it is dereferenced. The value datatypes here cannot be nil, so these entries and their panics are not modelled.
- `AllOperations`, `AppendOperation` and `AddParticipant` work on Dafny sequence values. In the source, `AllOperations` returns the snapshot's own backing slice, so a caller's writes to its elements change the snapshot. `append` may also grow that slice in place. This slice aliasing is not modelled.
- Identities and operations are opaque foreign interfaces. Only `Id()` and `Time()` are kept.
- Time is an integer. Wall-clock and time-zone semantics of `time.Time` are not modelled.
- `ItemCount` returns an unbounded integer. Go's `int` is 32 or 64 bits wide depending on the platform; the wrap-around past 2^31−1 (or 2^63−1) items is not modelled.
- The error text of `SearchColumn` ("column not found") becomes the `ColumnNotFound` error value.
- Replay, merge, causal ordering and CombinedId encoding/decoding are not part of this model: their code is not among the files modelled.
- commands/board/board_adddraft.go is command-line plumbing and is not part of this model. It covers flag setup, backend loading, editor and file input, printing, and calls to `AddItemDraft` and `Commit`, whose bodies are not shown.
