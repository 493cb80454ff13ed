# Lazy operations and revision retrieval of the RavenDB Go client

This project models two pieces of session logic of the RavenDB Go client and
proves what they promise.

- `lazy.dfy`, module `LazyOperation`: the lazy operation `Lazy`. It holds a
  caller-supplied result holder, a factory, a `valueCreated` flag and a stored
  error. `GetValue` runs the factory at most once (for a factory that returns)
  and then keeps returning the stored outcome. An error given at construction
  short-circuits everything.
  The object is a class (`LazyOperation.Lazy`) with the source's fields plus a
  ghost count of factory runs. Its methods are tied to a pure state machine
  (`Evaluate` for one call, `Run` for `n` consecutive calls), and the lemmas
  state the promises over any number of calls.
- `get_revision_operation.dfy`, module `Revisions`: `GetRevisionOperation`,
  which turns the documents a revisions request returned into entities. Each
  entity is recorded in the session's `documentsByEntity` identity map.
  The operation can also produce metadata-only views, take slot 0 alone, or
  key the entities by the requested change vectors. The session is a class
  whose `documentsByEntity` map field the operation updates in place. The
  operation's methods are proved against pure functions (`Track`, `TrackAll`,
  `Selected`, `ByChangeVector`), and the lemmas state what those functions do.
- `json.dfy`, module `Json`: JSON values, and the model's reading of the text
  accessors the operation calls. `wrappers.dfy`: an `Option` type, where
  `None` stands for Go's `nil`.

The entity type is a type parameter `E`. Entities are keys of the identity
map, as Go uses the entity itself as the map key. The converter
(`convertToEntity`) and `Defaults_defaultValue` are function values held by
the session (`Revisions.Converter`).

The model follows the code in these details:
- `getRevision` overwrites the identity-map entry unconditionally. It has no
  identity-conflict check.
- It maintains no reverse index (`documentsById` is not touched).
- It registers a document without `@metadata` under the id `""`.
- In `getRevisionsMetadataFor`, a slot with no `@metadata` yields a view over
  nil metadata.

## Model

| member | source | states |
|---|---|---|
| `LazyOperation.Lazy.constructor` | lazy.go:19-25 | `newLazy` stores the holder, the factory and the construction error; nothing is created and the factory has not run |
| `LazyOperation.Lazy.IsValueCreated` | lazy.go:28-36 | reports `valueCreated`, but false whenever an error is stored; changes no field |
| `LazyOperation.Lazy.GetValue` | lazy.go:40-55 | one call is one step of `Evaluate`: it returns the stored error when there is one or the value is created, and otherwise runs the factory on the holder, stores its error and sets the flag. The ghost run counter stays at most 1 |
| `LazyOperation.Evaluate` | lazy.go:40-55 | the factory runs exactly when no error is stored and the flag is unset. A call that does not run it changes nothing. Every call leaves a settled state and returns the error it stores. `valueCreated` never goes from true to false |
| `LazyOperation.Run` | lazy.go:40-55 | `n` consecutive calls yield `n` returned errors |
| `LazyOperation.SettledIsStable` | lazy.go:41-43 | once an error is stored or the flag is set, any number of further calls change no field, never run the factory and all return the stored error |
| `LazyOperation.FactoryRunsAtMostOnce` | lazy.go:41-52 | from any state, over any number of calls, the factory runs at most once, and never from a settled state |
| `LazyOperation.ConstructionErrorShortCircuits` | lazy.go:29-31 | built with an error, every call returns exactly that error; the factory never runs, the holder is untouched and `IsValueCreated` stays false |
| `LazyOperation.FirstCallDecides` | lazy.go:47-54 | built without an error, the first call runs the factory once on the holder and returns its error, and every later call returns the same error. The value counts as created exactly when that error is nil, so a failed evaluation leaves `IsValueCreated` false forever |
| `LazyOperation.ValueCreatedIsMonotone` | lazy.go:47-52 | if `valueCreated` (or `IsValueCreated`) holds after `i` calls, it holds after every later number of calls |
| `Revisions.GetRevisionOperation.Range` | get_revision_operation.go:12-20 | requires a non-nil session and a non-empty id; stores the session and a range command built from id, start, page size and the metadata-only flag, with no change vectors |
| `Revisions.GetRevisionOperation.CreateRequest` | get_revision_operation.go:21-23 | returns the command stored at construction |
| `Revisions.GetRevisionOperation.SetResult` | get_revision_operation.go:25-27 | attaches the result, nil included: afterwards the operation holds exactly the given result or none |
| `Revisions.MetadataOf` | get_revision_operation.go:35-39 | a slot has metadata exactly when it is a document with an `@metadata` key, and the metadata is the object stored there |
| `Revisions.GetRevisionOperation.GetRevision` | get_revision_operation.go:29-55 | returns the slot's entity and leaves `documentsByEntity` as `Track` of the old map |
| `Revisions.NilSlotIsNotTracked` | get_revision_operation.go:29-32 | a nil document converts to the type's zero value and leaves the identity map unchanged |
| `Revisions.DocumentIsTracked` | get_revision_operation.go:35-53 | the entity is the converter's output for the metadata id and the document. Afterwards it is a key of the map, with a record holding that id, the metadata's change vector, the document, the metadata and the entity. Every other entry is unchanged and no other key appears |
| `Revisions.DocumentWithoutMetadata` | get_revision_operation.go:35-45 | a document without `@metadata` is converted with id `""` and tracked with id `""`, no change vector and no metadata |
| `Revisions.RetrackReplaces` | get_revision_operation.go:53 | tracking the same entity twice keeps one entry, holding the later document's record |
| `Revisions.GetRevisionOperation.GetRevisionsFor` | get_revision_operation.go:57-66 | returns one entity per slot, in order, each the conversion of its slot; the map becomes `TrackAll` of the slots applied in order |
| `Revisions.TrackAllKeys` | get_revision_operation.go:57-66 | after converting every slot, the tracked entities are the old ones plus the entities of the non-nil slots |
| `Revisions.TrackAllLeavesOthers` | get_revision_operation.go:57-66 | an entity that no slot converts to keeps its old record, or stays absent |
| `Revisions.TrackAllLastWins` | get_revision_operation.go:57-66 | an entity's record comes from the last slot that converts to it |
| `Revisions.NullSafeMaterialization` | get_revision_operation.go:57-66 | the slots `[doc, nil, doc2]` register exactly the entities of `doc` and `doc2` |
| `Revisions.GetRevisionOperation.GetRevisionsMetadataFor` | get_revision_operation.go:68-81 | returns one view per slot, in order, over that slot's `@metadata` object, or over nil when it has none; nothing is converted and the session is not modified |
| `Revisions.MetadataOnlyExtraction` | get_revision_operation.go:68-81 | the view of `{"@metadata": {"@id": "orders/1", "@change-vector": "A:1"}, "Name": "x"}` exposes id `orders/1` and change vector `A:1` |
| `Revisions.GetRevisionOperation.GetRevision2` | get_revision_operation.go:83-90 | with no result attached: the zero value and an unchanged map. Otherwise it requires a slot 0 and behaves as `getRevision` of slot 0 |
| `Revisions.GetRevisionOperation.GetRevisions` | get_revision_operation.go:92-109 | requires a slot for every non-empty requested change vector. Returns `ByChangeVector`; the map becomes `TrackAll` of the selected slots only |
| `Revisions.ByChangeVectorKeys` | get_revision_operation.go:92-109 | the result's keys are exactly the non-empty requested change vectors, so `""` is never a key |
| `Revisions.ByChangeVectorValue` | get_revision_operation.go:97-105 | a requested change vector maps to the conversion of the slot at its position (its last position when repeated) |
| `Revisions.EmptyChangeVectorsConvertNothing` | get_revision_operation.go:97-99 | with only empty requested change vectors nothing is selected, even with no result attached |
| `Revisions.EmptyPositionsIgnored` | get_revision_operation.go:97-103 | a slot at an empty requested change vector is never read: two slot sequences that agree at the non-empty positions give the same selected slots and the same result map |
| `Revisions.SelectedTouched` | get_revision_operation.go:97-104 | the entities among the converted slots are exactly those of the non-nil slots at non-empty requested change vectors |
| `Revisions.RequestedSlotsTracked` | get_revision_operation.go:92-109 | after `getRevisions`, the tracked entities are the old ones plus the entities of the non-nil slots at non-empty requested change vectors |
| `Revisions.AlignmentSelects` | get_revision_operation.go:95-103 | the request `["", "cv-1", "cv-2"]` selects exactly the slots at positions 1 and 2, in order |
| `Revisions.ChangeVectorAlignment` | get_revision_operation.go:92-109 | the request `["", "cv-1", "cv-2"]` against `[anything, docA, nil]` gives exactly `cv-1` to docA's entity and `cv-2` to the zero value; only docA's entity is tracked |

## Left out

- The `sync.Mutex` of `Lazy`: calls are modelled one after another. Concurrent callers that block on the lock and then see the cached outcome are not modelled.
- The result holder of `Lazy` is an `interface{}` the factory writes through. It is modelled as a value the factory maps to a new value. Aliasing of the holder by the caller is not modelled.
- `convertToEntity`, `Defaults_defaultValue` and the `reflect.Type` argument are modelled as function values and a type name. In Go, each conversion allocates a fresh entity, so two equal documents in one result become two distinct map keys. In the model, equal inputs give equal entities, so such documents collapse to one key and the later one's record wins. `TrackAllKeys`, `TrackAllLastWins` and `NullSafeMaterialization` match Go's behaviour only when the converted documents (with their ids) differ.
- The Go bodies of `jsonGetAsText` and `jsonGetAsTextPointer` are not part of this model. `Json.JsonGetAsText` and `Json.JsonGetAsTextPointer` read them as the string stored under the key, else `""` / nil.
- `GetValue`: the factory is modelled as a function that always returns. A Go factory that panics, or a nil factory, leaves `valueCreated` false, so after a recovered panic the next `GetValue` runs the factory again. At-most-once (`FactoryRunsAtMostOnce`) is proved only for factories that return.
- `GetRevisionsCommand` and `NewGetRevisionsCommandRange` are not part of this model. The command is represented by its construction parameters. Its change-vector list is empty for a range request. The change-vector form that `getRevisions` is meant for is built by a constructor that is not part of this model.
- `MetadataAsDictionary` internals (`NewMetadataAsDictionary`) are not part of this model. A view is represented by the metadata object it wraps, with a nil parent and an empty parent key.
- `DocumentInfo` is a pointer in Go and a value here. Nothing in this code mutates a record after storing it.
- Go panics become preconditions:
  - a nil session or an empty id (get_revision_operation.go:13-14);
  - an `@metadata` value that is not an object (the type assertion at get_revision_operation.go:38 and 76);
  - a nil result in `getRevisionsFor`, `getRevisionsMetadataFor`, and `getRevisions` when a non-empty change vector needs a slot;
  - a missing slot 0 (get_revision_operation.go:88) or slot `i` (get_revision_operation.go:103).
- advanced_session_extention_base.go (a constructor that copies session references, and `deferMany` forwarding to the session), the example program and the TCP-info integration test are not part of this model. They contain no logic of the operations modelled here.
