/** Turning the documents a revisions request returned into entities tracked
    by the session, or into metadata-only views. */
module Revisions {
  import opened Wrappers
  import opened Json

  /** Reserved keys of a stored document and of its metadata. */
  const MetadataKey := "@metadata"
  const MetadataId := "@id"
  const MetadataChangeVector := "@change-vector"

  /** The runtime type an entity is requested as (`reflect.Type`). */
  datatype Clazz = Clazz(name: string)

  /** The conversions the operation calls but does not define:
      `convertToEntity` of the session's entity-to-JSON helper, and
      `Defaults_defaultValue`, the zero value of a type. */
  datatype Converter<E> = Converter(convertToEntity: (Clazz, string, ObjectNode) -> E,
                                    defaultValue: Clazz -> E)

  /** What the session remembers about a tracked entity. */
  datatype DocumentInfo<E> = DocumentInfo(id: string, changeVector: Option<string>,
                                          document: ObjectNode, metadata: Option<ObjectNode>,
                                          entity: E)

  /** A read view over a document's metadata, built with no parent and an empty parent key. */
  datatype MetadataAsDictionary = MetadataAsDictionary(metadata: Option<ObjectNode>)

  /** The request the operation hands to the request executor, described by
      its construction parameters. */
  datatype GetRevisionsCommand =
    | RangeCommand(id: string, start: int, pageSize: int, metadataOnly: bool)
    | ChangeVectorsCommand(changeVectors: seq<string>)
  {
    /** `getChangeVectors`: the requested change vectors; none for a range request. */
    function ChangeVectors(): seq<string>
    {
      if ChangeVectorsCommand? then changeVectors else []
    }
  }

  /** The type assertion on `@metadata` succeeds. */
  predicate MetadataIsObject(doc: ObjectNode)
  {
    MetadataKey in doc ==> doc[MetadataKey].Object?
  }

  /** A result slot (nil or a document) that can be read without a panic. */
  predicate SlotIsReadable(slot: Option<ObjectNode>)
  {
    slot.Some? ==> MetadataIsObject(slot.value)
  }

  predicate SlotsAreReadable(slots: seq<Option<ObjectNode>>)
  {
    forall i :: 0 <= i < |slots| ==> SlotIsReadable(slots[i])
  }

  /** The metadata sub-object of a slot, nil for a nil slot or a missing key. */
  function MetadataOf(slot: Option<ObjectNode>): (metadata: Option<ObjectNode>)
    requires SlotIsReadable(slot)
    ensures metadata.Some? <==> slot.Some? && MetadataKey in slot.value
    ensures metadata.Some? ==> slot.value[MetadataKey] == Object(metadata.value)
  {
    if slot.Some? && MetadataKey in slot.value then Some(slot.value[MetadataKey].fields) else None
  }

  /** The id a document is registered under: its metadata's `@id`, "" without metadata. */
  function IdOf(doc: ObjectNode): string
    requires MetadataIsObject(doc)
  {
    if MetadataKey in doc then JsonGetAsText(MetadataOf(Some(doc)).value, MetadataId) else ""
  }

  /** The change vector a document is registered with: nil without metadata. */
  function ChangeVectorOf(doc: ObjectNode): Option<string>
    requires MetadataIsObject(doc)
  {
    match MetadataOf(Some(doc))
    case None => None
    case Some(metadata) => JsonGetAsTextPointer(metadata, MetadataChangeVector)
  }

  /** The entity `getRevision` returns for a slot. */
  function EntityFor<E>(conv: Converter<E>, clazz: Clazz, slot: Option<ObjectNode>): E
    requires SlotIsReadable(slot)
  {
    match slot
    case None => conv.defaultValue(clazz)
    case Some(doc) => conv.convertToEntity(clazz, IdOf(doc), doc)
  }

  /** The record `getRevision` stores for a non-nil document. */
  function InfoFor<E>(doc: ObjectNode, entity: E): DocumentInfo<E>
    requires MetadataIsObject(doc)
  {
    DocumentInfo(IdOf(doc), ChangeVectorOf(doc), doc, MetadataOf(Some(doc)), entity)
  }

  /** `documentsByEntity` after `getRevision` of one slot. */
  function Track<E>(tracked: map<E, DocumentInfo<E>>, conv: Converter<E>, clazz: Clazz,
                    slot: Option<ObjectNode>): map<E, DocumentInfo<E>>
    requires SlotIsReadable(slot)
  {
    match slot
    case None => tracked
    case Some(doc) => tracked[EntityFor(conv, clazz, slot) := InfoFor(doc, EntityFor(conv, clazz, slot))]
  }

  /** `documentsByEntity` after `getRevision` of every slot, in order. */
  function TrackAll<E>(tracked: map<E, DocumentInfo<E>>, conv: Converter<E>, clazz: Clazz,
                       slots: seq<Option<ObjectNode>>): map<E, DocumentInfo<E>>
    requires SlotsAreReadable(slots)
    decreases |slots|
  {
    if slots == [] then tracked
    else
      var n := |slots| - 1;
      assert SlotsAreReadable(slots[..n]) by {
        forall i | 0 <= i < n ensures SlotIsReadable(slots[..n][i]) {
          assert slots[..n][i] == slots[i];
        }
      }
      Track(TrackAll(tracked, conv, clazz, slots[..n]), conv, clazz, slots[n])
  }

  /** The entities of the non-nil slots: those `TrackAll` registers. */
  function Touched<E>(conv: Converter<E>, clazz: Clazz, slots: seq<Option<ObjectNode>>): set<E>
    requires SlotsAreReadable(slots)
  {
    set i | 0 <= i < |slots| && slots[i].Some? :: EntityFor(conv, clazz, slots[i])
  }

  /** Every requested change vector that is not empty has a readable slot. */
  predicate CoversRequested(changeVectors: seq<string>, slots: seq<Option<ObjectNode>>)
  {
    forall i :: 0 <= i < |changeVectors| && changeVectors[i] != "" ==>
      i < |slots| && SlotIsReadable(slots[i])
  }

  lemma CoversPrefix(changeVectors: seq<string>, slots: seq<Option<ObjectNode>>, n: nat)
    requires n <= |changeVectors|
    requires CoversRequested(changeVectors, slots)
    ensures CoversRequested(changeVectors[..n], slots)
  {
    forall i | 0 <= i < n && changeVectors[..n][i] != ""
      ensures i < |slots| && SlotIsReadable(slots[i])
    {
      assert changeVectors[..n][i] == changeVectors[i];
    }
  }

  /** The slots `getRevisions` converts: those whose requested change vector is not empty, in order. */
  function Selected(changeVectors: seq<string>, slots: seq<Option<ObjectNode>>): (selected: seq<Option<ObjectNode>>)
    requires CoversRequested(changeVectors, slots)
    ensures SlotsAreReadable(selected)
    decreases |changeVectors|
  {
    if changeVectors == [] then []
    else
      var n := |changeVectors| - 1;
      CoversPrefix(changeVectors, slots, n);
      Selected(changeVectors[..n], slots) + if changeVectors[n] == "" then [] else [slots[n]]
  }

  /** The map `getRevisions` returns: each non-empty requested change vector
      to the entity of its slot, a later duplicate overwriting an earlier one. */
  function ByChangeVector<E>(conv: Converter<E>, clazz: Clazz, changeVectors: seq<string>,
                             slots: seq<Option<ObjectNode>>): map<string, E>
    requires CoversRequested(changeVectors, slots)
    decreases |changeVectors|
  {
    if changeVectors == [] then map[]
    else
      var n := |changeVectors| - 1;
      CoversPrefix(changeVectors, slots, n);
      var earlier := ByChangeVector(conv, clazz, changeVectors[..n], slots);
      if changeVectors[n] == "" then earlier else earlier[changeVectors[n] := EntityFor(conv, clazz, slots[n])]
  }

  /** The change vectors `getRevisions` keys its result by. */
  function Requested(changeVectors: seq<string>): set<string>
  {
    set i | 0 <= i < |changeVectors| && changeVectors[i] != "" :: changeVectors[i]
  }

  // ---------------------------------------------------------------------
  // Properties of one conversion

  /** A nil slot converts to the type's zero value and leaves the map as it was. */
  lemma NilSlotIsNotTracked<E>(tracked: map<E, DocumentInfo<E>>, conv: Converter<E>, clazz: Clazz)
    ensures EntityFor(conv, clazz, None) == conv.defaultValue(clazz)
    ensures Track(tracked, conv, clazz, None) == tracked
  {
  }

  /** A non-nil document's entity is tracked afterwards, under a record that
      holds the metadata's id and change vector, the document, its metadata
      and the entity; every other entry is left as it was. */
  lemma DocumentIsTracked<E>(tracked: map<E, DocumentInfo<E>>, conv: Converter<E>, clazz: Clazz, doc: ObjectNode)
    requires MetadataIsObject(doc)
    ensures var e := EntityFor(conv, clazz, Some(doc));
      var after := Track(tracked, conv, clazz, Some(doc));
      && e == conv.convertToEntity(clazz, IdOf(doc), doc)
      && e in after
      && after[e].entity == e
      && after[e].document == doc
      && after[e].metadata == MetadataOf(Some(doc))
      && (MetadataKey in doc ==> after[e].id == JsonGetAsText(doc[MetadataKey].fields, MetadataId))
      && (MetadataKey in doc ==> after[e].changeVector == JsonGetAsTextPointer(doc[MetadataKey].fields, MetadataChangeVector))
      && after.Keys == tracked.Keys + {e}
      && forall k :: k in tracked && k != e ==> after[k] == tracked[k]
  {
  }

  /** Without `@metadata` a document is still tracked, under the id "" and no change vector. */
  lemma DocumentWithoutMetadata<E>(tracked: map<E, DocumentInfo<E>>, conv: Converter<E>, clazz: Clazz, doc: ObjectNode)
    requires MetadataKey !in doc
    ensures var e := EntityFor(conv, clazz, Some(doc));
      var after := Track(tracked, conv, clazz, Some(doc));
      && e == conv.convertToEntity(clazz, "", doc)
      && e in after
      && after[e] == DocumentInfo("", None, doc, None, e)
  {
  }

  /** Tracking the same entity again replaces its record: no second entry
      appears, and the later document wins. */
  lemma RetrackReplaces<E>(tracked: map<E, DocumentInfo<E>>, conv: Converter<E>, clazz: Clazz,
                           first: ObjectNode, second: ObjectNode)
    requires MetadataIsObject(first) && MetadataIsObject(second)
    requires EntityFor(conv, clazz, Some(first)) == EntityFor(conv, clazz, Some(second))
    ensures var e := EntityFor(conv, clazz, Some(second));
      var after := Track(Track(tracked, conv, clazz, Some(first)), conv, clazz, Some(second));
      && after.Keys == tracked.Keys + {e}
      && after[e] == InfoFor(second, e)
  {
  }

  // ---------------------------------------------------------------------
  // Properties of converting every slot

  lemma TouchedSnoc<E>(conv: Converter<E>, clazz: Clazz, slots: seq<Option<ObjectNode>>)
    requires slots != [] && SlotsAreReadable(slots)
    ensures SlotsAreReadable(slots[..|slots| - 1])
    ensures Touched(conv, clazz, slots)
         == Touched(conv, clazz, slots[..|slots| - 1])
          + if slots[|slots| - 1].Some? then {EntityFor(conv, clazz, slots[|slots| - 1])} else {}
  {
    var n := |slots| - 1;
    var init := slots[..n];
    forall i | 0 <= i < n ensures init[i] == slots[i] && SlotIsReadable(init[i]) {
    }
    var last: set<E> := if slots[n].Some? then {EntityFor(conv, clazz, slots[n])} else {};
    forall e | e in Touched(conv, clazz, slots)
      ensures e in Touched(conv, clazz, init) + last
    {
      var i :| 0 <= i < |slots| && slots[i].Some? && EntityFor(conv, clazz, slots[i]) == e;
      if i < n {
        assert init[i] == slots[i];
      }
    }
    forall e | e in Touched(conv, clazz, init) + last
      ensures e in Touched(conv, clazz, slots)
    {
      if e in Touched(conv, clazz, init) {
        var i :| 0 <= i < n && init[i].Some? && EntityFor(conv, clazz, init[i]) == e;
        assert slots[i] == init[i];
      }
    }
  }

  /** After converting every slot, the tracked entities are the old ones plus
      the entities of the non-nil slots: nil slots register nothing. */
  lemma {:induction false} TrackAllKeys<E>(tracked: map<E, DocumentInfo<E>>, conv: Converter<E>, clazz: Clazz,
                                           slots: seq<Option<ObjectNode>>)
    requires SlotsAreReadable(slots)
    ensures TrackAll(tracked, conv, clazz, slots).Keys == tracked.Keys + Touched(conv, clazz, slots)
    decreases |slots|
  {
    if slots != [] {
      var n := |slots| - 1;
      TouchedSnoc(conv, clazz, slots);
      TrackAllKeys(tracked, conv, clazz, slots[..n]);
    }
  }

  /** An entity no slot converts to keeps its old record, or stays absent. */
  lemma {:induction false} TrackAllLeavesOthers<E>(tracked: map<E, DocumentInfo<E>>, conv: Converter<E>, clazz: Clazz,
                                                   slots: seq<Option<ObjectNode>>, e: E)
    requires SlotsAreReadable(slots)
    requires e !in Touched(conv, clazz, slots)
    ensures e in TrackAll(tracked, conv, clazz, slots) <==> e in tracked
    ensures e in tracked ==> TrackAll(tracked, conv, clazz, slots)[e] == tracked[e]
    decreases |slots|
  {
    if slots != [] {
      var n := |slots| - 1;
      TouchedSnoc(conv, clazz, slots);
      TrackAllLeavesOthers(tracked, conv, clazz, slots[..n], e);
    }
  }

  /** The record of a converted entity comes from the last slot that converts to it. */
  lemma {:induction false} TrackAllLastWins<E>(tracked: map<E, DocumentInfo<E>>, conv: Converter<E>, clazz: Clazz,
                                               slots: seq<Option<ObjectNode>>, i: nat)
    requires SlotsAreReadable(slots)
    requires i < |slots| && slots[i].Some?
    requires forall j :: i < j < |slots| && slots[j].Some? ==>
               EntityFor(conv, clazz, slots[j]) != EntityFor(conv, clazz, slots[i])
    ensures EntityFor(conv, clazz, slots[i]) in TrackAll(tracked, conv, clazz, slots)
    ensures TrackAll(tracked, conv, clazz, slots)[EntityFor(conv, clazz, slots[i])]
         == InfoFor(slots[i].value, EntityFor(conv, clazz, slots[i]))
    decreases |slots|
  {
    var n := |slots| - 1;
    var init := slots[..n];
    assert SlotsAreReadable(init) by {
      forall k | 0 <= k < n ensures SlotIsReadable(init[k]) {
        assert init[k] == slots[k];
      }
    }
    if i < n {
      assert init[i] == slots[i];
      forall j | i < j < |init| && init[j].Some?
        ensures EntityFor(conv, clazz, init[j]) != EntityFor(conv, clazz, init[i])
      {
        assert init[j] == slots[j];
      }
      TrackAllLastWins(tracked, conv, clazz, init, i);
    }
  }

  /** A result `[doc, nil, doc2]` registers exactly the two documents' entities. */
  lemma NullSafeMaterialization<E>(tracked: map<E, DocumentInfo<E>>, conv: Converter<E>, clazz: Clazz,
                                   doc: ObjectNode, doc2: ObjectNode)
    requires MetadataIsObject(doc) && MetadataIsObject(doc2)
    ensures SlotsAreReadable([Some(doc), None, Some(doc2)])
    ensures TrackAll(tracked, conv, clazz, [Some(doc), None, Some(doc2)]).Keys
         == tracked.Keys + {EntityFor(conv, clazz, Some(doc)), EntityFor(conv, clazz, Some(doc2))}
  {
    var slots := [Some(doc), None, Some(doc2)];
    TrackAllKeys(tracked, conv, clazz, slots);
    var e1, e2 := EntityFor(conv, clazz, Some(doc)), EntityFor(conv, clazz, Some(doc2));
    assert e1 == EntityFor(conv, clazz, slots[0]);
    assert e2 == EntityFor(conv, clazz, slots[2]);
    assert Touched(conv, clazz, slots) == {e1, e2};
  }

  // ---------------------------------------------------------------------
  // Properties of the map keyed by change vector

  lemma RequestedSnoc(changeVectors: seq<string>)
    requires changeVectors != []
    ensures var n := |changeVectors| - 1;
      Requested(changeVectors)
      == Requested(changeVectors[..n]) + if changeVectors[n] == "" then {} else {changeVectors[n]}
  {
    var n := |changeVectors| - 1;
    var init := changeVectors[..n];
    forall cv | cv in Requested(changeVectors)
      ensures cv in Requested(init) + if changeVectors[n] == "" then {} else {changeVectors[n]}
    {
      var i :| 0 <= i < |changeVectors| && changeVectors[i] != "" && changeVectors[i] == cv;
      if i < n {
        assert init[i] == changeVectors[i];
      }
    }
    forall cv | cv in Requested(init)
      ensures cv in Requested(changeVectors)
    {
      var i :| 0 <= i < n && init[i] != "" && init[i] == cv;
      assert changeVectors[i] == init[i];
    }
  }

  /** The keys of `getRevisions`' result are exactly the non-empty requested change vectors. */
  lemma {:induction false} ByChangeVectorKeys<E>(conv: Converter<E>, clazz: Clazz, changeVectors: seq<string>,
                                                 slots: seq<Option<ObjectNode>>)
    requires CoversRequested(changeVectors, slots)
    ensures ByChangeVector(conv, clazz, changeVectors, slots).Keys == Requested(changeVectors)
    ensures "" !in ByChangeVector(conv, clazz, changeVectors, slots)
    decreases |changeVectors|
  {
    if changeVectors != [] {
      var n := |changeVectors| - 1;
      CoversPrefix(changeVectors, slots, n);
      RequestedSnoc(changeVectors);
      ByChangeVectorKeys(conv, clazz, changeVectors[..n], slots);
    }
  }

  /** A requested change vector maps to the entity of the slot at its (last) position. */
  lemma {:induction false} ByChangeVectorValue<E>(conv: Converter<E>, clazz: Clazz, changeVectors: seq<string>,
                                                  slots: seq<Option<ObjectNode>>, i: nat)
    requires CoversRequested(changeVectors, slots)
    requires i < |changeVectors| && changeVectors[i] != ""
    requires forall j :: i < j < |changeVectors| ==> changeVectors[j] != changeVectors[i]
    ensures i < |slots| && SlotIsReadable(slots[i])
    ensures changeVectors[i] in ByChangeVector(conv, clazz, changeVectors, slots)
    ensures ByChangeVector(conv, clazz, changeVectors, slots)[changeVectors[i]] == EntityFor(conv, clazz, slots[i])
    decreases |changeVectors|
  {
    var n := |changeVectors| - 1;
    CoversPrefix(changeVectors, slots, n);
    if i < n {
      var init := changeVectors[..n];
      assert init[i] == changeVectors[i];
      forall j | i < j < |init| ensures init[j] != init[i] {
        assert init[j] == changeVectors[j];
      }
      ByChangeVectorValue(conv, clazz, init, slots, i);
    }
  }

  /** The entities of the slots `getRevisions` converts and tracks: those at
      a non-empty requested change vector whose document is not nil. */
  function RequestedEntities<E>(conv: Converter<E>, clazz: Clazz, changeVectors: seq<string>,
                                slots: seq<Option<ObjectNode>>): set<E>
    requires CoversRequested(changeVectors, slots)
  {
    set i | 0 <= i < |changeVectors| && changeVectors[i] != "" && slots[i].Some? :: EntityFor(conv, clazz, slots[i])
  }

  /** A slot at an empty requested change vector is never read: replacing it
      changes neither the slots that are converted nor the map returned. */
  lemma {:induction false} EmptyPositionsIgnored<E>(conv: Converter<E>, clazz: Clazz, changeVectors: seq<string>,
                                                    slots: seq<Option<ObjectNode>>, slots2: seq<Option<ObjectNode>>)
    requires CoversRequested(changeVectors, slots) && CoversRequested(changeVectors, slots2)
    requires forall i :: 0 <= i < |changeVectors| && changeVectors[i] != "" ==>
               i < |slots| && i < |slots2| && slots[i] == slots2[i]
    ensures Selected(changeVectors, slots) == Selected(changeVectors, slots2)
    ensures ByChangeVector(conv, clazz, changeVectors, slots) == ByChangeVector(conv, clazz, changeVectors, slots2)
    decreases |changeVectors|
  {
    if changeVectors != [] {
      var n := |changeVectors| - 1;
      var init := changeVectors[..n];
      CoversPrefix(changeVectors, slots, n);
      CoversPrefix(changeVectors, slots2, n);
      forall i | 0 <= i < |init| && init[i] != ""
        ensures i < |slots| && i < |slots2| && slots[i] == slots2[i]
      {
        assert init[i] == changeVectors[i];
      }
      EmptyPositionsIgnored(conv, clazz, init, slots, slots2);
    }
  }

  /** The entities among the slots `getRevisions` converts are exactly those of
      the non-nil slots at non-empty requested change vectors. */
  lemma {:induction false} SelectedTouched<E>(conv: Converter<E>, clazz: Clazz, changeVectors: seq<string>,
                                              slots: seq<Option<ObjectNode>>)
    requires CoversRequested(changeVectors, slots)
    ensures Touched(conv, clazz, Selected(changeVectors, slots)) == RequestedEntities(conv, clazz, changeVectors, slots)
    decreases |changeVectors|
  {
    if changeVectors != [] {
      var n := |changeVectors| - 1;
      var init := changeVectors[..n];
      CoversPrefix(changeVectors, slots, n);
      SelectedTouched(conv, clazz, init, slots);
      SelectedStep(changeVectors, slots, n);
      assert changeVectors[..n + 1] == changeVectors;
      var earlier := Selected(init, slots);
      var last: set<E> := if changeVectors[n] != "" && slots[n].Some? then {EntityFor(conv, clazz, slots[n])} else {};
      if changeVectors[n] != "" {
        assert (earlier + [slots[n]])[..|earlier|] == earlier;
        TouchedSnoc(conv, clazz, earlier + [slots[n]]);
      }
      assert Touched(conv, clazz, Selected(changeVectors, slots)) == Touched(conv, clazz, earlier) + last;
      forall e | e in RequestedEntities(conv, clazz, changeVectors, slots)
        ensures e in RequestedEntities(conv, clazz, init, slots) + last
      {
        var i :| 0 <= i < |changeVectors| && changeVectors[i] != "" && slots[i].Some?
                 && EntityFor(conv, clazz, slots[i]) == e;
        if i < n {
          assert init[i] == changeVectors[i];
        }
      }
      forall e | e in RequestedEntities(conv, clazz, init, slots)
        ensures e in RequestedEntities(conv, clazz, changeVectors, slots)
      {
        var i :| 0 <= i < |init| && init[i] != "" && slots[i].Some? && EntityFor(conv, clazz, slots[i]) == e;
        assert changeVectors[i] == init[i];
      }
    }
  }

  /** After `getRevisions` the tracked entities are the old ones plus the
      entities of the non-nil slots at non-empty requested change vectors. */
  lemma RequestedSlotsTracked<E>(tracked: map<E, DocumentInfo<E>>, conv: Converter<E>, clazz: Clazz,
                                 changeVectors: seq<string>, slots: seq<Option<ObjectNode>>)
    requires CoversRequested(changeVectors, slots)
    ensures TrackAll(tracked, conv, clazz, Selected(changeVectors, slots)).Keys
         == tracked.Keys + RequestedEntities(conv, clazz, changeVectors, slots)
  {
    TrackAllKeys(tracked, conv, clazz, Selected(changeVectors, slots));
    SelectedTouched(conv, clazz, changeVectors, slots);
  }

  /** Slots whose requested change vector is empty are never converted: with
      only empty change vectors the session's map is left as it was. */
  lemma {:induction false} EmptyChangeVectorsConvertNothing(changeVectors: seq<string>, slots: seq<Option<ObjectNode>>)
    requires forall i :: 0 <= i < |changeVectors| ==> changeVectors[i] == ""
    ensures CoversRequested(changeVectors, slots)
    ensures Selected(changeVectors, slots) == []
    decreases |changeVectors|
  {
    if changeVectors != [] {
      var n := |changeVectors| - 1;
      var init := changeVectors[..n];
      assert forall i :: 0 <= i < |init| ==> init[i] == changeVectors[i];
      EmptyChangeVectorsConvertNothing(init, slots);
      SelectedStep(changeVectors, slots, n);
      assert changeVectors[..n + 1] == changeVectors;
    }
  }

  /** The request `["", "cv-1", "cv-2"]` selects the slots at positions 1 and 2. */
  lemma AlignmentSelects(anything: Option<ObjectNode>, docA: ObjectNode)
    requires MetadataIsObject(docA)
    ensures CoversRequested(["", "cv-1", "cv-2"], [anything, Some(docA), None])
    ensures Selected(["", "cv-1", "cv-2"], [anything, Some(docA), None]) == [Some(docA), None]
  {
    var cvs := ["", "cv-1", "cv-2"];
    var slots := [anything, Some(docA), None];
    assert cvs[..2] == ["", "cv-1"] && cvs[..2][..1] == [""] && cvs[..2][..1][..0] == [];
    assert Selected([""], slots) == [];
    assert Selected(["", "cv-1"], slots) == [Some(docA)];
  }

  /** Requested change vectors `["", "cv-1", "cv-2"]` against slots
      `[anything, docA, nil]` give exactly `cv-1` to docA's entity and `cv-2`
      to the zero value, and only docA's entity becomes tracked. */
  lemma ChangeVectorAlignment<E>(tracked: map<E, DocumentInfo<E>>, conv: Converter<E>, clazz: Clazz,
                                 anything: Option<ObjectNode>, docA: ObjectNode)
    requires MetadataIsObject(docA)
    ensures CoversRequested(["", "cv-1", "cv-2"], [anything, Some(docA), None])
    ensures ByChangeVector(conv, clazz, ["", "cv-1", "cv-2"], [anything, Some(docA), None])
         == map["cv-1" := EntityFor(conv, clazz, Some(docA)), "cv-2" := conv.defaultValue(clazz)]
    ensures TrackAll(tracked, conv, clazz, Selected(["", "cv-1", "cv-2"], [anything, Some(docA), None]))
         == Track(tracked, conv, clazz, Some(docA))
  {
    var cvs := ["", "cv-1", "cv-2"];
    var slots := [anything, Some(docA), None];
    AlignmentSelects(anything, docA);
    assert cvs[..2] == ["", "cv-1"] && cvs[..2][..1] == [""] && cvs[..2][..1][..0] == [];
    assert ByChangeVector(conv, clazz, [""], slots) == map[];
    assert ByChangeVector(conv, clazz, ["", "cv-1"], slots) == map["cv-1" := EntityFor(conv, clazz, Some(docA))];
    var sel := [Some(docA), None];
    assert sel[..1] == [Some(docA)] && sel[..1][..0] == [];
    assert TrackAll(tracked, conv, clazz, [Some(docA)]) == Track(tracked, conv, clazz, Some(docA));
  }

  /** A metadata-only view reads the id and change vector straight from the
      document's metadata, with no conversion involved. */
  lemma MetadataOnlyExtraction()
    ensures var doc := map[MetadataKey := Object(map[MetadataId := String("orders/1"),
                                                     MetadataChangeVector := String("A:1")]),
                           "Name" := String("x")];
      var view := MetadataAsDictionary(MetadataOf(Some(doc)));
      && view.metadata.Some?
      && JsonGetAsText(view.metadata.value, MetadataId) == "orders/1"
      && JsonGetAsTextPointer(view.metadata.value, MetadataChangeVector) == Some("A:1")
  {
  }

  /** One more requested change vector: what `Selected` adds for it. */
  lemma SelectedStep(changeVectors: seq<string>, slots: seq<Option<ObjectNode>>, i: nat)
    requires i < |changeVectors| && CoversRequested(changeVectors, slots)
    ensures CoversRequested(changeVectors[..i], slots) && CoversRequested(changeVectors[..i + 1], slots)
    ensures changeVectors[i] != "" ==> i < |slots| && SlotIsReadable(slots[i])
    ensures changeVectors[i] == "" ==> Selected(changeVectors[..i + 1], slots) == Selected(changeVectors[..i], slots)
    ensures changeVectors[i] != "" ==>
      Selected(changeVectors[..i + 1], slots) == Selected(changeVectors[..i], slots) + [slots[i]]
  {
    CoversPrefix(changeVectors, slots, i);
    CoversPrefix(changeVectors, slots, i + 1);
    assert changeVectors[..i + 1][..i] == changeVectors[..i];
    assert Selected(changeVectors[..i], slots) + [] == Selected(changeVectors[..i], slots);
  }

  /** One more requested change vector: what `ByChangeVector` adds for it. */
  lemma RequestedStep<E>(conv: Converter<E>, clazz: Clazz, changeVectors: seq<string>,
                         slots: seq<Option<ObjectNode>>, i: nat)
    requires i < |changeVectors| && CoversRequested(changeVectors, slots)
    ensures CoversRequested(changeVectors[..i], slots) && CoversRequested(changeVectors[..i + 1], slots)
    ensures ByChangeVector(conv, clazz, changeVectors[..i + 1], slots)
         == if changeVectors[i] == "" then ByChangeVector(conv, clazz, changeVectors[..i], slots)
            else ByChangeVector(conv, clazz, changeVectors[..i], slots)[changeVectors[i] := EntityFor(conv, clazz, slots[i])]
  {
    CoversPrefix(changeVectors, slots, i);
    CoversPrefix(changeVectors, slots, i + 1);
    assert changeVectors[..i + 1][..i] == changeVectors[..i];
  }

  /** Converting one more slot after a sequence of slots. */
  lemma TrackAllSnoc<E>(tracked: map<E, DocumentInfo<E>>, conv: Converter<E>, clazz: Clazz,
                        slots: seq<Option<ObjectNode>>, slot: Option<ObjectNode>)
    requires SlotsAreReadable(slots) && SlotIsReadable(slot)
    ensures SlotsAreReadable(slots + [slot])
    ensures TrackAll(tracked, conv, clazz, slots + [slot]) == Track(TrackAll(tracked, conv, clazz, slots), conv, clazz, slot)
  {
    assert (slots + [slot])[..|slots|] == slots;
  }

  // ---------------------------------------------------------------------
  // The session state and the operation

  /** The part of the session this operation touches: the identity map,
      keyed by the entity itself, and the conversions it calls. */
  class Session<E(==)> {
    var documentsByEntity: map<E, DocumentInfo<E>>
    const converter: Converter<E>

    constructor (converter: Converter<E>)
      ensures documentsByEntity == map[]
      ensures this.converter == converter
    {
      documentsByEntity := map[];
      this.converter := converter;
    }
  }

  class GetRevisionOperation<E(==)> {
    const session: Session<E>
    const command: GetRevisionsCommand
    /** `None` until a result is attached; each slot is a document or nil. */
    var result: Option<seq<Option<ObjectNode>>>

    /** The attached slots, none while no result is attached. */
    function Slots(): seq<Option<ObjectNode>>
      reads this
    {
      if result.Some? then result.value else []
    }

    /** `NewGetRevisionOperationRange`: panics on a nil session or an empty id. */
    constructor Range(session: Session?<E>, id: string, start: int, pageSize: int, metadataOnly: bool)
      requires session != null
      requires id != ""
      ensures this.session == session
      ensures command == RangeCommand(id, start, pageSize, metadataOnly)
      ensures command.ChangeVectors() == []
      ensures result.None?
    {
      this.session := session;
      command := RangeCommand(id, start, pageSize, metadataOnly);
      result := None;
    }

    /** `createRequest`: the command built at construction, whatever has happened since. */
    method CreateRequest() returns (request: GetRevisionsCommand)
      ensures request == command
    {
      request := command;
    }

    /** `setResult`: attaches the result, or detaches it when given nil. */
    method SetResult(r: Option<seq<Option<ObjectNode>>>)
      modifies this
      ensures result == r
    {
      result := r;
    }

    /** `getRevision`: convert one slot and track the entity it yields. */
    method GetRevision(clazz: Clazz, document: Option<ObjectNode>) returns (entity: E)
      requires SlotIsReadable(document)
      modifies session
      ensures entity == EntityFor(session.converter, clazz, document)
      ensures session.documentsByEntity
           == Track(old(session.documentsByEntity), session.converter, clazz, document)
    {
      if document.None? {
        return session.converter.defaultValue(clazz);
      }
      var doc := document.value;
      var metadata: Option<ObjectNode> := None;
      var id := "";
      if MetadataKey in doc {
        metadata := Some(doc[MetadataKey].fields);
        id := JsonGetAsText(metadata.value, MetadataId);
      }
      var changeVector: Option<string> := None;
      if metadata.Some? {
        changeVector := JsonGetAsTextPointer(metadata.value, MetadataChangeVector);
      }
      entity := session.converter.convertToEntity(clazz, id, doc);
      var info := DocumentInfo(id, changeVector, doc, metadata, entity);
      session.documentsByEntity := session.documentsByEntity[entity := info];
    }

    /** `getRevisionsFor`: one entity per slot, in order, every non-nil one tracked. */
    method GetRevisionsFor(clazz: Clazz) returns (entities: seq<E>)
      requires result.Some? && SlotsAreReadable(result.value)
      modifies session
      ensures |entities| == |result.value|
      ensures forall i :: 0 <= i < |entities| ==> entities[i] == EntityFor(session.converter, clazz, result.value[i])
      ensures session.documentsByEntity
           == TrackAll(old(session.documentsByEntity), session.converter, clazz, result.value)
    {
      var slots := result.value;
      var resultsCount := |slots|;
      // the slots are overwritten below; the zero value only fills the fresh array
      var results := new E[resultsCount](_ => session.converter.defaultValue(clazz));
      for i := 0 to resultsCount
        invariant forall k :: 0 <= k < i ==> results[k] == EntityFor(session.converter, clazz, slots[k])
        invariant session.documentsByEntity
               == TrackAll(old(session.documentsByEntity), session.converter, clazz, slots[..i])
      {
        var document := slots[i];
        results[i] := GetRevision(clazz, document);
        assert slots[..i + 1][..i] == slots[..i];
      }
      assert slots[..resultsCount] == slots;
      entities := results[..];
    }

    /** `getRevisionsMetadataFor`: one metadata view per slot, no conversion, nothing tracked. */
    method GetRevisionsMetadataFor() returns (views: seq<MetadataAsDictionary>)
      requires result.Some? && SlotsAreReadable(result.value)
      ensures |views| == |result.value|
      ensures forall i :: 0 <= i < |views| ==> views[i] == MetadataAsDictionary(MetadataOf(result.value[i]))
    {
      var slots := result.value;
      var resultsCount := |slots|;
      var results := new MetadataAsDictionary[resultsCount](_ => MetadataAsDictionary(None));
      for i := 0 to resultsCount
        invariant forall k :: 0 <= k < i ==> results[k] == MetadataAsDictionary(MetadataOf(slots[k]))
      {
        var document := slots[i];
        var metadata: Option<ObjectNode> := None;
        if document.Some? && MetadataKey in document.value {
          metadata := Some(document.value[MetadataKey].fields);
        }
        results[i] := MetadataAsDictionary(metadata);
      }
      views := results[..];
    }

    /** `getRevision2`: the zero value while no result is attached, otherwise slot 0 converted. */
    method GetRevision2(clazz: Clazz) returns (entity: E)
      requires result.Some? ==> |result.value| > 0 && SlotIsReadable(result.value[0])
      modifies session
      ensures result.None? ==> entity == session.converter.defaultValue(clazz)
      ensures result.None? ==> session.documentsByEntity == old(session.documentsByEntity)
      ensures result.Some? ==> entity == EntityFor(session.converter, clazz, result.value[0])
      ensures result.Some? ==>
        session.documentsByEntity == Track(old(session.documentsByEntity), session.converter, clazz, result.value[0])
    {
      if result.None? {
        return session.converter.defaultValue(clazz);
      }
      var document := result.value[0];
      entity := GetRevision(clazz, document);
    }

    /** `getRevisions`: the entities keyed by the requested change vectors,
        empty ones skipped; only the selected slots are tracked.  The loop
        only does work for a command of the change-vector form, which is built
        outside this model; for a range command there is nothing to iterate. */
    method GetRevisions(clazz: Clazz) returns (revisions: map<string, E>)
      requires CoversRequested(command.ChangeVectors(), Slots())
      modifies session
      ensures revisions == ByChangeVector(session.converter, clazz, command.ChangeVectors(), Slots())
      ensures session.documentsByEntity
           == TrackAll(old(session.documentsByEntity), session.converter, clazz,
                       Selected(command.ChangeVectors(), Slots()))
    {
      var changeVectors := command.ChangeVectors();
      ghost var slots := Slots();
      ghost var conv := session.converter;
      ghost var before := session.documentsByEntity;
      revisions := map[];
      for i := 0 to |changeVectors|
        invariant CoversRequested(changeVectors[..i], slots)
        invariant revisions == ByChangeVector(conv, clazz, changeVectors[..i], slots)
        invariant session.documentsByEntity == TrackAll(before, conv, clazz, Selected(changeVectors[..i], slots))
      {
        SelectedStep(changeVectors, slots, i);
        RequestedStep(conv, clazz, changeVectors, slots, i);
        var changeVector := changeVectors[i];
        if changeVector == "" {
          continue;
        }
        var v := result.value[i];
        TrackAllSnoc(before, conv, clazz, Selected(changeVectors[..i], slots), v);
        var rev := GetRevision(clazz, v);
        revisions := revisions[changeVector := rev];
      }
      assert changeVectors[..|changeVectors|] == changeVectors;
    }
  }
}
