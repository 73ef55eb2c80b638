/** The evidence-point data layer: dimension mapping, creation with its
    three secondary indexes, validation-status changes, lookups by material,
    source and status, the source-deletion guard and per-dimension
    summaries. */
module Evidence {
  import opened Wrappers
  import opened Text
  import opened Schema
  import Seqs

  // ---------------------------------------------------------------------
  // Dimensions
  // ---------------------------------------------------------------------

  const CrParams: seq<string> := ["Y", "D", "C", "M", "E"]
  const CcParams: seq<string> := ["B", "N", "T"]
  const RuParams: seq<string> := ["H", "L", "R", "U", "C_RU"]

  /** `getParameterDimension`: compostability parameters map to CR,
      recyclability parameters to CC, reusability parameters to RU; any other
      code throws. */
  function ParameterDimension(code: string): (r: Result<Dimension>)
    ensures r == Ok(CR) <==> code in CrParams
    ensures r == Ok(CC) <==> code in CcParams
    ensures r == Ok(RU) <==> code in RuParams
    ensures r.Err? <==> code !in CrParams + CcParams + RuParams
  {
    if code in CrParams then Ok(CR)
    else if code in CcParams then Ok(CC)
    else if code in RuParams then Ok(RU)
    else Err("Unknown parameter: " + code)
  }

  /** The thirteen parameter codes, in the order the three groups list them. */
  const AllParams: seq<string> := CrParams + CcParams + RuParams

  /** The three groups are disjoint, and no code contains ':' (so the
      index keys built from them can be split again). */
  lemma ParameterGroupsDisjoint()
    ensures forall c :: c in CrParams ==> c !in CcParams && c !in RuParams
    ensures forall c :: c in CcParams ==> c !in RuParams
    ensures forall c :: c in AllParams ==> ':' !in c
    ensures |AllParams| == 13 && Seqs.Distinct(AllParams)
  {
  }

  // ---------------------------------------------------------------------
  // Creation
  // ---------------------------------------------------------------------

  /** `CreateEvidencePointInput`. */
  datatype CreateInput = CreateInput(
    materialId: string,
    parameterCode: string,
    rawValue: real,
    rawUnit: string,
    snippet: string,
    sourceType: SourceType,
    citation: string,
    confidence: Confidence,
    notes: Option<string>,
    pageNumber: Option<int>,
    figureNumber: Option<string>,
    tableNumber: Option<string>,
    curatorId: string,
    sourceRef: string,
    sourceWeight: Option<real>,
    restrictedContent: Option<bool>,
    conflictOfInterest: Option<string>)

  /** `s || null` for an optional string. */
  function StrOrNull(s: Option<string>): (r: Option<string>)
    ensures r.None? <==> s.None? || s.value == ""
    ensures r.Some? ==> r == s
  {
    if s.Some? && s.value != "" then s else None
  }

  /** `n || null` for an optional number. */
  function IntOrNull(n: Option<int>): (r: Option<int>)
    ensures r.None? <==> n.None? || n.value == 0
    ensures r.Some? ==> r == n
  {
    if n.Some? && n.value != 0 then n else None
  }

  /** The weight a new point is created with: `source_weight ?? 0.5`. */
  function EffectiveWeight(input: CreateInput): real {
    input.sourceWeight.GetOr(0.5)
  }

  datatype Created = Created(store: Store, point: EvidencePoint)

  /** `createEvidencePoint`: validates the weight, derives the dimension,
      builds the pending record and writes it with one material, one source
      and one validation-queue index entry. `id` and `now` stand for the
      generated id and the clock. */
  function Create(store: Store, input: CreateInput, id: string, now: Time): (r: Result<Created>)
    ensures r.Err? <==>
      EffectiveWeight(input) < 0.0 || EffectiveWeight(input) > 1.0 || ParameterDimension(input.parameterCode).Err?
    ensures r.Ok? ==>
      var p := r.value.point;
      && p.id == id && p.materialId == input.materialId && p.parameterCode == input.parameterCode
      && p.sourceRef == input.sourceRef && p.createdBy == input.curatorId
      && p.createdAt == now && p.updatedAt == now
      && p.sourceWeight == EffectiveWeight(input) && 0.0 <= p.sourceWeight <= 1.0
      && (input.sourceWeight.Some? ==> p.sourceWeight == input.sourceWeight.value)
      && Ok(p.dimension) == ParameterDimension(input.parameterCode)
      && p.validationStatus == Pending && p.validatedBy.None? && p.validatedAt.None?
      && p.transformedValue.None? && p.transformVersion == "1.0"
      && p.restrictedContent == input.restrictedContent.GetOr(false)
      && (p.notes.None? <==> input.notes.None? || input.notes.value == "")
      && (p.pageNumber.None? <==> input.pageNumber.None? || input.pageNumber.value == 0)
      && (p.figureNumber.None? <==> input.figureNumber.None? || input.figureNumber.value == "")
      && (p.tableNumber.None? <==> input.tableNumber.None? || input.tableNumber.value == "")
      && (p.conflictOfInterest.None? <==> input.conflictOfInterest.None? || input.conflictOfInterest.value == "")
    ensures r.Ok? ==>
      var s := r.value.store;
      var ks := {EvidenceKey(id), MaterialIndexKey(input.materialId, input.parameterCode, id),
                 SourceIndexKey(input.sourceRef, id), ValidationKey(Pending, id)};
      && s.Keys == store.Keys + ks
      && s[EvidenceKey(id)] == Point(r.value.point)
      && s[MaterialIndexKey(input.materialId, input.parameterCode, id)] == Ref(id)
      && s[SourceIndexKey(input.sourceRef, id)] == Ref(id)
      && s[ValidationKey(Pending, id)] == Ref(id)
      && (forall k :: k in store && k !in ks ==> s[k] == store[k])
  {
    var w := EffectiveWeight(input);
    if w < 0.0 || w > 1.0 then Err("source_weight must be between 0.0 and 1.0")
    else match ParameterDimension(input.parameterCode)
      case Err(msg) => Err(msg)
      case Ok(dim) =>
        var p := EvidencePoint(
          id, input.materialId, input.parameterCode, input.rawValue, input.rawUnit,
          None, "1.0", input.snippet, input.sourceType, input.citation, input.confidence,
          StrOrNull(input.notes), IntOrNull(input.pageNumber), StrOrNull(input.figureNumber),
          StrOrNull(input.tableNumber), input.curatorId, now, now,
          input.sourceRef, w, Pending, None, None, input.restrictedContent.GetOr(false),
          StrOrNull(input.conflictOfInterest), dim);
        KeyFamiliesDistinct(id, input.materialId, input.parameterCode, id, input.sourceRef, id, Pending, id);
        var s := store[EvidenceKey(id) := Point(p)]
                     [MaterialIndexKey(input.materialId, input.parameterCode, id) := Ref(id)]
                     [SourceIndexKey(input.sourceRef, id) := Ref(id)]
                     [ValidationKey(Pending, id) := Ref(id)];
        Ok(Created(s, p))
  }

  // ---------------------------------------------------------------------
  // Lookups
  // ---------------------------------------------------------------------

  /** `kv.get("evidence:" + ref.value)`: the record an index entry names, or
      null when there is none. */
  function Resolve(store: Store, v: Value): (r: Option<EvidencePoint>)
    ensures r.Some? <==> v.Ref? && EvidenceKey(v.id) in store && store[EvidenceKey(v.id)].Point?
    ensures r.Some? ==> store[EvidenceKey(v.id)] == Point(r.value)
  {
    if v.Ref? && EvidenceKey(v.id) in store && store[EvidenceKey(v.id)].Point?
    then Some(store[EvidenceKey(v.id)].p) else None
  }

  /** `rows.map(ref => kv.get("evidence:" + ref.value))`: one fetch per
      row, in row order, null where no record is stored. */
  function Fetched(store: Store, rows: seq<Entry>): seq<Option<EvidencePoint>> {
    Seqs.Map((e: Entry) => Resolve(store, e.value), rows)
  }

  /** The fetched values a lookup keeps: the non-null ones, and of those
      only the ones of dimension `dim` when a dimension is given. */
  function Wanted(dim: Option<Dimension>): Option<EvidencePoint> -> bool {
    (o: Option<EvidencePoint>) => o.Some? && (dim.None? || o.value.dimension == dim.value)
  }

  /** Records seen as fetched (non-null) values. */
  function Wrapped(ps: seq<EvidencePoint>): seq<Option<EvidencePoint>> {
    Seqs.Map((p: EvidencePoint) => Some(p), ps)
  }

  lemma WrappedConcat(a: seq<EvidencePoint>, b: seq<EvidencePoint>)
    ensures Wrapped(a + b) == Wrapped(a) + Wrapped(b)
  {
  }

  /** Fetch the record behind every row and drop the nulls: the records
      come back in the order of their rows. */
  function ResolveAll(store: Store, rows: seq<Entry>): (r: seq<EvidencePoint>)
    ensures |r| <= |rows|
    ensures forall p :: p in r <==> exists e :: e in rows && Resolve(store, e.value) == Some(p)
    ensures Wrapped(r) == Seqs.Filter(Wanted(None), Fetched(store, rows))
    decreases |rows|
  {
    if |rows| == 0 then []
    else
      var rest := ResolveAll(store, rows[1..]);
      assert forall e :: e in rows[1..] ==> e in rows;
      assert forall e :: e in rows ==> e == rows[0] || e in rows[1..];
      assert Fetched(store, rows)[1..] == Fetched(store, rows[1..]);
      match Resolve(store, rows[0].value)
      case Some(p) =>
        WrappedConcat([p], rest);
        [p] + rest
      case None => rest
  }

  /** The index prefix `getEvidencePointsByMaterial` scans. */
  function MaterialPrefix(mat: string, param: Option<string>): string {
    if param.Some? && param.value != "" then "evidence_by_material:" + mat + ":" + param.value + ":"
    else "evidence_by_material:" + mat + ":"
  }

  /** `evidence.filter(e => e.dimension === dim)`. */
  function WithDimension(ps: seq<EvidencePoint>, dim: Dimension): (r: seq<EvidencePoint>)
    ensures forall p :: p in r <==> p in ps && p.dimension == dim
    ensures Wrapped(r) == Seqs.Filter(Wanted(Some(dim)), Wrapped(ps))
    decreases |ps|
  {
    if |ps| == 0 then []
    else
      assert forall p :: p in ps <==> p == ps[0] || p in ps[1..];
      assert Wrapped(ps)[1..] == Wrapped(ps[1..]);
      var head := if ps[0].dimension == dim then [ps[0]] else [];
      WrappedConcat(head, WithDimension(ps[1..], dim));
      head + WithDimension(ps[1..], dim)
  }

  /** `getEvidencePointsByMaterial`: the records named by the material index
      (narrowed to one parameter when one is given), with nulls dropped and
      an optional dimension filter. */
  function ByMaterial(store: Store, order: seq<string>, mat: string,
                      param: Option<string>, dim: Option<Dimension>): (r: seq<EvidencePoint>)
    requires Lists(order, store)
    ensures forall p :: p in r <==>
      (exists e :: e in GetByPrefix(store, order, MaterialPrefix(mat, param))
                   && Resolve(store, e.value) == Some(p))
      && (dim.Some? ==> p.dimension == dim.value)
    ensures Wrapped(r) == Seqs.Filter(Wanted(dim), Fetched(store, GetByPrefix(store, order, MaterialPrefix(mat, param))))
  {
    var all := ResolveAll(store, GetByPrefix(store, order, MaterialPrefix(mat, param)));
    if dim.Some? then
      Seqs.FilterFilter(Wanted(None), Wanted(dim), Wanted(dim),
                        Fetched(store, GetByPrefix(store, order, MaterialPrefix(mat, param))));
      WithDimension(all, dim.value)
    else all
  }

  /** `getEvidencePointsBySource`. */
  function BySource(store: Store, order: seq<string>, src: string): (r: seq<EvidencePoint>)
    requires Lists(order, store)
    ensures forall p :: p in r <==>
      exists e :: e in GetByPrefix(store, order, "evidence_by_source:" + src + ":")
                  && Resolve(store, e.value) == Some(p)
    ensures Wrapped(r) == Seqs.Filter(Wanted(None), Fetched(store, GetByPrefix(store, order, "evidence_by_source:" + src + ":")))
  {
    ResolveAll(store, GetByPrefix(store, order, "evidence_by_source:" + src + ":"))
  }

  /** `points.map(ep => ep.id)`. */
  function IdsOf(ps: seq<EvidencePoint>): (r: seq<string>)
    ensures |r| == |ps|
    ensures forall i :: 0 <= i < |ps| ==> r[i] == ps[i].id
    ensures forall p :: p in ps ==> p.id in r
  {
    var ids := Seqs.Map((p: EvidencePoint) => p.id, ps);
    assert forall p :: p in ps ==> p.id in ids by {
      forall p | p in ps ensures p.id in ids {
        var i :| 0 <= i < |ps| && ps[i] == p;
        assert ids[i] == p.id;
      }
    }
    ids
  }

  datatype DeleteCheck = DeleteCheck(canDelete: bool, evidenceCount: nat, evidenceIds: seq<string>)

  /** `canDeleteSource`: a source may be deleted only when no evidence point
      references it. */
  function CanDeleteSource(store: Store, order: seq<string>, src: string): (r: DeleteCheck)
    requires Lists(order, store)
    ensures r.canDelete <==> r.evidenceCount == 0
    ensures |r.evidenceIds| == r.evidenceCount
    ensures r.canDelete <==> BySource(store, order, src) == []
    ensures r.evidenceCount == |BySource(store, order, src)|
    ensures forall i :: 0 <= i < |r.evidenceIds| ==> r.evidenceIds[i] == BySource(store, order, src)[i].id
    ensures forall p :: p in BySource(store, order, src) ==> p.id in r.evidenceIds
  {
    var ps := BySource(store, order, src);
    DeleteCheck(|ps| == 0, |ps|, IdsOf(ps))
  }

  /** A row under `prefix` whose reference resolves to `p` puts `p` in the
      resolved prefix scan. */
  lemma RowFound(s: Store, order: seq<string>, prefix: string, k: string, p: EvidencePoint)
    requires Lists(order, s)
    requires k in s && StartsWith(k, prefix) && Resolve(s, s[k]) == Some(p)
    ensures p in ResolveAll(s, GetByPrefix(s, order, prefix))
  {
    assert k in order;
    var i :| 0 <= i < |order| && order[i] == k;
    assert Entry(k, s[k]) in GetByPrefix(s, order, prefix);
  }

  /** A freshly created point is found by its material (with or without its
      parameter), by its source, and blocks the deletion of its source. */
  lemma CreatedPointIsIndexed(store: Store, input: CreateInput, id: string, now: Time, order: seq<string>)
    requires Create(store, input, id, now).Ok?
    requires Lists(order, Create(store, input, id, now).value.store)
    ensures var c := Create(store, input, id, now).value;
      && c.point in ByMaterial(c.store, order, input.materialId, None, None)
      && c.point in ByMaterial(c.store, order, input.materialId, Some(input.parameterCode), Some(c.point.dimension))
      && c.point in BySource(c.store, order, input.sourceRef)
      && !CanDeleteSource(c.store, order, input.sourceRef).canDelete
  {
    var c := Create(store, input, id, now).value;
    var s := c.store;
    var mk := MaterialIndexKey(input.materialId, input.parameterCode, id);
    var sk := SourceIndexKey(input.sourceRef, id);
    assert Resolve(s, Ref(id)) == Some(c.point);
    var pre1 := MaterialPrefix(input.materialId, None);
    var pre2 := MaterialPrefix(input.materialId, Some(input.parameterCode));
    var pre3 := "evidence_by_source:" + input.sourceRef + ":";
    assert mk == pre1 + (input.parameterCode + ":" + id);
    RowFound(s, order, pre1, mk, c.point);
    assert mk == pre2 + id || pre2 == pre1;
    RowFound(s, order, pre2, mk, c.point);
    assert sk == pre3 + id;
    RowFound(s, order, pre3, sk, c.point);
  }

  // ---------------------------------------------------------------------
  // Validation workflow
  // ---------------------------------------------------------------------

  datatype Updated = Updated(store: Store, point: EvidencePoint)

  /** `updateEvidenceValidation`: null for an unknown id; otherwise the old
      queue entry is removed, the record gets the new status, validator and
      timestamps, and the new queue entry is added. */
  function UpdateValidation(store: Store, id: string, status: ValidationStatus, validator: string, now: Time): (r: Option<Updated>)
    ensures r.None? <==> !(EvidenceKey(id) in store && store[EvidenceKey(id)].Point?)
    ensures r.Some? ==>
      var old_ := store[EvidenceKey(id)].p;
      var s := r.value.store;
      && r.value.point == old_.(validationStatus := status, validatedBy := Some(validator),
                                validatedAt := Some(now), updatedAt := now)
      && EvidenceKey(id) in s && s[EvidenceKey(id)] == Point(r.value.point)
      && ValidationKey(status, id) in s && s[ValidationKey(status, id)] == Ref(id)
      && (status != old_.validationStatus ==> ValidationKey(old_.validationStatus, id) !in s)
      && s.Keys == (store.Keys - {ValidationKey(old_.validationStatus, id)}) + {ValidationKey(status, id)}
      && (forall k :: (k in store && k != EvidenceKey(id) && k != ValidationKey(old_.validationStatus, id)
                       && k != ValidationKey(status, id)) ==> s[k] == store[k])
  {
    if EvidenceKey(id) in store && store[EvidenceKey(id)].Point? then
      var p := store[EvidenceKey(id)].p;
      var s0 := store - {ValidationKey(p.validationStatus, id)};
      var p' := p.(validationStatus := status, validatedBy := Some(validator), validatedAt := Some(now), updatedAt := now);
      KeyFamiliesDistinct(id, id, id, id, id, id, p.validationStatus, id);
      KeyFamiliesDistinct(id, id, id, id, id, id, status, id);
      assert status != p.validationStatus ==> ValidationKey(status, id) != ValidationKey(p.validationStatus, id) by {
        if status != p.validationStatus { ValidationKeysDiffer(status, p.validationStatus, id, id); }
      }
      var s := s0[EvidenceKey(id) := Point(p')][ValidationKey(status, id) := Ref(id)];
      Some(Updated(s, p'))
    else None
  }

  // ---------------------------------------------------------------------
  // Index invariant
  // ---------------------------------------------------------------------

  /** Every record sits under its own id. */
  ghost predicate RecordsKeyed(store: Store) {
    forall id :: EvidenceKey(id) in store && store[EvidenceKey(id)].Point? ==> store[EvidenceKey(id)].p.id == id
  }

  /** Every record is listed in the queue of its validation status. */
  ghost predicate QueuesComplete(store: Store) {
    forall id :: EvidenceKey(id) in store && store[EvidenceKey(id)].Point? ==>
      var s := store[EvidenceKey(id)].p.validationStatus;
      ValidationKey(s, id) in store && store[ValidationKey(s, id)] == Ref(id)
  }

  /** Every queue entry names an existing record with that status. */
  ghost predicate QueuesSound(store: Store) {
    forall s, id :: ValidationKey(s, id) in store ==>
      store[ValidationKey(s, id)] == Ref(id)
      && EvidenceKey(id) in store && store[EvidenceKey(id)].Point?
      && store[EvidenceKey(id)].p.validationStatus == s
  }

  /** The validation queues mirror the records exactly. */
  ghost predicate QueueInvariant(store: Store) {
    RecordsKeyed(store) && QueuesComplete(store) && QueuesSound(store)
  }

  lemma EmptyStoreInvariant()
    ensures QueueInvariant(map[])
  {
  }

  /** The keys `Create` writes for `id`. */
  function CreatedKeys(input: CreateInput, id: string): set<string> {
    {EvidenceKey(id), MaterialIndexKey(input.materialId, input.parameterCode, id),
     SourceIndexKey(input.sourceRef, id), ValidationKey(Pending, id)}
  }

  /** The record key of another id is none of the keys `Create` writes. */
  lemma OtherRecordKeyUntouched(input: CreateInput, id: string, id': string)
    requires id' != id
    ensures EvidenceKey(id') !in CreatedKeys(input, id)
  {
    if EvidenceKey(id') == EvidenceKey(id) { EvidenceKeyInjective(id', id); }
    KeyFamiliesDistinct(id', input.materialId, input.parameterCode, id, input.sourceRef, id, Pending, id);
  }

  /** The queue key of another id is none of the keys `Create` writes. */
  lemma OtherQueueKeyUntouched(input: CreateInput, id: string, st: ValidationStatus, id': string)
    requires id' != id
    ensures ValidationKey(st, id') !in CreatedKeys(input, id)
  {
    if ValidationKey(st, id') == ValidationKey(Pending, id) { ValidationKeyInjective(st, id', Pending, id); }
    KeyFamiliesDistinct(id, input.materialId, input.parameterCode, id, input.sourceRef, id, st, id');
  }

  lemma CreateKeepsComplete(store: Store, input: CreateInput, id: string, now: Time)
    requires QueueInvariant(store)
    requires Create(store, input, id, now).Ok?
    ensures RecordsKeyed(Create(store, input, id, now).value.store)
    ensures QueuesComplete(Create(store, input, id, now).value.store)
  {
    var s := Create(store, input, id, now).value.store;
    forall id' | EvidenceKey(id') in s && s[EvidenceKey(id')].Point?
      ensures s[EvidenceKey(id')].p.id == id'
      ensures var st := s[EvidenceKey(id')].p.validationStatus;
              ValidationKey(st, id') in s && s[ValidationKey(st, id')] == Ref(id')
    {
      if id' != id {
        OtherRecordKeyUntouched(input, id, id');
        var st := store[EvidenceKey(id')].p.validationStatus;
        OtherQueueKeyUntouched(input, id, st, id');
      }
    }
  }

  lemma CreateKeepsSound(store: Store, input: CreateInput, id: string, now: Time)
    requires QueueInvariant(store)
    requires EvidenceKey(id) !in store
    requires Create(store, input, id, now).Ok?
    ensures QueuesSound(Create(store, input, id, now).value.store)
  {
    var s := Create(store, input, id, now).value.store;
    forall st, id' | ValidationKey(st, id') in s
      ensures s[ValidationKey(st, id')] == Ref(id')
      ensures EvidenceKey(id') in s && s[EvidenceKey(id')].Point?
      ensures s[EvidenceKey(id')].p.validationStatus == st
    {
      if id' == id {
        if ValidationKey(st, id') != ValidationKey(Pending, id) {
          KeyFamiliesDistinct(id, input.materialId, input.parameterCode, id, input.sourceRef, id, st, id');
          assert false;
        }
        ValidationKeyInjective(st, id', Pending, id);
      } else {
        OtherQueueKeyUntouched(input, id, st, id');
        OtherRecordKeyUntouched(input, id, id');
      }
    }
  }

  /** Creating a point under a fresh id keeps the queues exact. */
  lemma CreatePreservesQueues(store: Store, input: CreateInput, id: string, now: Time)
    requires QueueInvariant(store)
    requires EvidenceKey(id) !in store
    requires Create(store, input, id, now).Ok?
    ensures QueueInvariant(Create(store, input, id, now).value.store)
  {
    CreateKeepsComplete(store, input, id, now);
    CreateKeepsSound(store, input, id, now);
  }

  /** Changing a point's status keeps the queues exact: the point leaves its
      old queue and joins the new one. */
  lemma UpdatePreservesQueues(store: Store, id: string, status: ValidationStatus, validator: string, now: Time)
    requires QueueInvariant(store)
    requires UpdateValidation(store, id, status, validator, now).Some?
    ensures QueueInvariant(UpdateValidation(store, id, status, validator, now).value.store)
  {
    var u := UpdateValidation(store, id, status, validator, now).value;
    var s := u.store;
    var old_ := store[EvidenceKey(id)].p;
    var oldKey := ValidationKey(old_.validationStatus, id);
    var newKey := ValidationKey(status, id);
    forall id' | EvidenceKey(id') in s && s[EvidenceKey(id')].Point?
      ensures s[EvidenceKey(id')].p.id == id'
      ensures var st := s[EvidenceKey(id')].p.validationStatus;
              ValidationKey(st, id') in s && s[ValidationKey(st, id')] == Ref(id')
    {
      KeyFamiliesDistinct(id', id', id', id', id', id', old_.validationStatus, id);
      KeyFamiliesDistinct(id', id', id', id', id', id', status, id);
      if id' != id {
        if EvidenceKey(id') == EvidenceKey(id) { EvidenceKeyInjective(id', id); }
        var st := store[EvidenceKey(id')].p.validationStatus;
        var vk := ValidationKey(st, id');
        if vk == oldKey { ValidationKeyInjective(st, id', old_.validationStatus, id); }
        if vk == newKey { ValidationKeyInjective(st, id', status, id); }
        KeyFamiliesDistinct(id, id, id, id, id, id, st, id');
      }
    }
    forall st, id' | ValidationKey(st, id') in s
      ensures s[ValidationKey(st, id')] == Ref(id')
      ensures EvidenceKey(id') in s && s[EvidenceKey(id')].Point?
      ensures s[EvidenceKey(id')].p.validationStatus == st
    {
      var vk := ValidationKey(st, id');
      KeyFamiliesDistinct(id, id, id, id, id, id, st, id');
      if vk == newKey {
        ValidationKeyInjective(st, id', status, id);
      } else {
        assert vk in store && vk != oldKey;
        if id' == id {
          assert false;
        }
        if EvidenceKey(id') == EvidenceKey(id) { EvidenceKeyInjective(id', id); }
      }
    }
  }

  // ---------------------------------------------------------------------
  // Validation queues
  // ---------------------------------------------------------------------

  function StatusPrefix(status: ValidationStatus): string {
    "evidence_by_validation:" + StatusName(status) + ":"
  }

  /** The pagination of `getEvidenceByValidationStatus`: `offset` and
      `limit` are applied only when truthy (non-zero), with the clamping and
      negative-index rules of `slice`. */
  function Paginate<A>(rows: seq<A>, limit: Option<int>, offset: Option<int>): (r: seq<A>)
    ensures (limit.None? || limit.value == 0) && (offset.None? || offset.value == 0) ==> r == rows
    ensures limit.Some? && limit.value > 0 ==> |r| <= limit.value
    ensures offset.Some? && offset.value > 0 && (limit.None? || limit.value == 0) ==>
      r == if offset.value >= |rows| then [] else rows[offset.value..]
    ensures offset.Some? && offset.value > 0 && limit.Some? && limit.value > 0 ==>
      var lo := if offset.value >= |rows| then |rows| else offset.value;
      var hi := if lo + limit.value >= |rows| then |rows| else lo + limit.value;
      r == rows[lo..hi]
    ensures offset.Some? && offset.value < 0 && (limit.None? || limit.value == 0) ==>
      r == rows[Seqs.SliceIndex(offset.value, |rows|)..]
  {
    var afterOffset := if offset.Some? && offset.value != 0 then Seqs.SliceFrom(rows, offset.value) else rows;
    if limit.Some? && limit.value != 0 then Seqs.SliceTo(afterOffset, limit.value) else afterOffset
  }

  /** `getEvidenceByValidationStatus`: the records in one status queue,
      paginated. */
  function ByStatus(store: Store, order: seq<string>, status: ValidationStatus,
                    limit: Option<int>, offset: Option<int>): (r: seq<EvidencePoint>)
    requires Lists(order, store)
    ensures forall p :: p in r ==>
      exists e :: e in GetByPrefix(store, order, StatusPrefix(status)) && Resolve(store, e.value) == Some(p)
    ensures limit.Some? && limit.value > 0 ==> |r| <= limit.value
    ensures Wrapped(r) == Seqs.Filter(Wanted(None),
      Fetched(store, Paginate(GetByPrefix(store, order, StatusPrefix(status)), limit, offset)))
  {
    var rows := GetByPrefix(store, order, StatusPrefix(status));
    var page := Paginate(rows, limit, offset);
    PaginateWithin(rows, limit, offset);
    ResolveAll(store, page)
  }

  /** A page holds only rows of the listing it was cut from. */
  lemma PaginateWithin<A>(rows: seq<A>, limit: Option<int>, offset: Option<int>)
    ensures forall x :: x in Paginate(rows, limit, offset) ==> x in rows
  {
    var afterOffset := if offset.Some? && offset.value != 0 then Seqs.SliceFrom(rows, offset.value) else rows;
    assert forall x :: x in afterOffset ==> x in rows;
    if limit.Some? && limit.value != 0 {
      assert forall x :: x in Seqs.SliceTo(afterOffset, limit.value) ==> x in afterOffset;
    }
  }

  /** A row of a status queue resolves only to a stored record with that
      status. */
  lemma QueuedIsRecord(store: Store, order: seq<string>, status: ValidationStatus, e: Entry, p: EvidencePoint)
    requires QueuesSound(store) && Lists(order, store)
    requires e in GetByPrefix(store, order, StatusPrefix(status)) && Resolve(store, e.value) == Some(p)
    ensures EvidenceKey(e.value.id) in store && store[EvidenceKey(e.value.id)] == Point(p)
    ensures p.validationStatus == status
  {
    var rows := GetByPrefix(store, order, StatusPrefix(status));
    var i :| 0 <= i < |rows| && rows[i] == e;
    QueueKeyIsRecord(store, status, e, p);
  }

  lemma QueueKeyIsRecord(store: Store, status: ValidationStatus, e: Entry, p: EvidencePoint)
    requires QueuesSound(store)
    requires StartsWith(e.key, StatusPrefix(status)) && e.key in store && store[e.key] == e.value
    requires Resolve(store, e.value) == Some(p)
    ensures EvidenceKey(e.value.id) in store && store[EvidenceKey(e.value.id)] == Point(p)
    ensures p.validationStatus == status
  {
    var pre := StatusPrefix(status);
    var id := e.key[|pre|..];
    assert e.key == pre + id;
    assert e.key == ValidationKey(status, id);
  }

  /** A stored record is a row of the queue of its status. */
  lemma RecordIsQueued(store: Store, order: seq<string>, p: EvidencePoint)
    requires QueuesComplete(store) && RecordsKeyed(store) && Lists(order, store)
    requires EvidenceKey(p.id) in store && store[EvidenceKey(p.id)] == Point(p)
    ensures Entry(ValidationKey(p.validationStatus, p.id), Ref(p.id))
            in GetByPrefix(store, order, StatusPrefix(p.validationStatus))
  {
    var k := ValidationKey(p.validationStatus, p.id);
    assert k in store && k in order;
    assert k == StatusPrefix(p.validationStatus) + p.id;
    assert StartsWith(k, StatusPrefix(p.validationStatus));
  }

  /** Under the queue invariant, an unpaginated status query returns exactly
      the stored records that have that status. */
  lemma ByStatusExact(store: Store, order: seq<string>, status: ValidationStatus, p: EvidencePoint)
    requires QueueInvariant(store) && Lists(order, store)
    ensures p in ByStatus(store, order, status, None, None) <==>
      EvidenceKey(p.id) in store && store[EvidenceKey(p.id)] == Point(p) && p.validationStatus == status
  {
    var rows := GetByPrefix(store, order, StatusPrefix(status));
    assert ByStatus(store, order, status, None, None) == ResolveAll(store, rows);
    if p in ByStatus(store, order, status, None, None) {
      var e :| e in rows && Resolve(store, e.value) == Some(p);
      QueuedIsRecord(store, order, status, e, p);
    }
    if EvidenceKey(p.id) in store && store[EvidenceKey(p.id)] == Point(p) && p.validationStatus == status {
      RecordIsQueued(store, order, p);
      assert Resolve(store, Ref(p.id)) == Some(p);
    }
  }

  /** After a status change the point is listed under its new status and no
      longer under its old one. */
  lemma UpdateMovesBetweenQueues(store: Store, order: seq<string>, id: string, status: ValidationStatus,
                                 validator: string, now: Time)
    requires QueueInvariant(store)
    requires UpdateValidation(store, id, status, validator, now).Some?
    requires Lists(order, UpdateValidation(store, id, status, validator, now).value.store)
    ensures var u := UpdateValidation(store, id, status, validator, now).value;
      && u.point in ByStatus(u.store, order, status, None, None)
      && (forall st :: st != status ==> u.point !in ByStatus(u.store, order, st, None, None))
  {
    var u := UpdateValidation(store, id, status, validator, now).value;
    UpdatePreservesQueues(store, id, status, validator, now);
    assert u.point.id == id;
    ByStatusExact(u.store, order, status, u.point);
    forall st | st != status ensures u.point !in ByStatus(u.store, order, st, None, None) {
      ByStatusExact(u.store, order, st, u.point);
    }
  }

  // ---------------------------------------------------------------------
  // Per-dimension summaries
  // ---------------------------------------------------------------------

  /** `EvidenceSummary`. */
  datatype Summary = Summary(
    materialId: string,
    dimension: Dimension,
    total: nat,
    parametersCovered: nat,
    uniqueSources: nat,
    weightSum: real,
    validatedCount: nat,
    pendingCount: nat,
    flaggedCount: nat,
    firstDate: Time,
    lastDate: Time)

  /** The distinct dimensions of `ps` in order of first appearance (the
      iteration order of the JavaScript `Map` the source groups into). */
  function DimensionsInOrder(ps: seq<EvidencePoint>): (r: seq<Dimension>)
    ensures Seqs.Distinct(r)
    ensures forall d :: d in r <==> exists p :: p in ps && p.dimension == d
    decreases |ps|
  {
    if |ps| == 0 then []
    else
      var init := ps[..|ps| - 1];
      var last := ps[|ps| - 1];
      var rest := DimensionsInOrder(init);
      assert forall p :: p in ps <==> p in init || p == last;
      if last.dimension in rest then rest else rest + [last.dimension]
  }

  function CodeSet(ps: seq<EvidencePoint>): (r: set<string>)
    ensures |r| <= |ps|
    decreases |ps|
  {
    if |ps| == 0 then {} else {ps[0].parameterCode} + CodeSet(ps[1..])
  }

  function SourceSet(ps: seq<EvidencePoint>): (r: set<string>)
    ensures |r| <= |ps|
    decreases |ps|
  {
    if |ps| == 0 then {} else {ps[0].sourceRef} + SourceSet(ps[1..])
  }

  function SumWeights(ps: seq<EvidencePoint>): real
    decreases |ps|
  {
    if |ps| == 0 then 0.0 else ps[0].sourceWeight + SumWeights(ps[1..])
  }

  function CountStatus(ps: seq<EvidencePoint>, s: ValidationStatus): (n: nat)
    ensures n <= |ps|
    decreases |ps|
  {
    if |ps| == 0 then 0 else (if ps[0].validationStatus == s then 1 else 0) + CountStatus(ps[1..], s)
  }

  function MinCreated(ps: seq<EvidencePoint>): (t: Time)
    requires |ps| > 0
    ensures forall p :: p in ps ==> t <= p.createdAt
    ensures exists p :: p in ps && p.createdAt == t
    decreases |ps|
  {
    if |ps| == 1 then ps[0].createdAt
    else
      var m := MinCreated(ps[1..]);
      assert forall p :: p in ps ==> p == ps[0] || p in ps[1..];
      if ps[0].createdAt <= m then ps[0].createdAt else m
  }

  function MaxCreated(ps: seq<EvidencePoint>): (t: Time)
    requires |ps| > 0
    ensures forall p :: p in ps ==> p.createdAt <= t
    ensures exists p :: p in ps && p.createdAt == t
    decreases |ps|
  {
    if |ps| == 1 then ps[0].createdAt
    else
      var m := MaxCreated(ps[1..]);
      assert forall p :: p in ps ==> p == ps[0] || p in ps[1..];
      if ps[0].createdAt >= m then ps[0].createdAt else m
  }

  lemma {:induction false} SumWeightsBounds(ps: seq<EvidencePoint>)
    requires forall p :: p in ps ==> 0.0 <= p.sourceWeight <= 1.0
    ensures 0.0 <= SumWeights(ps) <= |ps| as real
    decreases |ps|
  {
    if |ps| > 0 {
      assert forall p :: p in ps[1..] ==> p in ps;
      SumWeightsBounds(ps[1..]);
    }
  }

  lemma {:induction false} StatusCountsBounded(ps: seq<EvidencePoint>)
    ensures CountStatus(ps, Validated) + CountStatus(ps, Pending) + CountStatus(ps, Flagged) <= |ps|
    decreases |ps|
  {
    if |ps| > 0 {
      StatusCountsBounded(ps[1..]);
    }
  }

  /** The bounds every summary keeps: a non-empty group, status counts and
      distinct parameters within the total, and a first date no later than
      the last. */
  predicate Consistent(s: Summary) {
    && s.total >= 1
    && s.validatedCount + s.pendingCount + s.flaggedCount <= s.total
    && s.parametersCovered <= s.total && s.uniqueSources <= s.total
    && s.firstDate <= s.lastDate
  }

  /** `avg_source_weight`: the mean weight of the group, which stays in
      `[0, 1]` when every weight does. */
  function AvgSourceWeight(s: Summary): (r: real)
    requires s.total >= 1
    ensures 0.0 <= s.weightSum <= s.total as real ==> 0.0 <= r <= 1.0
  {
    var n := s.total as real;
    assert 0.0 <= s.weightSum <= n ==> 0.0 <= s.weightSum / n <= 1.0 by {
      if 0.0 <= s.weightSum <= n {
        assert s.weightSum / n * n == s.weightSum;
      }
    }
    s.weightSum / n
  }

  /** The summary of one non-empty dimension group. */
  function Summarize(mat: string, d: Dimension, group: seq<EvidencePoint>): (r: Summary)
    requires |group| > 0
    ensures r.total == |group| && r.dimension == d && r.materialId == mat
    ensures Consistent(r)
    ensures (forall p :: p in group ==> 0.0 <= p.sourceWeight <= 1.0) ==> 0.0 <= AvgSourceWeight(r) <= 1.0
  {
    StatusCountsBounded(group);
    assert (forall p :: p in group ==> 0.0 <= p.sourceWeight <= 1.0) ==>
      0.0 <= SumWeights(group) <= |group| as real by {
      if forall p :: p in group ==> 0.0 <= p.sourceWeight <= 1.0 {
        SumWeightsBounds(group);
      }
    }
    Summary(mat, d, |group|, |CodeSet(group)|, |SourceSet(group)|, SumWeights(group),
            CountStatus(group, Validated), CountStatus(group, Pending), CountStatus(group, Flagged),
            MinCreated(group), MaxCreated(group))
  }

  /** The points of each dimension of `ds`, in the same order. */
  function GroupBy(ps: seq<EvidencePoint>, ds: seq<Dimension>): (r: seq<seq<EvidencePoint>>)
    ensures |r| == |ds|
    ensures forall i :: 0 <= i < |ds| ==> r[i] == WithDimension(ps, ds[i])
    decreases |ds|
  {
    if |ds| == 0 then [] else [WithDimension(ps, ds[0])] + GroupBy(ps, ds[1..])
  }

  function SizeOf(groups: seq<seq<EvidencePoint>>): nat
    decreases |groups|
  {
    if |groups| == 0 then 0 else |groups[0]| + SizeOf(groups[1..])
  }

  /** One summary per non-empty group, totals carried over. */
  function SummariesFor(mat: string, ds: seq<Dimension>, groups: seq<seq<EvidencePoint>>): (r: seq<Summary>)
    requires |groups| == |ds|
    requires forall i :: 0 <= i < |groups| ==> |groups[i]| > 0
    ensures |r| == |ds|
    ensures forall i :: 0 <= i < |r| ==> r[i].dimension == ds[i] && r[i].total == |groups[i]|
    ensures forall i :: 0 <= i < |r| ==> Consistent(r[i]) && r[i].materialId == mat
  {
    seq(|ds|, i requires 0 <= i < |ds| => Summarize(mat, ds[i], groups[i]))
  }

  lemma {:induction false} SummaryTotals(mat: string, ds: seq<Dimension>, groups: seq<seq<EvidencePoint>>)
    requires |groups| == |ds|
    requires forall i :: 0 <= i < |groups| ==> |groups[i]| > 0
    ensures TotalOf(SummariesFor(mat, ds, groups)) == SizeOf(groups)
    decreases |ds|
  {
    if |ds| > 0 {
      var r := SummariesFor(mat, ds, groups);
      var rest := SummariesFor(mat, ds[1..], groups[1..]);
      forall i | 0 <= i < |rest| ensures r[1..][i] == rest[i] {
        assert ds[1..][i] == ds[i + 1] && groups[1..][i] == groups[i + 1];
      }
      assert r[1..] == rest;
      SummaryTotals(mat, ds[1..], groups[1..]);
    }
  }

  function TotalOf(ss: seq<Summary>): nat
    decreases |ss|
  {
    if |ss| == 0 then 0 else ss[0].total + TotalOf(ss[1..])
  }

  /** The grouping step of `getEvidenceStatsByMaterial`: one summary per
      dimension present, in order of first appearance, each counting exactly
      the points of its dimension. */
  function StatsOf(mat: string, ps: seq<EvidencePoint>): (r: seq<Summary>)
    ensures TotalOf(r) == |ps|
    ensures r == [] <==> ps == []
    ensures forall i, j :: 0 <= i < j < |r| ==> r[i].dimension != r[j].dimension
    ensures forall i :: 0 <= i < |r| ==> Consistent(r[i]) && r[i].materialId == mat
    ensures forall i :: 0 <= i < |r| ==> r[i].total == |WithDimension(ps, r[i].dimension)|
  {
    var ds := DimensionsInOrder(ps);
    var groups := GroupBy(ps, ds);
    GroupsNonEmpty(ps, ds);
    GroupTotals(ps, ds);
    GroupSizes(ps, ds);
    SummaryTotals(mat, ds, groups);
    SummariesFor(mat, ds, groups)
  }

  /** Every dimension present has a non-empty group. */
  lemma GroupsNonEmpty(ps: seq<EvidencePoint>, ds: seq<Dimension>)
    requires forall d :: d in ds ==> exists p :: p in ps && p.dimension == d
    ensures forall i :: 0 <= i < |GroupBy(ps, ds)| ==> |GroupBy(ps, ds)[i]| > 0
  {
    forall i | 0 <= i < |ds| ensures |WithDimension(ps, ds[i])| > 0 {
      assert ds[i] in ds;
      var p :| p in ps && p.dimension == ds[i];
      assert p in WithDimension(ps, ds[i]);
    }
  }

  /** `getEvidenceStatsByMaterial`: the summaries of a material's evidence,
      optionally for one dimension only; the totals add up to the number of
      points found. */
  function StatsByMaterial(store: Store, order: seq<string>, mat: string, dim: Option<Dimension>): (r: seq<Summary>)
    requires Lists(order, store)
    ensures TotalOf(r) == |ByMaterial(store, order, mat, None, dim)|
    ensures forall i :: 0 <= i < |r| ==> Consistent(r[i]) && r[i].materialId == mat
    ensures dim.Some? ==> forall i :: 0 <= i < |r| ==> r[i].dimension == dim.value
  {
    var ps := ByMaterial(store, order, mat, None, dim);
    var r := StatsOf(mat, ps);
    r
  }

  function SumGroupSizes(ps: seq<EvidencePoint>, ds: seq<Dimension>): nat
    decreases |ds|
  {
    if |ds| == 0 then 0 else |WithDimension(ps, ds[0])| + SumGroupSizes(ps, ds[1..])
  }

  lemma {:induction false} GroupSizes(ps: seq<EvidencePoint>, ds: seq<Dimension>)
    ensures SizeOf(GroupBy(ps, ds)) == SumGroupSizes(ps, ds)
    decreases |ds|
  {
    if |ds| > 0 {
      assert GroupBy(ps, ds)[1..] == GroupBy(ps, ds[1..]);
      GroupSizes(ps, ds[1..]);
    }
  }

  function Occurrences(ds: seq<Dimension>, d: Dimension): nat
    decreases |ds|
  {
    if |ds| == 0 then 0 else (if ds[0] == d then 1 else 0) + Occurrences(ds[1..], d)
  }

  lemma {:induction false} OccursOnce(ds: seq<Dimension>, d: Dimension)
    requires Seqs.Distinct(ds)
    ensures Occurrences(ds, d) == if d in ds then 1 else 0
    decreases |ds|
  {
    if |ds| > 0 {
      OccursOnce(ds[1..], d);
    }
  }

  lemma {:induction false} SumGroupSizesCons(ds: seq<Dimension>, x: EvidencePoint, rest: seq<EvidencePoint>)
    ensures SumGroupSizes([x] + rest, ds) == SumGroupSizes(rest, ds) + Occurrences(ds, x.dimension)
    decreases |ds|
  {
    if |ds| > 0 {
      assert ([x] + rest)[1..] == rest;
      SumGroupSizesCons(ds[1..], x, rest);
    }
  }

  /** Grouping by a duplicate-free list of dimensions that covers every
      point loses and duplicates nothing. */
  lemma {:induction false} GroupTotals(ps: seq<EvidencePoint>, ds: seq<Dimension>)
    requires Seqs.Distinct(ds)
    requires forall p :: p in ps ==> p.dimension in ds
    ensures SumGroupSizes(ps, ds) == |ps|
    decreases |ps|
  {
    if |ps| == 0 {
      ZeroGroups(ds);
    } else {
      assert ps == [ps[0]] + ps[1..];
      assert forall p :: p in ps[1..] ==> p in ps;
      GroupTotals(ps[1..], ds);
      SumGroupSizesCons(ds, ps[0], ps[1..]);
      OccursOnce(ds, ps[0].dimension);
    }
  }

  lemma {:induction false} ZeroGroups(ds: seq<Dimension>)
    ensures SumGroupSizes([], ds) == 0
    decreases |ds|
  {
    if |ds| > 0 {
      ZeroGroups(ds[1..]);
    }
  }
}
