/** The materials provider (`MaterialsContext.tsx`): loading with
    normalisation and the data-version reset, `saveMaterials` with its
    bulk-loss safeguard and retries, the single-material CRUD operations and
    the sync guard. Browser storage is part of the state; every remote call's
    outcome is an input. */
module Store {
  import opened Wrappers
  import opened Materials
  import Text
  import Seqs

  /** The data version the loader expects. */
  const CleanVersion := "2.0-clean"

  /** `maxRetries`: one attempt and two retries. */
  const MaxRetries: nat := 2

  datatype SyncStatus = Idle | Syncing | Synced | Error | Offline

  /** What `localStorage.materials` holds. */
  datatype Cache = Missing | Corrupt | Parsed(materials: seq<Material>)

  /** The provider's state together with the browser storage it writes. */
  datatype State = State(
    materials: seq<Material>,
    cache: Cache,
    lastKnownCount: Option<string>,
    dataVersion: Option<string>,
    status: SyncStatus,
    available: bool)

  /** The signed-in user, if any, and whether they are an admin. */
  datatype Session = Session(user: bool, admin: bool)

  // ---------------------------------------------------------------------
  // Loading
  // ---------------------------------------------------------------------

  /** `{...m, category: m.category || "Plastics", articles: m.articles || {…}}`. */
  function Normalise(m: Material): (r: Material)
    ensures r.category != "" && r.articles.Some?
    ensures r.id == m.id && r.name == m.name
    ensures m.category != "" ==> r.category == m.category
    ensures m.articles.Some? ==> r.articles == m.articles
  {
    m.(category := if m.category == "" then "Plastics" else m.category,
       articles := Some(m.articles.GetOr(NoArticles)))
  }

  /** A loaded material: it has a category and article lists. */
  predicate Normal(m: Material) {
    m.category != "" && m.articles.Some?
  }

  predicate AllNormal(ms: seq<Material>) {
    forall i :: 0 <= i < |ms| ==> Normal(ms[i])
  }

  /** Normalising a loaded material changes nothing. */
  lemma NormaliseFixes(m: Material)
    ensures Normal(m) <==> Normalise(m) == m
  {
    if Normalise(m) == m {
      assert Normal(Normalise(m));
    }
  }

  /** Normalising twice is normalising once. */
  lemma NormaliseIdempotent(m: Material)
    ensures Normalise(Normalise(m)) == Normalise(m)
  {
    NormaliseFixes(Normalise(m));
  }

  /** Does `loadFromLocalStorage` start empty (`initializeSampleData`)?
      It does on a stale data version and when there is no parsable
      cache. */
  predicate StartsEmpty(st: State) {
    st.dataVersion != Some(CleanVersion) || !st.cache.Parsed?
  }

  /** Does loading call the backend? Starting empty is `saveMaterials([])`,
      which syncs for an admin with the backend available unless the
      safeguard fires. */
  predicate SyncsOnLoad(st: State, session: Session) {
    StartsEmpty(st) && CanSync(st, session) && !WouldWipe(st.lastKnownCount, 0)
  }

  /** `loadFromLocalStorage`: a stale data version clears the cache, sets
      the version and starts empty; otherwise the parsed cache is
      normalised, and a missing or unparsable cache starts empty. Starting
      empty saves the empty list, so it can sync or be refused by the
      safeguard; `ok(i)` is the outcome of sync attempt `i`. The
      availability `saveMaterials` tests is the one of the state loading
      starts from. */
  function LoadFromLocal(st: State, session: Session, ok: nat -> bool): (r: Saved)
    ensures AllNormal(r.state.materials)
    ensures r.state.dataVersion == Some(CleanVersion)
    ensures StartsEmpty(st) ==> r.state.materials == [] && r.state.cache == Parsed([])
    ensures !StartsEmpty(st) ==>
      r.state == st.(materials := Seqs.Map(Normalise, st.cache.materials)) && r.calls == 0
    ensures StartsEmpty(st) && !CanSync(st, session) ==>
      r.calls == 0 && r.state.status == st.status && r.state.available == st.available
      && r.state.lastKnownCount == st.lastKnownCount
    ensures StartsEmpty(st) && CanSync(st, session) && WouldWipe(st.lastKnownCount, 0) ==>
      r.calls == 0 && r.state.status == Offline && r.state.available
      && r.state.lastKnownCount == st.lastKnownCount
    ensures SyncsOnLoad(st, session) ==>
      1 <= r.calls <= MaxRetries + 1
      && r.state.lastKnownCount == Some(Text.NatToString(0))
      && (r.state.status == Synced || r.state.status == Error)
      && (r.state.status == Synced <==> exists i :: 0 <= i <= MaxRetries && ok(i))
      && (r.state.available <==> r.state.status == Synced)
  {
    if st.dataVersion != Some(CleanVersion) then
      Save(st.(dataVersion := Some(CleanVersion)), session, [], ok)
    else
      match st.cache
      case Parsed(ms) => Saved(st.(materials := Seqs.Map(Normalise, ms)), 0)
      case _ => Save(st, session, [], ok)
  }

  /** The mount effect: `remote` is what `getAllMaterials` returned, `None`
      when it threw. A non-empty remote list wins and is cached with its
      count; otherwise the local cache is loaded. The effect then sets the
      availability and a signed-in user's status; a sync that loading
      started completes after that, so its outcome is the final status,
      and a failed one leaves the backend unavailable. */
  function Load(st: State, session: Session, remote: Option<seq<Material>>, ok: nat -> bool): (r: State)
    ensures AllNormal(r.materials)
    ensures remote.Some? && |remote.value| > 0 ==>
      r.materials == Seqs.Map(Normalise, remote.value)
      && r.cache == Parsed(r.materials)
      && r.lastKnownCount == Some(Text.NatToString(|remote.value|))
      && r.available
    ensures remote.None? ==> !r.available
    ensures remote.Some? && !SyncsOnLoad(st, session) ==> r.available
    ensures remote.Some? && SyncsOnLoad(st, session) ==> (r.available <==> r.status == Synced)
    ensures session.user && remote.Some? && (|remote.value| > 0 || !SyncsOnLoad(st, session)) ==> r.status == Synced
    ensures session.user && remote.None? && !SyncsOnLoad(st, session) ==> r.status == Offline
    ensures (remote.None? || |remote.value| == 0) && SyncsOnLoad(st, session) ==>
      (r.status == Synced <==> exists i :: 0 <= i <= MaxRetries && ok(i))
      && (r.status == Synced || r.status == Error)
      && r.lastKnownCount == Some(Text.NatToString(0))
    ensures !session.user ==> r.status == st.status
  {
    match remote
    case Some(ms) =>
      if |ms| > 0 then
        var loaded := Seqs.Map(Normalise, ms);
        st.(materials := loaded, cache := Parsed(loaded),
            lastKnownCount := Some(Text.NatToString(|loaded|)),
            status := if session.user then Synced else st.status,
            available := true)
      else
        var local := LoadFromLocal(st, session, ok);
        if local.calls > 0 then local.state
        else local.state.(status := if session.user then Synced else local.state.status, available := true)
    case None =>
      var local := LoadFromLocal(st, session, ok);
      if local.calls > 0 then local.state.(available := false)
      else local.state.(status := if session.user then Offline else local.state.status, available := false)
  }

  // ---------------------------------------------------------------------
  // saveMaterials
  // ---------------------------------------------------------------------

  /** `stored ? parseInt(stored, 10) : 0`; `None` stands for `NaN`. */
  function StoredCount(stored: Option<string>): Option<int> {
    match stored
    case None => Some(0)
    case Some(s) => if s == "" then Some(0) else Text.ParseDecimal(s)
  }

  /** The safeguard: more than one material was known and at most one is
      about to be synced (`NaN > 1` is false). */
  predicate WouldWipe(stored: Option<string>, newCount: nat) {
    var c := StoredCount(stored);
    c.Some? && c.value > 1 && newCount <= 1
  }

  /** May this session write to the backend? */
  predicate CanSync(st: State, session: Session) {
    session.user && session.admin && st.available
  }

  /** The retry loop from `attempt` to `MaxRetries`: whether a call
      succeeded, and how many calls were made. `ok(i)` is the outcome of
      attempt `i`. */
  function Retry(ok: nat -> bool, attempt: nat): (r: (bool, nat))
    requires attempt <= MaxRetries
    ensures 1 <= r.1 <= MaxRetries + 1 - attempt
    ensures r.0 ==> ok(attempt + r.1 - 1)
    ensures !r.0 ==> r.1 == MaxRetries + 1 - attempt
    ensures forall i :: attempt <= i < attempt + r.1 - 1 ==> !ok(i)
    ensures r.0 <==> exists i :: attempt <= i <= MaxRetries && ok(i)
    decreases MaxRetries - attempt
  {
    if ok(attempt) then (true, 1)
    else if attempt == MaxRetries then (false, 1)
    else
      var (done, calls) := Retry(ok, attempt + 1);
      (done, calls + 1)
  }

  /** The result of `saveMaterials`: the new state and the number of
      `batchSaveMaterials` calls made. */
  datatype Saved = Saved(state: State, calls: nat)

  /** `saveMaterials(newMaterials)`. The local state and the cache always
      take the new list; the backend is written only by an admin with the
      backend available and only when the safeguard does not fire. */
  function Save(st: State, session: Session, newMs: seq<Material>, ok: nat -> bool): (r: Saved)
    ensures r.state.materials == newMs && r.state.cache == Parsed(newMs)
    ensures r.state.dataVersion == st.dataVersion
    ensures !CanSync(st, session) ==> r.state == st.(materials := newMs, cache := Parsed(newMs)) && r.calls == 0
    ensures CanSync(st, session) && WouldWipe(st.lastKnownCount, |newMs|) ==>
      r.calls == 0 && r.state.status == Offline && r.state.lastKnownCount == st.lastKnownCount
      && r.state.available
    ensures CanSync(st, session) && !WouldWipe(st.lastKnownCount, |newMs|) ==>
      1 <= r.calls <= MaxRetries + 1
      && r.state.lastKnownCount == Some(Text.NatToString(|newMs|))
      && (r.state.status == Synced || r.state.status == Error)
      && (r.state.status == Synced <==> ok(r.calls - 1))
      && (r.state.status == Error ==> r.calls == MaxRetries + 1 && !r.state.available)
      && (forall i :: 0 <= i < r.calls - 1 ==> !ok(i))
  {
    var local := st.(materials := newMs, cache := Parsed(newMs));
    if !CanSync(st, session) then Saved(local, 0)
    else if WouldWipe(st.lastKnownCount, |newMs|) then Saved(local.(status := Offline), 0)
    else
      var counted := local.(lastKnownCount := Some(Text.NatToString(|newMs|)));
      var (done, calls) := Retry(ok, 0);
      if done then Saved(counted.(status := Synced), calls)
      else Saved(counted.(status := Error, available := false), calls)
  }

  /** The count a save records reads back as the list length. */
  lemma StoredCountOf(n: nat)
    ensures StoredCount(Some(Text.NatToString(n))) == Some(n)
  {
    Text.ParseDecimalNatToString(n);
  }

  /** The bulk-loss safeguard: once a list of more than one material has
      been synced, saving at most one material afterwards stays local,
      reports `Offline` and makes no backend call. */
  lemma SafeguardBlocksWipe(st: State, session: Session, ms: seq<Material>, small: seq<Material>,
                            ok: nat -> bool, ok2: nat -> bool)
    requires CanSync(st, session) && |ms| > 1 && |small| <= 1
    requires !WouldWipe(st.lastKnownCount, |ms|)
    requires Save(st, session, ms, ok).state.status == Synced
    ensures Save(Save(st, session, ms, ok).state, session, small, ok2).calls == 0
    ensures Save(Save(st, session, ms, ok).state, session, small, ok2).state.status == Offline
    ensures Save(Save(st, session, ms, ok).state, session, small, ok2).state.materials == small
  {
    var first := Save(st, session, ms, ok).state;
    StoredCountOf(|ms|);
    assert first.lastKnownCount == Some(Text.NatToString(|ms|));
    assert WouldWipe(first.lastKnownCount, |small|);
    assert CanSync(first, session);
  }

  // ---------------------------------------------------------------------
  // Single-material operations
  // ---------------------------------------------------------------------

  /** `syncSingleMaterial`: `false` with no call unless the session may
      sync; otherwise `ok` is the call's outcome, and the status follows
      it. The result is `(state, returned, called)`. */
  function SyncSingle(st: State, session: Session, ok: bool): (r: (State, bool, bool))
    ensures !CanSync(st, session) ==> r == (st, false, false)
    ensures CanSync(st, session) ==> r.2 && r.1 == ok
    ensures CanSync(st, session) ==> r.0 == st.(status := if ok then Synced else Error)
  {
    if !CanSync(st, session) then (st, false, false)
    else (st.(status := if ok then Synced else Error), ok, true)
  }

  /** Store a new list locally, as each CRUD operation does, recording its
      length as the last known count. */
  function Stored(st: State, ms: seq<Material>): State {
    st.(materials := ms, cache := Parsed(ms), lastKnownCount := Some(Text.NatToString(|ms|)))
  }

  /** `addMaterial(data)` with the id `newId` (`Date.now()`); `ok` is the
      outcome of the create call. */
  function Add(st: State, session: Session, data: Material, newId: string, ok: bool): (r: State)
    ensures |r.materials| == |st.materials| + 1
    ensures r.materials[..|st.materials|] == st.materials
    ensures r.materials[|st.materials|] == data.(id := newId)
    ensures r.cache == Parsed(r.materials)
    ensures StoredCount(r.lastKnownCount) == Some(|r.materials|)
  {
    var ms := st.materials + [data.(id := newId)];
    StoredCountOf(|ms|);
    SyncSingle(Stored(st, ms), session, ok).0
  }

  /** `m.id === data.id ? data : m`. */
  function Replace(data: Material, m: Material): Material {
    if m.id == data.id then data else m
  }

  /** `updateMaterial(data)`. `hasId` says whether the argument carries an
      `id` key; without one nothing happens. A known id is replaced in
      place; an unknown one is appended. */
  function Update(st: State, session: Session, data: Material, hasId: bool, ok: bool): (r: State)
    ensures !hasId ==> r == st
    ensures hasId && FindIndex(st.materials, data.id).Some? ==>
      |r.materials| == |st.materials|
      && (forall i :: 0 <= i < |st.materials| ==>
            r.materials[i] == (if st.materials[i].id == data.id then data else st.materials[i]))
      && r.lastKnownCount == st.lastKnownCount
    ensures hasId && FindIndex(st.materials, data.id).None? ==>
      r.materials == st.materials + [data]
      && StoredCount(r.lastKnownCount) == Some(|r.materials|)
    ensures hasId ==> r.cache == Parsed(r.materials)
  {
    if !hasId then st
    else match FindIndex(st.materials, data.id)
      case Some(_) =>
        var ms := Seqs.Map(m => Replace(data, m), st.materials);
        SyncSingle(st.(materials := ms, cache := Parsed(ms)), session, ok).0
      case None =>
        var ms := st.materials + [data];
        StoredCountOf(|ms|);
        SyncSingle(Stored(st, ms), session, ok).0
  }

  /** `m.id !== id`. */
  function Other(id: string): Material -> bool {
    (m: Material) => m.id != id
  }

  /** `deleteMaterial(id)` after the `confirm` dialog answered `confirmed`;
      `ok` is the outcome of the delete call, made only when a material had
      that id. */
  function Delete(st: State, session: Session, id: string, confirmed: bool, ok: bool): (r: State)
    ensures !confirmed ==> r == st
    ensures confirmed ==> r.materials == Seqs.Filter(Other(id), st.materials)
    ensures confirmed ==> forall i :: 0 <= i < |r.materials| ==> r.materials[i].id != id
    ensures confirmed ==> r.cache == Parsed(r.materials)
    ensures confirmed ==> StoredCount(r.lastKnownCount) == Some(|r.materials|)
    ensures confirmed && FindIndex(st.materials, id).None? ==> r.materials == st.materials
  {
    if !confirmed then st
    else
      var ms := Seqs.Filter(Other(id), st.materials);
      StoredCountOf(|ms|);
      var local := Stored(st, ms);
      if FindIndex(st.materials, id).None? then
        Seqs.FilterAll(Other(id), st.materials);
        local
      else SyncSingle(local, session, ok).0
  }

  /** Deleting removes exactly the materials with that id: the survivors
      and the removed ones account for the whole list. */
  lemma {:induction false} DeleteAccounts(ms: seq<Material>, id: string)
    ensures |Seqs.Filter(Other(id), ms)| + |Seqs.Filter((m: Material) => m.id == id, ms)| == |ms|
    decreases |ms|
  {
    if |ms| > 0 {
      DeleteAccounts(ms[1..], id);
    }
  }

  /** Deleting an id that is present shortens the list. */
  lemma DeleteShrinks(st: State, session: Session, id: string, ok: bool)
    requires FindIndex(st.materials, id).Some?
    ensures |Delete(st, session, id, true, ok).materials| < |st.materials|
  {
    var k := FindIndex(st.materials, id).value;
    DeleteAccounts(st.materials, id);
    assert st.materials[k] in Seqs.Filter((m: Material) => m.id == id, st.materials);
  }

  /** `deleteAllMaterials`: empties the list and the cache; the last known
      count is left as it was. The result is the state and whether the
      backend was asked to delete everything. */
  function DeleteAll(st: State): (r: (State, bool))
    ensures r.0.materials == [] && r.0.cache == Missing
    ensures r.0.lastKnownCount == st.lastKnownCount
    ensures r.1 <==> st.available
  {
    (st.(materials := [], cache := Missing), st.available)
  }

  /** After deleting everything, the safeguard still remembers the old
      count: syncing an empty list next is refused. */
  lemma DeleteAllThenSaveRefused(st: State, session: Session, n: nat, ok: nat -> bool)
    requires n > 1 && st.lastKnownCount == Some(Text.NatToString(n)) && CanSync(st, session)
    ensures Save(DeleteAll(st).0, session, [], ok).calls == 0
    ensures Save(DeleteAll(st).0, session, [], ok).state.status == Offline
  {
    StoredCountOf(n);
  }

  /** `retrySync`: needs a signed-in admin but not availability; `ok` is
      the outcome of the batch call. Returns the state and whether the call
      was made. */
  function RetrySync(st: State, session: Session, ok: bool): (r: (State, bool))
    ensures r.1 <==> session.user && session.admin
    ensures !r.1 ==> r.0 == st
    ensures r.1 ==> r.0.available == ok && (r.0.status == Synced <==> ok) && r.0.materials == st.materials
  {
    if !session.user || !session.admin then (st, false)
    else if ok then (st.(status := Synced, available := true), true)
    else (st.(status := Error, available := false), true)
  }

  /** `getMaterialById`: the first material with that id. */
  function GetById(ms: seq<Material>, id: string): (r: Option<Material>)
    ensures r.Some? ==> r.value in ms && r.value.id == id
    ensures r.None? <==> forall i :: 0 <= i < |ms| ==> ms[i].id != id
  {
    match FindIndex(ms, id)
    case None => None
    case Some(k) => Some(ms[k])
  }

  /** A material just added is found by its new id when the id was not in
      use before. */
  lemma AddThenGet(st: State, session: Session, data: Material, newId: string, ok: bool)
    requires FindIndex(st.materials, newId).None?
    ensures GetById(Add(st, session, data, newId, ok).materials, newId) == Some(data.(id := newId))
  {
    var ms := Add(st, session, data, newId, ok).materials;
    var k := FindIndex(ms, newId);
    assert ms[|st.materials|].id == newId;
    assert k.Some? && k.value == |st.materials|;
  }
}
