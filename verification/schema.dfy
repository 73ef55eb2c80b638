/** The records the evidence and aggregation layers keep in the key-value
    store, the store itself (a map from keys to values, listed in some order
    by `getByPrefix`), and the key layout both layers share. */
module Schema {
  import opened Wrappers
  import opened Text
  import Seqs

  /** Milliseconds since the epoch; the ISO strings of the source are a
      faithful encoding of these. */
  type Time = int

  datatype Dimension = CR | CC | RU
  datatype ValidationStatus = Pending | Validated | Flagged | Duplicate
  datatype SourceType = Whitepaper | ArticleSource | External | Manual
  datatype Confidence = HighConf | MediumConf | LowConf

  function StatusName(s: ValidationStatus): string {
    match s
    case Pending => "pending"
    case Validated => "validated"
    case Flagged => "flagged"
    case Duplicate => "duplicate"
  }

  /** An evidence point (a "MIU"): one value extracted from one source. */
  datatype EvidencePoint = EvidencePoint(
    id: string,
    materialId: string,
    parameterCode: string,
    rawValue: real,
    rawUnit: string,
    transformedValue: Option<real>,
    transformVersion: string,
    snippet: string,
    sourceType: SourceType,
    citation: string,
    confidence: Confidence,
    notes: Option<string>,
    pageNumber: Option<int>,
    figureNumber: Option<string>,
    tableNumber: Option<string>,
    createdBy: string,
    createdAt: Time,
    updatedAt: Time,
    sourceRef: string,
    sourceWeight: real,
    validationStatus: ValidationStatus,
    validatedBy: Option<string>,
    validatedAt: Option<Time>,
    restrictedContent: bool,
    conflictOfInterest: Option<string>,
    dimension: Dimension)

  /** A JavaScript number as the aggregation layer can produce it: a real
      value, or `NaN` (a weighted mean over weights summing to zero). */
  datatype Num = Val(v: real) | NaN {
    function Minus(other: Num): Num {
      if Val? && other.Val? then Val(v - other.v) else NaN
    }
  }

  /** A parameter aggregation: a weighted mean over evidence points, with
      its version-history bookkeeping. */
  datatype Aggregation = Aggregation(
    id: string,
    materialId: string,
    parameter: string,
    dimension: Dimension,
    mean: Num,
    se: Option<Num>,
    ciLower: Option<Num>,
    ciUpper: Option<Num>,
    nMius: int,
    miuIds: seq<string>,
    weightsUsed: map<string, real>,
    transformVersion: string,
    ontologyVersion: string,
    codebookVersion: string,
    qualityThreshold: real,
    minSources: int,
    calculatedBy: string,
    calculatedAt: Time,
    isCurrent: bool,
    supersededAt: Option<Time>,
    supersededBy: Option<string>)

  /** What a key can hold: a record, or an index entry naming a record id. */
  datatype Value = Point(p: EvidencePoint) | Ref(id: string) | Agg(a: Aggregation)

  type Store = map<string, Value>

  /** One row returned by `getByPrefix`. */
  datatype Entry = Entry(key: string, value: Value)

  /** `order` lists every key of the store exactly once: the order in which
      the store hands rows back. */
  predicate Lists(order: seq<string>, store: Store) {
    Seqs.Distinct(order)
    && (forall i :: 0 <= i < |order| ==> order[i] in store)
    && (forall k :: k in store ==> k in order)
  }

  /** The keys of some rows, in row order. */
  function KeysOf(rows: seq<Entry>): seq<string> {
    Seqs.Map((e: Entry) => e.key, rows)
  }

  /** The keys a prefix scan selects. */
  function Under(prefix: string): string -> bool {
    (k: string) => StartsWith(k, prefix)
  }

  /** `kv.getByPrefix(prefix)`: the rows whose key starts with `prefix`, in
      listing order. */
  function GetByPrefix(store: Store, order: seq<string>, prefix: string): (r: seq<Entry>)
    requires forall i :: 0 <= i < |order| ==> order[i] in store
    ensures forall i :: 0 <= i < |r| ==>
      StartsWith(r[i].key, prefix) && r[i].key in store && store[r[i].key] == r[i].value
    ensures forall i :: 0 <= i < |order| && StartsWith(order[i], prefix) ==>
      Entry(order[i], store[order[i]]) in r
    ensures KeysOf(r) == Seqs.Filter(Under(prefix), order)
    ensures |r| <= |order|
    decreases |order|
  {
    if |order| == 0 then []
    else
      var rest := GetByPrefix(store, order[1..], prefix);
      if StartsWith(order[0], prefix) then
        var e := Entry(order[0], store[order[0]]);
        KeysOfCons(e, rest);
        [e] + rest
      else rest
  }

  lemma KeysOfCons(e: Entry, rows: seq<Entry>)
    ensures KeysOf([e] + rows) == [e.key] + KeysOf(rows)
  {
    assert ([e] + rows)[1..] == rows;
  }

  // ---------------------------------------------------------------------
  // Key layout
  // ---------------------------------------------------------------------

  function EvidenceKey(id: string): string { "evidence:" + id }
  function MaterialIndexKey(mat: string, param: string, id: string): string {
    "evidence_by_material:" + mat + ":" + param + ":" + id
  }
  function SourceIndexKey(src: string, id: string): string { "evidence_by_source:" + src + ":" + id }
  function ValidationKey(s: ValidationStatus, id: string): string {
    "evidence_by_validation:" + StatusName(s) + ":" + id
  }
  function AggregationKey(id: string): string { "aggregation:" + id }
  function CurrentKey(mat: string, param: string): string { "aggregation_current:" + mat + ":" + param }
  function HistoryKey(mat: string, param: string, id: string): string {
    "aggregation_history:" + mat + ":" + param + ":" + id
  }

  /** Keys built from different families never coincide: each family has
      its own leading word. */
  lemma KeyFamiliesDistinct(x: string, m: string, p: string, i: string, src: string, j: string,
                            st: ValidationStatus, k: string)
    ensures EvidenceKey(x) != MaterialIndexKey(m, p, i)
    ensures EvidenceKey(x) != SourceIndexKey(src, j)
    ensures EvidenceKey(x) != ValidationKey(st, k)
    ensures MaterialIndexKey(m, p, i) != SourceIndexKey(src, j)
    ensures MaterialIndexKey(m, p, i) != ValidationKey(st, k)
    ensures SourceIndexKey(src, j) != ValidationKey(st, k)
  {
    assert EvidenceKey(x)[8] == ':';
    assert MaterialIndexKey(m, p, i)[8] == '_' && MaterialIndexKey(m, p, i)[12] == 'm';
    assert SourceIndexKey(src, j)[8] == '_' && SourceIndexKey(src, j)[12] == 's';
    assert ValidationKey(st, k)[8] == '_' && ValidationKey(st, k)[12] == 'v';
  }

  /** Queue keys of different statuses differ: the status names start with
      different letters. */
  lemma ValidationKeysDiffer(s1: ValidationStatus, s2: ValidationStatus, id1: string, id2: string)
    requires s1 != s2
    ensures ValidationKey(s1, id1) != ValidationKey(s2, id2)
  {
    assert ValidationKey(s1, id1)[23] == StatusName(s1)[0];
    assert ValidationKey(s2, id2)[23] == StatusName(s2)[0];
  }

  /** A validation-queue key determines its status and its id. */
  lemma ValidationKeyInjective(s1: ValidationStatus, id1: string, s2: ValidationStatus, id2: string)
    requires ValidationKey(s1, id1) == ValidationKey(s2, id2)
    ensures s1 == s2 && id1 == id2
  {
    var k1 := ValidationKey(s1, id1);
    var k2 := ValidationKey(s2, id2);
    assert k1[23] == StatusName(s1)[0];
    assert k2[23] == StatusName(s2)[0];
    var n := |"evidence_by_validation:" + StatusName(s1) + ":"|;
    assert k1[n..] == id1;
    assert k2[n..] == id2;
  }

  /** Evidence record keys determine the id. */
  lemma EvidenceKeyInjective(id1: string, id2: string)
    requires EvidenceKey(id1) == EvidenceKey(id2)
    ensures id1 == id2
  {
    assert EvidenceKey(id1)[9..] == id1;
    assert EvidenceKey(id2)[9..] == id2;
  }

  lemma AggregationKeyInjective(id1: string, id2: string)
    requires AggregationKey(id1) == AggregationKey(id2)
    ensures id1 == id2
  {
    assert AggregationKey(id1)[12..] == id1;
    assert AggregationKey(id2)[12..] == id2;
  }

  /** Splitting at the last ':' recovers both halves when the right half
      has no ':'. */
  lemma LastColonSplit(a: string, p: string, b: string, q: string)
    requires a + ":" + p == b + ":" + q
    requires ':' !in p && ':' !in q
    ensures a == b && p == q
  {
    var s := a + ":" + p;
    var t := b + ":" + q;
    ColonFreeTail(a, p);
    ColonFreeTail(b, q);
    if |p| != |q| {
      assert false;
    }
    assert s[|s| - |p|..] == p;
    assert t[|t| - |q|..] == q;
    assert s[..|a|] == a;
    assert t[..|b|] == b;
  }

  lemma ColonFreeTail(a: string, p: string)
    requires ':' !in p
    ensures (a + ":" + p)[|a|] == ':'
    ensures forall i :: |a| < i < |a + ":" + p| ==> (a + ":" + p)[i] != ':'
  {
    var s := a + ":" + p;
    forall i | |a| < i < |s| ensures s[i] != ':' {
      assert s[i] == p[i - |a| - 1];
    }
  }

  /** The current-aggregation pointer key determines the material and the
      parameter when parameter codes have no ':'. */
  lemma CurrentKeyInjective(m1: string, p1: string, m2: string, p2: string)
    requires CurrentKey(m1, p1) == CurrentKey(m2, p2)
    requires ':' !in p1 && ':' !in p2
    ensures m1 == m2 && p1 == p2
  {
    var pre := "aggregation_current:";
    assert CurrentKey(m1, p1) == (pre + m1) + ":" + p1;
    assert CurrentKey(m2, p2) == (pre + m2) + ":" + p2;
    LastColonSplit(pre + m1, p1, pre + m2, p2);
    assert (pre + m1)[|pre|..] == m1;
    assert (pre + m2)[|pre|..] == m2;
  }
}
