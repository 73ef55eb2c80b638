/** The administrators' takedown request list (`AdminTakedownList.tsx`):
    de-duplication of the fetched requests, the status badge, and the
    review dialog. */
module Takedowns {
  import opened Wrappers

  /** `resolution`. */
  datatype Resolution = FullRemoval | PartialRedaction | AttributionCorrection | NoAction

  /** A fetched request: the fields the list logic reads, and the number
      of keys the record arrived with (`Object.keys(r).length`). */
  datatype Request = Request(
    requestId: string,
    keyCount: nat,
    status: string,
    resolution: Option<Resolution>,
    reviewNotes: Option<string>)

  /** The position of the first request with the id. */
  function IndexOf(acc: seq<Request>, id: string): (r: Option<nat>)
    ensures r.Some? ==> (r.value < |acc| && acc[r.value].requestId == id
      && forall j :: 0 <= j < r.value ==> acc[j].requestId != id)
    ensures r.None? <==> forall j :: 0 <= j < |acc| ==> acc[j].requestId != id
    decreases |acc|
  {
    if |acc| == 0 then None
    else if acc[0].requestId == id then Some(0)
    else match IndexOf(acc[1..], id)
      case None => None
      case Some(k) => Some(k + 1)
  }

  /** One step of the reducer: append a new id; for a known id, replace
      the kept record only when the new one has strictly more keys. */
  function Step(acc: seq<Request>, r: Request): (out: seq<Request>)
    ensures IndexOf(acc, r.requestId).None? ==> out == acc + [r]
    ensures IndexOf(acc, r.requestId).Some? ==> |out| == |acc|
  {
    match IndexOf(acc, r.requestId)
    case None => acc + [r]
    case Some(i) => if r.keyCount > acc[i].keyCount then acc[i := r] else acc
  }

  /** The reducer over the whole response, left to right. */
  function Dedup(rs: seq<Request>): seq<Request>
    decreases |rs|
  {
    if |rs| == 0 then [] else Step(Dedup(rs[..|rs| - 1]), rs[|rs| - 1])
  }

  /** `data.requests?.reduce(...) || []`. */
  function Unique(requests: Option<seq<Request>>): (r: seq<Request>)
    ensures requests.None? ==> r == []
    ensures requests.Some? ==> r == Dedup(requests.value)
  {
    match requests
    case None => []
    case Some(rs) => Dedup(rs)
  }

  function Ids(rs: seq<Request>): (ids: seq<string>)
    ensures |ids| == |rs| && forall i :: 0 <= i < |rs| ==> ids[i] == rs[i].requestId
    decreases |rs|
  {
    if |rs| == 0 then [] else [rs[0].requestId] + Ids(rs[1..])
  }

  /** Each id once, in the order of its first occurrence. */
  function FirstOccurrences(ids: seq<string>): seq<string>
    decreases |ids|
  {
    if |ids| == 0 then []
    else
      var prefix := FirstOccurrences(ids[..|ids| - 1]);
      if ids[|ids| - 1] in prefix then prefix else prefix + [ids[|ids| - 1]]
  }

  /** First occurrences are distinct and cover every id. */
  lemma {:induction false} FirstOccurrencesShape(ids: seq<string>)
    ensures forall i, j :: 0 <= i < j < |FirstOccurrences(ids)| ==> FirstOccurrences(ids)[i] != FirstOccurrences(ids)[j]
    ensures forall x :: x in FirstOccurrences(ids) <==> x in ids
    decreases |ids|
  {
    if |ids| > 0 {
      var init := ids[..|ids| - 1];
      FirstOccurrencesShape(init);
      assert ids == init + [ids[|ids| - 1]];
    }
  }

  /** The reference for the kept record: the first request with the id
      whose key count no other request with the id exceeds. */
  function Heaviest(rs: seq<Request>, id: string): (r: Option<Request>)
    ensures r.None? <==> forall j :: 0 <= j < |rs| ==> rs[j].requestId != id
    ensures r.Some? ==> (r.value in rs && r.value.requestId == id
      && forall j :: 0 <= j < |rs| && rs[j].requestId == id ==> rs[j].keyCount <= r.value.keyCount)
    decreases |rs|
  {
    if |rs| == 0 then None
    else
      var rest := Heaviest(rs[1..], id);
      if rs[0].requestId != id then rest
      else if rest.None? || rest.value.keyCount <= rs[0].keyCount then Some(rs[0])
      else rest
  }

  /** Appending a request changes the reference only when it has strictly
      more keys than the current one. */
  lemma {:induction false} HeaviestSnoc(rs: seq<Request>, x: Request, id: string)
    ensures Heaviest(rs + [x], id) ==
      if x.requestId != id then Heaviest(rs, id)
      else if Heaviest(rs, id).None? || x.keyCount > Heaviest(rs, id).value.keyCount then Some(x)
      else Heaviest(rs, id)
    decreases |rs|
  {
    if |rs| > 0 {
      assert (rs + [x])[1..] == rs[1..] + [x];
      HeaviestSnoc(rs[1..], x, id);
    }
  }

  /** A step appends the id exactly when it is new. */
  lemma StepIds(acc: seq<Request>, x: Request)
    ensures Ids(Step(acc, x)) == if x.requestId in Ids(acc) then Ids(acc) else Ids(acc) + [x.requestId]
  {
    match IndexOf(acc, x.requestId)
    case None =>
      assert x.requestId !in Ids(acc);
      assert Ids(acc + [x]) == Ids(acc) + [x.requestId];
    case Some(k) =>
      assert Ids(acc)[k] == x.requestId;
      var out := Step(acc, x);
      assert Ids(out) == Ids(acc);
  }

  /** The ids after de-duplication, in first-occurrence order. */
  lemma {:induction false} DedupIds(rs: seq<Request>)
    ensures Ids(Dedup(rs)) == FirstOccurrences(Ids(rs))
    decreases |rs|
  {
    if |rs| > 0 {
      var init := rs[..|rs| - 1];
      var x := rs[|rs| - 1];
      DedupIds(init);
      StepIds(Dedup(init), x);
      assert Ids(rs)[..|Ids(rs)| - 1] == Ids(init);
    }
  }

  /** A step keeps every entry the reference's choice, given the
      reference for the requests seen so far and distinct ids. */
  lemma StepHeaviestAt(init: seq<Request>, acc: seq<Request>, x: Request, i: nat)
    requires forall j :: 0 <= j < |acc| ==> Heaviest(init, acc[j].requestId) == Some(acc[j])
    requires forall j, l :: 0 <= j < l < |acc| ==> acc[j].requestId != acc[l].requestId
    requires forall j :: 0 <= j < |init| ==> init[j].requestId in Ids(acc)
    requires i < |Step(acc, x)|
    ensures Heaviest(init + [x], Step(acc, x)[i].requestId) == Some(Step(acc, x)[i])
  {
    var out := Step(acc, x);
    HeaviestSnoc(init, x, out[i].requestId);
    match IndexOf(acc, x.requestId)
    case None =>
      if i == |acc| {
        assert Heaviest(init, x.requestId).None? by {
          forall j | 0 <= j < |init| ensures init[j].requestId != x.requestId {
            var ids := Ids(acc);
            var l :| 0 <= l < |ids| && ids[l] == init[j].requestId;
            assert acc[l].requestId == init[j].requestId;
          }
        }
      } else {
        assert out[i] == acc[i];
      }
    case Some(k) =>
      if i != k {
        assert out[i] == acc[i];
        assert acc[i].requestId != acc[k].requestId;
      }
  }

  lemma StepHeaviest(init: seq<Request>, acc: seq<Request>, x: Request)
    requires forall j :: 0 <= j < |acc| ==> Heaviest(init, acc[j].requestId) == Some(acc[j])
    requires forall j, l :: 0 <= j < l < |acc| ==> acc[j].requestId != acc[l].requestId
    requires forall j :: 0 <= j < |init| ==> init[j].requestId in Ids(acc)
    ensures forall i :: 0 <= i < |Step(acc, x)| ==>
      Heaviest(init + [x], Step(acc, x)[i].requestId) == Some(Step(acc, x)[i])
  {
    forall i | 0 <= i < |Step(acc, x)|
      ensures Heaviest(init + [x], Step(acc, x)[i].requestId) == Some(Step(acc, x)[i])
    {
      StepHeaviestAt(init, acc, x, i);
    }
  }

  /** Under each id the list keeps the reference's choice: the first
      request with the greatest key count. */
  lemma {:induction false} DedupHeaviest(rs: seq<Request>)
    ensures forall i :: 0 <= i < |Dedup(rs)| ==> Heaviest(rs, Dedup(rs)[i].requestId) == Some(Dedup(rs)[i])
    decreases |rs|
  {
    if |rs| > 0 {
      var init := rs[..|rs| - 1];
      var x := rs[|rs| - 1];
      assert rs == init + [x];
      DedupHeaviest(init);
      DedupDistinct(init);
      var acc := Dedup(init);
      forall j | 0 <= j < |init| ensures init[j].requestId in Ids(acc) {
        assert Ids(init)[j] == init[j].requestId;
      }
      StepHeaviest(init, acc, x);
    }
  }

  /** The de-duplicated list holds each id exactly once. */
  lemma DedupDistinct(rs: seq<Request>)
    ensures forall i, j :: 0 <= i < j < |Dedup(rs)| ==> Dedup(rs)[i].requestId != Dedup(rs)[j].requestId
    ensures forall id :: id in Ids(rs) <==> id in Ids(Dedup(rs))
  {
    DedupIds(rs);
    FirstOccurrencesShape(Ids(rs));
    var out := Dedup(rs);
    forall i, j | 0 <= i < j < |out| ensures out[i].requestId != out[j].requestId {
      assert Ids(out)[i] == out[i].requestId && Ids(out)[j] == out[j].requestId;
    }
  }

  // ---------------------------------------------------------------------
  // Status badge
  // ---------------------------------------------------------------------

  /** The badge variants. */
  datatype Variant = Secondary | Default | Outline | Destructive

  /** The position of the first `a` in `s`. */
  function FirstIndex(s: string, a: char): (r: Option<nat>)
    ensures r.None? <==> a !in s
    ensures r.Some? ==> r.value < |s| && s[r.value] == a && a !in s[..r.value]
    decreases |s|
  {
    if |s| == 0 then None
    else if s[0] == a then Some(0)
    else match FirstIndex(s[1..], a)
      case None => None
      case Some(k) =>
        assert s[..k + 1] == [s[0]] + s[1..][..k];
        Some(k + 1)
  }

  /** `s.replace(a, b)` with a one-character pattern: only the first
      occurrence is replaced. */
  function ReplaceFirst(s: string, a: char, b: char): (r: string)
    ensures |r| == |s|
    ensures a !in s ==> r == s
    ensures a in s ==> r[FirstIndex(s, a).value] == b
    ensures forall i :: 0 <= i < |s| && (a !in s || i != FirstIndex(s, a).value) ==> r[i] == s[i]
  {
    match FirstIndex(s, a)
    case None => s
    case Some(k) => s[..k] + [b] + s[k + 1..]
  }

  /** `getStatusBadge`: a missing status reads as "pending"; an unknown one
      gets the pending style but keeps its own text. */
  function Badge(status: string): (r: (Variant, string))
    ensures status == "" ==> r == (Secondary, "pending")
    ensures status !in {"", "under_review", "resolved", "rejected"} ==> r.0 == Secondary
    ensures status != "" ==> r.1 == ReplaceFirst(status, '_', ' ')
    ensures r.0 == Default <==> status == "under_review"
    ensures r.0 == Outline <==> status == "resolved"
    ensures r.0 == Destructive <==> status == "rejected"
  {
    var safe := if status == "" then "pending" else status;
    var variant :=
      if safe == "under_review" then Default
      else if safe == "resolved" then Outline
      else if safe == "rejected" then Destructive
      else Secondary;
    (variant, ReplaceFirst(safe, '_', ' '))
  }

  // ---------------------------------------------------------------------
  // Review dialog
  // ---------------------------------------------------------------------

  /** `reviewData`. */
  datatype Review = Review(status: string, resolution: Option<Resolution>, reviewNotes: string)

  /** The dialog: the request under review, the form, and whether it is open. */
  datatype Dialog = Dialog(selected: Option<Request>, review: Review, open: bool)

  const Closed := Dialog(None, Review("under_review", None, ""), false)

  /** `openReviewDialog`: the form starts from the request's own status
      and resolution, with missing notes as "". */
  function OpenReview(d: Dialog, r: Request): (out: Dialog)
    ensures out.open && out.selected == Some(r)
    ensures out.review.status == r.status && out.review.resolution == r.resolution
    ensures out.review.reviewNotes == r.reviewNotes.GetOr("")
  {
    Dialog(Some(r), Review(r.status, r.resolution, r.reviewNotes.GetOr("")), true)
  }

  /** `handleUpdateRequest`: nothing without a selected request; with one
      and a session token, the form is sent as a PATCH for its id; the
      dialog closes only when the server accepts it. */
  function Update(d: Dialog, hasToken: bool, ok: bool): (r: (Dialog, Option<(string, Review)>))
    ensures r.1.Some? <==> d.selected.Some? && hasToken
    ensures r.1.Some? ==> r.1.value == (d.selected.value.requestId, d.review)
    ensures r.0.open <==> d.open && !(r.1.Some? && ok)
    ensures r.0.selected == d.selected && r.0.review == d.review
  {
    if d.selected.None? || !hasToken then (d, None)
    else ((if ok then d.(open := false) else d), Some((d.selected.value.requestId, d.review)))
  }
}
