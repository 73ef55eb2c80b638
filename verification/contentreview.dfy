/** The content review centre (`admin/ContentReviewCenter.tsx`): the three
    tabs over the submissions, the status updates its handlers send, the
    actions a card offers, and the relative dates on the cards. */
module ContentReview {
  import opened Wrappers
  import Seqs
  import Text

  /** A submission's `status`. */
  datatype Status = PendingReview | Approved | Rejected | NeedsRevision | Flagged

  /** The fields of a submission the centre reads or updates. */
  datatype Submission = Submission(id: string, status: Status, feedback: Option<string>, reviewedBy: Option<string>)

  /** `activeTab`. */
  datatype Tab = ReviewTab | PendingTab | ModerationTab

  /** `getSubmissionsByStatus`'s filter for each tab. */
  predicate InTab(tab: Tab, s: Status) {
    match tab
    case ReviewTab => s == PendingReview
    case PendingTab => s == NeedsRevision || s == Approved
    case ModerationTab => s == Flagged || s == Rejected
  }

  /** The one tab that lists a status. */
  function TabOf(s: Status): (t: Tab)
    ensures forall tab :: InTab(tab, s) <==> tab == t
  {
    match s
    case PendingReview => ReviewTab
    case NeedsRevision => PendingTab
    case Approved => PendingTab
    case Flagged => ModerationTab
    case Rejected => ModerationTab
  }

  /** The tab's filter as a predicate on submissions. */
  function Listed(tab: Tab): Submission -> bool {
    (x: Submission) => InTab(tab, x.status)
  }

  /** `getSubmissionsByStatus()` for the active tab. */
  function ByStatus(subs: seq<Submission>, tab: Tab): (r: seq<Submission>)
    ensures forall x :: x in r <==> x in subs && InTab(tab, x.status)
    ensures multiset(r) <= multiset(subs)
  {
    Seqs.FilterSubMultiset(Listed(tab), subs);
    Seqs.Filter(Listed(tab), subs)
  }

  /** Every submission is listed under exactly one tab, so the tabs
      together hold each submission as often as the list does. */
  lemma TabsPartition(subs: seq<Submission>)
    ensures multiset(ByStatus(subs, ReviewTab)) + multiset(ByStatus(subs, PendingTab))
            + multiset(ByStatus(subs, ModerationTab)) == multiset(subs)
    ensures |ByStatus(subs, ReviewTab)| + |ByStatus(subs, PendingTab)| + |ByStatus(subs, ModerationTab)| == |subs|
  {
    var r, p, m := Listed(ReviewTab), Listed(PendingTab), Listed(ModerationTab);
    forall x: Submission ensures (r(x) || p(x) || m(x)) && !(r(x) && p(x)) && !(r(x) && m(x)) && !(p(x) && m(x)) {
      var t := TabOf(x.status);
    }
    Seqs.FilterPartition3(r, p, m, subs);
    Seqs.FilterPartition3Sizes(r, p, m, subs);
  }

  /** The tab labels' counts: each badge repeats its tab's filter. */
  function TabCount(subs: seq<Submission>, tab: Tab): nat {
    match tab
    case ReviewTab => |Seqs.Filter((x: Submission) => x.status == PendingReview, subs)|
    case PendingTab => |Seqs.Filter((x: Submission) => x.status == NeedsRevision || x.status == Approved, subs)|
    case ModerationTab => |Seqs.Filter((x: Submission) => x.status == Flagged || x.status == Rejected, subs)|
  }

  /** Each tab's count is the length of the list the tab shows. */
  lemma TabCountIsListed(subs: seq<Submission>, tab: Tab)
    ensures TabCount(subs, tab) == |ByStatus(subs, tab)|
  {
    match tab
    case ReviewTab =>
      Seqs.FilterExt(Listed(tab), (x: Submission) => x.status == PendingReview, subs);
    case PendingTab =>
      Seqs.FilterExt(Listed(tab),
                     (x: Submission) => x.status == NeedsRevision || x.status == Approved, subs);
    case ModerationTab =>
      Seqs.FilterExt(Listed(tab),
                     (x: Submission) => x.status == Flagged || x.status == Rejected, subs);
  }

  /** The body of `api.updateSubmission`: the new status, the feedback if
      any, and the reviewer. */
  datatype Patch = Patch(status: Status, feedback: Option<string>, reviewedBy: string)

  /** An update request: the submission's id and the patch. */
  datatype Request = Request(id: string, patch: Patch)

  /** `handleFlag`: the prompt's answer, `None` when cancelled; an empty or
      cancelled reason sends nothing. */
  function Flag(sub: Submission, reason: Option<string>, user: string): (r: Option<Request>)
    ensures r.None? <==> reason.None? || reason.value == ""
    ensures r.Some? ==> r.value.id == sub.id && r.value.patch.status == Flagged
                        && r.value.patch.feedback == reason && r.value.patch.reviewedBy == user
  {
    if reason.None? || reason.value == "" then None
    else Some(Request(sub.id, Patch(Flagged, reason, user)))
  }

  /** `handleApprove`'s update. */
  function Approve(id: string, user: string): (r: Request)
    ensures r.id == id && r.patch.status == Approved && r.patch.feedback.None? && r.patch.reviewedBy == user
  {
    Request(id, Patch(Approved, None, user))
  }

  /** `handleReject`'s update, with the reviewer's feedback. */
  function Reject(id: string, feedback: string, user: string): (r: Request)
    ensures r.id == id && r.patch.status == Rejected && r.patch.feedback == Some(feedback) && r.patch.reviewedBy == user
  {
    Request(id, Patch(Rejected, Some(feedback), user))
  }

  /** `handleRequestRevision`'s update, with the reviewer's feedback. */
  function RequestRevision(id: string, feedback: string, user: string): (r: Request)
    ensures r.id == id && r.patch.status == NeedsRevision && r.patch.feedback == Some(feedback)
            && r.patch.reviewedBy == user
  {
    Request(id, Patch(NeedsRevision, Some(feedback), user))
  }

  /** `handleRemitToReview`'s update: back to the queue, feedback kept. */
  function Remit(id: string, user: string): (r: Request)
    ensures r.id == id && r.patch.status == PendingReview && r.patch.feedback.None? && r.patch.reviewedBy == user
  {
    Request(id, Patch(PendingReview, None, user))
  }

  /** A patch merged into the stored submission: the fields it carries
      replace the stored ones. */
  function ApplyPatch(s: Submission, p: Patch): (r: Submission)
    ensures r.id == s.id && r.status == p.status && r.reviewedBy == Some(p.reviewedBy)
    ensures r.feedback == (if p.feedback.Some? then p.feedback else s.feedback)
  {
    s.(status := p.status, feedback := if p.feedback.Some? then p.feedback else s.feedback,
       reviewedBy := Some(p.reviewedBy))
  }

  /** The list after a request: the submission with the id is patched and
      every other one is left alone. */
  function Apply(subs: seq<Submission>, req: Request): (r: seq<Submission>)
    ensures |r| == |subs|
    ensures forall i :: 0 <= i < |subs| ==>
      r[i] == if subs[i].id == req.id then ApplyPatch(subs[i], req.patch) else subs[i]
  {
    Seqs.Map((s: Submission) => if s.id == req.id then ApplyPatch(s, req.patch) else s, subs)
  }

  /** Where each handler sends a submission: approving moves it to the
      pending tab, rejecting and flagging to moderation, a revision
      request to pending, and remitting back to review. */
  lemma TransitionsMoveTabs(sub: Submission, reason: string, feedback: string, user: string)
    requires reason != ""
    ensures TabOf(ApplyPatch(sub, Flag(sub, Some(reason), user).value.patch).status) == ModerationTab
    ensures TabOf(ApplyPatch(sub, Approve(sub.id, user).patch).status) == PendingTab
    ensures TabOf(ApplyPatch(sub, Reject(sub.id, feedback, user).patch).status) == ModerationTab
    ensures TabOf(ApplyPatch(sub, RequestRevision(sub.id, feedback, user).patch).status) == PendingTab
    ensures TabOf(ApplyPatch(sub, Remit(sub.id, user).patch).status) == ReviewTab
  {
  }

  /** An update touches only its own submission: the other tabs' members
      keep their places. */
  lemma ApplyLeavesOthers(subs: seq<Submission>, req: Request, x: Submission)
    requires x in subs && x.id != req.id
    ensures x in Apply(subs, req)
  {
    var i :| 0 <= i < |subs| && subs[i] == x;
    assert Apply(subs, req)[i] == x;
  }

  /** The buttons on a card. */
  datatype Action = ReviewAction | FlagAction | ViewDetails | RemitAction | Delete | ReviewModeration

  /** The card's buttons for the active tab and the submission's status. */
  function Actions(tab: Tab, s: Status): (r: set<Action>)
    ensures Delete in r <==> tab != ReviewTab
    ensures FlagAction in r <==> tab == ReviewTab
  {
    match tab
    case ReviewTab => {ReviewAction, FlagAction}
    case PendingTab => {ViewDetails, Delete} + (if s == NeedsRevision then {RemitAction} else {})
    case ModerationTab => {ReviewModeration, Delete}
  }

  /** "Remit to Review" appears only on a submission awaiting revision in
      the pending tab. */
  lemma RemitOnlyForNeedsRevision(tab: Tab, s: Status)
    ensures RemitAction in Actions(tab, s) <==> tab == PendingTab && s == NeedsRevision
  {
  }

  /** A relative date: minutes, hours or days ago, or the calendar date. */
  datatype Ago = MinutesAgo(n: int) | HoursAgo(n: int) | DaysAgo(n: int) | OnDate

  /** `formatDate`'s choice for a difference of `diffMs` milliseconds
      between now and the date; a date in the future gives negative
      minutes. */
  function FormatAgo(diffMs: int): (r: Ago)
    ensures r.MinutesAgo? <==> diffMs < 3600000
    ensures r.HoursAgo? <==> 3600000 <= diffMs < 86400000
    ensures r.DaysAgo? <==> 86400000 <= diffMs < 604800000
    ensures r.MinutesAgo? ==> r.n * 60000 <= diffMs < (r.n + 1) * 60000 && r.n < 60
    ensures r.HoursAgo? ==> r.n * 3600000 <= diffMs < (r.n + 1) * 3600000 && 1 <= r.n < 24
    ensures r.DaysAgo? ==> r.n * 86400000 <= diffMs < (r.n + 1) * 86400000 && 1 <= r.n < 7
  {
    var mins := diffMs / 60000;
    var hours := diffMs / 3600000;
    var days := diffMs / 86400000;
    if mins < 60 then MinutesAgo(mins)
    else if hours < 24 then HoursAgo(hours)
    else if days < 7 then DaysAgo(days)
    else OnDate
  }

  /** The text on the card; `localeDate` is the date as the browser's
      locale writes it. */
  function FormatDate(diffMs: int, localeDate: string): (r: string)
    ensures diffMs < 3600000 ==> Text.EndsWith(r, "m ago")
    ensures 3600000 <= diffMs < 86400000 ==> Text.EndsWith(r, "h ago")
    ensures 86400000 <= diffMs < 604800000 ==> Text.EndsWith(r, "d ago")
    ensures diffMs >= 604800000 ==> r == localeDate
  {
    match FormatAgo(diffMs)
    case MinutesAgo(n) => Text.IntToString(n) + "m ago"
    case HoursAgo(n) => Text.IntToString(n) + "h ago"
    case DaysAgo(n) => Text.IntToString(n) + "d ago"
    case OnDate => localeDate
  }
}
