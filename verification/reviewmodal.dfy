/** The review dialog (`shared/ReviewModal.tsx`): the reviewer picks an
    action, writes feedback or edits the content, and submits; the dialog
    calls back into the review centre. The submission's content is a type
    parameter, since the dialog only copies it. */
module ReviewModal {
  import opened Wrappers
  import Text

  /** `action`, when one is chosen. */
  datatype Action = Approve | Edit | Suggest | Reject

  /** The dialog's state. */
  datatype State<C> = State(action: Option<Action>, feedback: string, edited: C, processing: bool)

  /** The dialog as it opens for a submission with content `content`. */
  function Open<C>(content: C): (st: State<C>)
    ensures st.action.None? && st.feedback == "" && st.edited == content && !st.processing
  {
    State(None, "", content, false)
  }

  /** The call the dialog makes into the review centre. */
  datatype Callback<C> =
    | OnApprove(id: string, editedContent: Option<C>, wasEditedByAdmin: bool)
    | OnReject(id: string, feedback: string)
    | OnRequestRevision(id: string, feedback: string)

  /** What a submit does: the next state, the callback made if any, and the
      alert shown if any. */
  datatype Outcome<C> = Outcome(state: State<C>, call: Option<Callback<C>>, alert: Option<string>)

  /** `handleSubmit`: approving passes no content, editing passes the
      edited content; rejecting and suggesting need non-blank feedback,
      which is passed as typed. Whatever happens, processing ends false. */
  function Submit<C>(st: State<C>, id: string): (r: Outcome<C>)
    ensures !r.state.processing
    ensures r.state == st.(processing := false)
    ensures st.action == Some(Approve) ==> r.call == Some(OnApprove(id, None, false))
    ensures st.action == Some(Edit) ==> r.call == Some(OnApprove(id, Some(st.edited), true))
    ensures st.action == Some(Reject) ==>
      (r.call.None? <==> Text.IsBlank(st.feedback))
      && (r.call.Some? ==> r.call.value == OnReject(id, st.feedback))
    ensures st.action == Some(Suggest) ==>
      (r.call.None? <==> Text.IsBlank(st.feedback))
      && (r.call.Some? ==> r.call.value == OnRequestRevision(id, st.feedback))
    ensures st.action.None? ==> r.call.None?
    ensures r.alert.Some? <==> st.action in {Some(Reject), Some(Suggest)} && Text.IsBlank(st.feedback)
  {
    var done := st.(processing := false);
    match st.action
    case None => Outcome(done, None, None)
    case Some(Approve) => Outcome(done, Some(OnApprove(id, None, false)), None)
    case Some(Edit) => Outcome(done, Some(OnApprove(id, Some(st.edited), true)), None)
    case Some(Reject) =>
      if Text.IsBlank(st.feedback) then Outcome(done, None, Some("Please provide feedback for rejection"))
      else Outcome(done, Some(OnReject(id, st.feedback)), None)
    case Some(Suggest) =>
      if Text.IsBlank(st.feedback) then Outcome(done, None, Some("Please provide suggestions for revision"))
      else Outcome(done, Some(OnRequestRevision(id, st.feedback)), None)
  }

  /** The review centre never receives blank feedback: every rejection and
      revision request the dialog makes carries some non-blank text. */
  lemma FeedbackNeverBlank<C>(st: State<C>, id: string)
    ensures var r := Submit(st, id);
      r.call.Some? && (r.call.value.OnReject? || r.call.value.OnRequestRevision?) ==>
        !Text.IsBlank(r.call.value.feedback)
  {
  }

  /** Content reaches the centre only through the edit action, and only
      the edit action marks the approval as edited by an administrator. */
  lemma OnlyEditPassesContent<C>(st: State<C>, id: string)
    ensures var r := Submit(st, id);
      r.call.Some? && r.call.value.OnApprove? ==>
        (r.call.value.editedContent.Some? <==> st.action == Some(Edit))
        && (r.call.value.wasEditedByAdmin <==> st.action == Some(Edit))
  {
  }

  /** Picking an action. */
  function Choose<C>(st: State<C>, a: Action): (r: State<C>)
    ensures r.action == Some(a) && r.feedback == st.feedback && r.edited == st.edited
  {
    st.(action := Some(a))
  }

  /** The "Back" button: no action, no feedback, and the submission's own
      content again. */
  function Back<C>(st: State<C>, content: C): (r: State<C>)
    ensures r.action.None? && r.feedback == "" && r.edited == content
    ensures r.processing == st.processing
  {
    st.(action := None, feedback := "", edited := content)
  }

  /** Going back undoes everything the reviewer chose or typed: the state
      is the freshly opened one, so submitting then calls nothing. */
  lemma BackRestoresOpen<C>(st: State<C>, content: C, id: string)
    requires !st.processing
    ensures Back(st, content) == Open(content)
    ensures Submit(Back(st, content), id).call.None?
  {
  }
}
