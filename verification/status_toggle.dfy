/** The status menu of `src/components/dashboard/StatusToggle.tsx`: which
    choice opens the date dialog, what is handed to `onStatusChange`, and
    how the dialog and the busy flag end up. `onStatusChange` is a promise
    the model cannot see; whether it resolves is a parameter. */
module StatusToggle {
  import opened Options
  import opened Strings
  import opened Domain

  /** The component's state. */
  datatype ToggleState = ToggleState(
    modalOpen: bool,
    selectedStatus: string,
    startDate: string,
    endDate: string,
    submitting: bool)

  /** A call `onStatusChange(renewalId, status, dates?)`. */
  datatype StatusCall = StatusCall(renewalId: string, status: string, dates: Option<(string, string)>)

  /** The state after a handler has finished, and the call it made. */
  datatype Step = Step(state: ToggleState, call: Option<StatusCall>)

  /** The statuses whose selection asks for new dates first. */
  predicate NeedsDates(status: string)
  {
    status == "active" || status == "renewed"
  }

  /** `handleSubmitStatusChange(status?)`, once `onStatusChange` has
      resolved (`resolves`) or rejected. */
  function SubmitStatusChange(st: ToggleState, renewalId: string, status: Option<string>, resolves: bool): (r: Step)
    ensures r.call.Some? && r.call.value.renewalId == renewalId
    // An explicit, non-empty status wins over the selected one.
    ensures r.call.value.status == if status.Some? && status.value != "" then status.value else st.selectedStatus
    // Dates go along exactly while the dialog is open.
    ensures r.call.value.dates.Some? <==> st.modalOpen
    ensures r.call.value.dates.Some? ==> r.call.value.dates.value == (st.startDate, st.endDate)
    // The dialog closes only when the change went through.
    ensures r.state.modalOpen <==> st.modalOpen && !resolves
    ensures !r.state.submitting
    ensures r.state.selectedStatus == st.selectedStatus
    ensures r.state.startDate == st.startDate && r.state.endDate == st.endDate
  {
    var toSubmit := if status.Some? && status.value != "" then status.value else st.selectedStatus;
    var dates := if st.modalOpen then Some((st.startDate, st.endDate)) else None;
    var after := if resolves then st.(modalOpen := false) else st;
    Step(after.(submitting := false), Some(StatusCall(renewalId, toSubmit, dates)))
  }

  /** `handleStatusSelect(status)`: `active` and `renewed` open the dialog
      and send nothing; any other status is sent at once. */
  function HandleStatusSelect(st: ToggleState, renewalId: string, status: string, resolves: bool): (r: Step)
    ensures r.state.selectedStatus == status
    ensures NeedsDates(status) ==> r.call.None? && r.state.modalOpen
    ensures !NeedsDates(status) ==> r.call == Some(StatusCall(renewalId,
      if status != "" then status else st.selectedStatus,
      if st.modalOpen then Some((st.startDate, st.endDate)) else None))
  {
    if NeedsDates(status) then
      Step(st.(selectedStatus := status, modalOpen := true), None)
    else
      var step := SubmitStatusChange(st, renewalId, Some(status), resolves);
      step.(state := step.state.(selectedStatus := status))
  }

  /** From a closed dialog, choosing `renewed` and then confirming sends
      `renewed` with the dates in the dialog; the dialog closes when the
      change goes through and stays open for another try when it fails. */
  lemma RenewThenConfirm(st: ToggleState, renewalId: string, resolves: bool)
    requires !st.modalOpen
    ensures var shown := HandleStatusSelect(st, renewalId, "renewed", resolves).state;
      var done := SubmitStatusChange(shown, renewalId, None, resolves);
      && done.call == Some(StatusCall(renewalId, "renewed", Some((st.startDate, st.endDate))))
      && (done.state.modalOpen <==> !resolves)
      && !done.state.submitting
  {
  }

  /** From a closed dialog, any other choice sends that status alone. */
  lemma OtherStatusSentAlone(st: ToggleState, renewalId: string, status: string, resolves: bool)
    requires !st.modalOpen && !NeedsDates(status) && status != ""
    ensures HandleStatusSelect(st, renewalId, status, resolves).call == Some(StatusCall(renewalId, status, None))
    ensures !HandleStatusSelect(st, renewalId, status, resolves).state.modalOpen
  {
  }

  /** `formatStatusLabel(status)`: upper-case first character, and the
      first `-` after it becomes a space. */
  function FormatStatusLabel(status: string): (r: string)
    ensures |r| == |status|
    ensures |status| > 0 ==> r[0] == Upper(status[0]) && r[1..] == ReplaceFirst(status[1..], '-', ' ')
  {
    if |status| == 0 then "" else [Upper(status[0])] + ReplaceFirst(status[1..], '-', ' ')
  }

  /** A name whose first hyphen follows its first letter is shown with
      that letter upper-cased and the hyphen turned into a space. */
  lemma LabelOfHyphenated(h: char, a: string, b: string)
    requires '-' !in a
    ensures FormatStatusLabel([h] + a + ['-'] + b) == [Upper(h)] + a + [' '] + b
  {
    var s := [h] + a + ['-'] + b;
    assert s[1..] == a + ['-'] + b;
    ReplaceFirstSplit(a, b, '-', ' ');
  }

  /** `expiring-soon` reads "Expiring soon": only the first word is
      capitalised, unlike the action labels of the logs. */
  lemma ExpiringSoonLabel()
    ensures FormatStatusLabel("expiring-soon") == "Expiring soon"
  {
    ExpiringSoonPieces();
    LabelOfHyphenated('e', "xpiring", "soon");
  }

  lemma ExpiringSoonPieces()
    ensures "expiring-soon" == ['e'] + "xpiring" + ['-'] + "soon"
    ensures '-' !in "xpiring"
    ensures "Expiring soon" == [Upper('e')] + "xpiring" + [' '] + "soon"
  {
    var a := ['e'] + "xpiring" + ['-'] + "soon";
    assert forall i :: 0 <= i < 13 ==> a[i] == "expiring-soon"[i];
    var b := [Upper('e')] + "xpiring" + [' '] + "soon";
    assert Upper('e') == 'E';
    assert forall i :: 0 <= i < 13 ==> b[i] == "Expiring soon"[i];
  }

  /** Lengths tell all status names but `expired`, `pending` and `renewed`
      apart, and those start with different lower-case letters. */
  lemma NamesDiffer(a: Status, b: Status)
    requires a.Name().Some? && b.Name().Some? && a != b
    ensures var x, y := a.Name().value, b.Name().value;
      |x| != |y| || (|x| > 0 && |y| > 0 && x[0] != y[0] && 'a' <= x[0] <= 'z' && 'a' <= y[0] <= 'z')
  {
  }

  /** The labels of the six statuses are all different. */
  lemma StatusLabelsDistinct(a: Status, b: Status)
    requires a.Name().Some? && b.Name().Some? && a != b
    ensures FormatStatusLabel(a.Name().value) != FormatStatusLabel(b.Name().value)
  {
    NamesDiffer(a, b);
    var x, y := a.Name().value, b.Name().value;
    if |x| == |y| {
      assert FormatStatusLabel(x)[0] == Upper(x[0]) != Upper(y[0]) == FormatStatusLabel(y)[0];
    }
  }
}
