/** The notification tray in the header: the bell with its badge, the panel with its
    summary line, "Clear all" and one row per notification, and the dismiss and
    accept actions. Store writes, toasts and the mail handoff are recorded as
    effects; the write itself is an outcome parameter. */
module Tray {
  import opened Records
  import Decimal
  import opened Notifications
  import NS = NotificationState

  /** The provider's state plus the tray's own `showNotifications` and `actionLoading`. */
  datatype TrayState = TrayState(context: NS.State, open: bool, actionLoading: bool)

  datatype Effect =
    | RemoveRequest(projectId: string, request: JoinRequest)
    | DismissedToast
    | DismissFailedToast
    | AcceptedToast(userName: string)
    | AcceptFailedToast
    | MailTo(address: Option<string>)
    | ClearedToast

  /** The state while an action's write is awaited, the state after it, and what it did. */
  datatype Handled = Handled(during: TrayState, after: TrayState, effects: seq<Effect>)

  datatype Body = Spinner | NoNotifications | Rows(keys: seq<string>)

  /** `clearAll` is `Some(disabled)` when the button is shown; `rowActionsDisabled` holds
      for each row's Accept, Reply and Dismiss buttons. */
  datatype Panel = Panel(
    clearAll: Option<bool>,
    summary: Option<string>,
    body: Body,
    rowActionsDisabled: bool,
    footerHint: bool)

  datatype TrayView = TrayView(bellDisabled: bool, badge: Option<string>, panel: Option<Panel>)

  /** The badge text: none at zero, the count up to nine, "9+" above. */
  function Badge(unreadCount: nat): (r: Option<string>)
    ensures r.Some? <==> unreadCount > 0
    ensures unreadCount > 9 ==> r == Some("9+")
    ensures 0 < unreadCount <= 9 ==>
      r.Some? && |r.value| == 1 && Decimal.AllDigits(r.value) && Decimal.Value(r.value) == unreadCount
  {
    Decimal.ValueOfFromNat(unreadCount);
    if unreadCount == 0 then None
    else if unreadCount > 9 then Some("9+")
    else Some(Decimal.FromNat(unreadCount))
  }

  const NewRequestSuffix: string := " new request"
  const NewRequestsSuffix: string := " new requests"

  /** The summary line: none at zero, the count followed by the singular noun for one
      and the plural otherwise. */
  function Summary(unreadCount: nat): (r: Option<string>)
    ensures r.Some? <==> unreadCount > 0
    ensures unreadCount == 1 ==> r == Some("1" + NewRequestSuffix)
    ensures unreadCount > 1 ==>
      && r.Some? && |r.value| > |NewRequestsSuffix|
      && r.value[|r.value| - |NewRequestsSuffix|..] == NewRequestsSuffix
      && var digits := r.value[..|r.value| - |NewRequestsSuffix|];
         Decimal.AllDigits(digits) && Decimal.Value(digits) == unreadCount && digits[0] != '0'
  {
    if unreadCount == 0 then None
    else
      var digits := Decimal.FromNat(unreadCount);
      var text := digits + " new " + (if unreadCount == 1 then "request" else "requests");
      assert unreadCount == 1 ==> digits == "1" && text == "1" + NewRequestSuffix;
      assert unreadCount > 1 ==> text[..|text| - |NewRequestsSuffix|] == digits by {
        if unreadCount > 1 {
          assert text == digits + NewRequestsSuffix;
        }
      }
      Decimal.ValueOfFromNat(unreadCount);
      Some(text)
  }

  /** The panel body: a spinner while loading, else the empty state for an empty list,
      else one row per notification keyed by its id, in list order. */
  function TrayBody(loading: bool, ns: seq<Notification>): (r: Body)
    ensures loading ==> r == Spinner
    ensures !loading && |ns| == 0 ==> r == NoNotifications
    ensures !loading && |ns| > 0 ==>
      r.Rows? && |r.keys| == |ns| && forall i :: 0 <= i < |ns| ==> r.keys[i] == ns[i].id
  {
    if loading then Spinner
    else if |ns| == 0 then NoNotifications
    else Rows(seq(|ns|, i requires 0 <= i < |ns| => ns[i].id))
  }

  function View(s: TrayState): TrayView {
    var c := s.context;
    TrayView(
      c.loading || s.actionLoading,
      Badge(c.unreadCount),
      if !s.open then None
      else Some(Panel(
        if c.unreadCount > 0 then Some(s.actionLoading) else None,
        Summary(c.unreadCount),
        TrayBody(c.loading, c.notifications),
        s.actionLoading,
        |c.notifications| > 0)))
  }

  /** The bell toggles the panel. While the provider loads or an action runs the bell
      is disabled, so a click there changes nothing. */
  function Toggle(s: TrayState): (r: TrayState)
    ensures r.open != s.open <==> !View(s).bellDisabled
    ensures r.context == s.context && r.actionLoading == s.actionLoading
  {
    if s.context.loading || s.actionLoading then s else s.(open := !s.open)
  }

  /** The close button (and a click outside) closes the panel. */
  function Close(s: TrayState): (r: TrayState)
    ensures !r.open
    ensures r.context == s.context && r.actionLoading == s.actionLoading
  {
    s.(open := false)
  }

  /** Dismiss: remove the request from its project in the store; only once that write
      succeeded drop the notification locally, through the provider's `markAsRead`
      (which keeps the other entries in order, `NS.RemoveIdDistributes`). Busy while the write runs, idle after
      it on either outcome; a failure leaves the list and the count as they were. */
  function Dismiss(s: TrayState, n: Notification, outcome: WriteOutcome): (r: Handled)
    ensures r.during.actionLoading && r.during.context == s.context
    ensures r.during == s.(actionLoading := true)
    ensures !r.after.actionLoading && r.after.open == s.open
    ensures |r.effects| == 2 && r.effects[0] == RemoveRequest(n.projectId, n.request)
    ensures outcome == Failed ==> r.after.context == s.context && r.effects[1] == DismissFailedToast
    ensures outcome == Succeeded ==>
      && r.effects[1] == DismissedToast
      && r.after.context == NS.MarkAsRead(s.context, n.id)
      && r.after.context.loading == s.context.loading
      && (forall x :: x in r.after.context.notifications <==> x in s.context.notifications && x.id != n.id)
      && r.after.context.unreadCount == (if s.context.unreadCount == 0 then 0 else s.context.unreadCount - 1)
  {
    var during := s.(actionLoading := true);
    var write := RemoveRequest(n.projectId, n.request);
    match outcome
    case Succeeded =>
      Handled(during, s.(context := NS.MarkAsRead(s.context, n.id), actionLoading := false), [write, DismissedToast])
    case Failed =>
      Handled(during, s.(actionLoading := false), [write, DismissFailedToast])
  }

  /** Accept as written: the dismissal catches its own failure, so the accepted toast and
      the mail handoff follow on either outcome and the accept-failure toast is never
      shown. */
  function Accept(s: TrayState, n: Notification, outcome: WriteOutcome): (r: Handled)
    ensures r.during.actionLoading && !r.after.actionLoading
    ensures r.during == Dismiss(s, n, outcome).during
    ensures r.after.context == Dismiss(s, n, outcome).after.context
    ensures r.after == Dismiss(s, n, outcome).after
    ensures |r.effects| == 4 && r.effects[..2] == Dismiss(s, n, outcome).effects
    ensures r.effects[0] == RemoveRequest(n.projectId, n.request)
    ensures r.effects[1] == (if outcome == Succeeded then DismissedToast else DismissFailedToast)
    ensures r.effects[2] == AcceptedToast(n.request.userName)
    ensures r.effects[3] == MailTo(n.request.userEmail)
    ensures AcceptFailedToast !in r.effects
  {
    var d := Dismiss(s, n, outcome);
    Handled(d.during, d.after, d.effects + [AcceptedToast(n.request.userName), MailTo(n.request.userEmail)])
  }

  /** Accept as its error handler evidently intends: a failed dismissal ends the accept
      with the accept-failure toast, without the accepted toast or the mail handoff. */
  function AcceptIntended(s: TrayState, n: Notification, outcome: WriteOutcome): (r: Handled)
    ensures r.during.actionLoading && !r.after.actionLoading
    ensures r.during == Dismiss(s, n, outcome).during && r.after.open == s.open
    ensures r.after.context == Dismiss(s, n, outcome).after.context
    ensures outcome == Failed ==>
      && r.effects == [RemoveRequest(n.projectId, n.request), AcceptFailedToast]
      && r.after.context == s.context
    ensures outcome == Succeeded ==>
      && |r.effects| == 4
      && r.effects[3] == MailTo(n.request.userEmail)
      && AcceptedToast(n.request.userName) in r.effects
    ensures outcome == Succeeded ==> r.effects == Accept(s, n, Succeeded).effects
  {
    var d := Dismiss(s, n, outcome);
    match outcome
    case Succeeded =>
      Handled(d.during, d.after, d.effects + [AcceptedToast(n.request.userName), MailTo(n.request.userEmail)])
    case Failed =>
      Handled(d.during, d.after, [RemoveRequest(n.projectId, n.request), AcceptFailedToast])
  }

  /** "Clear all" empties the provider's list and count; the panel stays as it was. The
      handler awaits nothing, so there is no separate state while it runs. */
  function ClearAll(s: TrayState): (r: Handled)
    ensures r.after.context.notifications == [] && r.after.context.unreadCount == 0
    ensures r.after.context.loading == s.context.loading
    ensures r.after.open == s.open && r.after.actionLoading == s.actionLoading
    ensures r.during == r.after
    ensures r.effects == [ClearedToast]
  {
    var after := s.(context := NS.ClearAllNotifications(s.context));
    Handled(after, after, [ClearedToast])
  }

  // ---------------------------------------------------------------------------

  /** What the tray shows, for every state: badge and "Clear all" exactly when the count
      is positive, the panel only when open, and the body's priority order. */
  lemma ViewSpec(s: TrayState)
    ensures View(s).bellDisabled <==> s.context.loading || s.actionLoading
    ensures View(s).badge.Some? <==> s.context.unreadCount > 0
    ensures View(s).panel.Some? <==> s.open
    ensures s.open ==> (View(s).panel.value.clearAll.Some? <==> s.context.unreadCount > 0)
    ensures s.open && s.context.unreadCount > 0 ==> View(s).panel.value.clearAll == Some(s.actionLoading)
    ensures s.open ==> (View(s).panel.value.rowActionsDisabled <==> s.actionLoading)
    ensures s.open ==> (View(s).panel.value.summary.Some? <==> s.context.unreadCount > 0)
    ensures s.open && s.context.loading ==> View(s).panel.value.body == Spinner
    ensures s.open && !s.context.loading ==>
      (View(s).panel.value.body == NoNotifications <==> s.context.notifications == [])
    ensures s.open ==> (View(s).panel.value.footerHint <==> s.context.notifications != [])
  {
  }

  /** Under the provider's invariant the rows' React keys are unique. */
  lemma RowKeysUnique(s: TrayState)
    requires NS.Inv(s.context)
    requires s.open && View(s).panel.value.body.Rows?
    ensures var keys := View(s).panel.value.body.keys;
      forall i, j :: 0 <= i < j < |keys| ==> keys[i] != keys[j]
  {
    var keys := View(s).panel.value.body.keys;
    var ns := s.context.notifications;
    forall i, j | 0 <= i < j < |keys|
      ensures keys[i] != keys[j]
    {
      assert keys[i] == ns[i].id && keys[j] == ns[j].id;
    }
  }

  /** The defect of `Accept`: a dismissal write that failed still yields the accepted
      toast and the mail handoff, and the request stays listed. */
  lemma AcceptAfterFailedWriteStillAccepts(s: TrayState, n: Notification)
    ensures var r := Accept(s, n, Failed);
      && DismissFailedToast in r.effects
      && AcceptedToast(n.request.userName) in r.effects
      && r.effects[|r.effects| - 1] == MailTo(n.request.userEmail)
      && r.after.context == s.context
  {
    var r := Accept(s, n, Failed);
    assert r.effects[1] == DismissFailedToast;
  }

  /** Under the invariant, a successful dismissal of a listed notification drops exactly
      that entry and keeps the count in step with the list. */
  lemma DismissListedKeepsCount(s: TrayState, n: Notification)
    requires NS.Inv(s.context) && s.context.unreadCount == |s.context.notifications|
    requires n in s.context.notifications
    ensures var c := Dismiss(s, n, Succeeded).after.context;
      |c.notifications| == |s.context.notifications| - 1 && c.unreadCount == |c.notifications|
  {
    var ns := s.context.notifications;
    var k :| 0 <= k < |ns| && ns[k] == n;
    NS.RemoveIdUnique(ns, n.id, k);
  }

  /** After a snapshot, an open tray that is not busy agrees with itself: one row per
      delivered request, the badge and the summary counting exactly those rows. */
  lemma SnapshotRowsMatchCount(s: TrayState, docs: seq<Doc>)
    requires !s.actionLoading && s.open
    requires TotalRequests(Tag(docs)) > 0
    ensures var t := s.(context := NS.Snapshot(s.context, docs));
      && View(t).panel.Some?
      && View(t).panel.value.body.Rows?
      && var keys := View(t).panel.value.body.keys;
         && |keys| == t.context.unreadCount == TotalRequests(Tag(docs))
         && View(t).panel.value.summary == Summary(|keys|)
         && View(t).badge == Badge(|keys|)
         && View(t).panel.value.clearAll == Some(false)
  {
    var t := s.(context := NS.Snapshot(s.context, docs));
    assert |t.context.notifications| == TotalRequests(Tag(docs));
  }
}
