/** One project card: the ownership and request predicates, which affordances the card
    renders for the current user, and the guarded delete. */
module ProjectCard {
  import opened Records

  /** `currentUser?.email === project.authorEmail`. */
  predicate IsOwnProject(user: Option<User>, p: Project) {
    EmailOf(user) == p.authorEmail
  }

  /** `project.joinRequests?.some(r => r.userEmail === currentUser?.email)`. */
  predicate HasJoinRequest(user: Option<User>, p: Project) {
    exists i :: 0 <= i < |Requests(p)| && Requests(p)[i].userEmail == EmailOf(user)
  }

  predicate HasPendingRequests(user: Option<User>, p: Project) {
    IsOwnProject(user, p) && p.joinRequests.Some? && |p.joinRequests.value| > 0
  }

  /** The card's date: "Just now" while the server timestamp is missing. */
  datatype DateLabel = JustNow | Formatted(millis: int)

  function FormatDate(timestamp: Option<int>): (r: DateLabel)
    ensures r == JustNow <==> timestamp.None?
    ensures r.Formatted? ==> r.millis == timestamp.value
  {
    match timestamp
    case None => JustNow
    case Some(t) => Formatted(t)
  }

  datatype JoinButton = JoinButton(disabled: bool, caption: string)

  datatype CardView = CardView(
    pendingBadge: bool,
    date: DateLabel,
    deleteButton: bool,
    interested: Option<nat>,
    joinButton: Option<JoinButton>,
    yourProject: bool,
    pending: Option<nat>)

  const JoinLabel: string := "Join Project"
  const SentLabel: string := "Request Sent"

  /** What the card renders for `user`, stated against the stored fields: the owner gets
      delete, "Your Project" and the pending count; everyone else gets the join button,
      disabled and relabelled once one of the requests carries their email. */
  function View(user: Option<User>, p: Project): (r: CardView)
    ensures r.deleteButton <==> EmailOf(user) == p.authorEmail
    ensures r.yourProject == r.deleteButton
    ensures r.joinButton.Some? <==> !r.deleteButton
    ensures r.joinButton.Some? ==>
      (r.joinButton.value.disabled <==> exists q :: q in Requests(p) && q.userEmail == EmailOf(user))
    ensures r.joinButton.Some? ==>
      && (r.joinButton.value.caption == SentLabel <==> r.joinButton.value.disabled)
      && (r.joinButton.value.caption == JoinLabel <==> !r.joinButton.value.disabled)
    ensures r.interested.Some? <==> |Requests(p)| > 0
    ensures r.interested.Some? ==> r.interested.value == |Requests(p)|
    ensures r.pending.Some? <==> r.deleteButton && |Requests(p)| > 0
    ensures r.pending.Some? ==> r.pending.value == |Requests(p)|
    ensures r.pendingBadge <==> r.pending.Some?
    ensures r.date == JustNow <==> p.timestamp.None?
  {
    var own := IsOwnProject(user, p);
    var requested := HasJoinRequest(user, p);
    var pending := HasPendingRequests(user, p);
    assert requested <==> exists q :: q in Requests(p) && q.userEmail == EmailOf(user) by {
      if requested {
        var i :| 0 <= i < |Requests(p)| && Requests(p)[i].userEmail == EmailOf(user);
        assert Requests(p)[i] in Requests(p);
      }
    }
    CardView(
      pending,
      FormatDate(p.timestamp),
      own,
      if p.joinRequests.Some? && |p.joinRequests.value| > 0 then Some(|p.joinRequests.value|) else None,
      if !own then Some(JoinButton(requested, if requested then SentLabel else JoinLabel)) else None,
      own,
      if pending then Some(|p.joinRequests.value|) else None)
  }

  /** A click on the join button reaches `onJoinProject` only when the button is shown
      and enabled (a disabled button delivers no click) and a handler was passed. */
  function ClickJoin(user: Option<User>, p: Project, hasHandler: bool): (r: Option<Project>)
    ensures r.Some? <==>
      (hasHandler && EmailOf(user) != p.authorEmail
       && forall q :: q in Requests(p) ==> q.userEmail != EmailOf(user))
    ensures r.Some? ==> r.value == p
  {
    var b := View(user, p).joinButton;
    if hasHandler && b.Some? && !b.value.disabled then Some(p) else None
  }

  datatype DeleteRun = DeleteRun(confirmAsked: bool, write: Option<string>, succeeded: Option<bool>)

  /** Delete: nothing for a non-owner; the owner is asked to confirm, and only a
      confirmed delete issues the write, whose outcome picks the toast. */
  function DeleteProject(user: Option<User>, p: Project, confirmed: bool, outcome: WriteOutcome): (r: DeleteRun)
    ensures r.confirmAsked <==> EmailOf(user) == p.authorEmail
    ensures r.write.Some? <==> EmailOf(user) == p.authorEmail && confirmed
    ensures r.write.Some? ==> r.write.value == p.id
    ensures r.succeeded.Some? <==> r.write.Some?
    ensures r.succeeded.Some? ==> (r.succeeded.value <==> outcome == Succeeded)
  {
    if !IsOwnProject(user, p) then DeleteRun(false, None, None)
    else if !confirmed then DeleteRun(true, None, None)
    else DeleteRun(true, Some(p.id), Some(outcome == Succeeded))
  }

  // ---------------------------------------------------------------------------

  /** Signed in, the owner affordances appear exactly for the author; signed out, only
      for a project whose `authorEmail` is missing. */
  lemma OwnershipGate(user: Option<User>, p: Project)
    ensures user.Some? ==> (View(user, p).deleteButton <==> p.authorEmail == Some(user.value.email))
    ensures user.None? ==> (View(user, p).deleteButton <==> p.authorEmail.None?)
    ensures View(user, p).deleteButton != View(user, p).joinButton.Some?
  {
  }

  /** The delete handler is reached only through the button the owner's card shows:
      a delete that writes implies the card rendered its delete button for that user. */
  lemma DeleteOnlyFromOwnerCard(user: Option<User>, p: Project, confirmed: bool, outcome: WriteOutcome)
    ensures DeleteProject(user, p, confirmed, outcome).confirmAsked <==> View(user, p).deleteButton
    ensures DeleteProject(user, p, confirmed, outcome).write.Some? ==>
      View(user, p).deleteButton && View(user, p).joinButton.None?
  {
  }
}
