/** End-to-end properties that cross the components: a project created by the form, a
    join request sent from the feed, and the owner's tray that the request reaches. The
    store is reduced to what its writes leave behind: `Persisted` is the document the
    creation write produces, `ProjectList.AddJoinRequest` the one the join write
    produces. */
module Scenarios {
  import opened Records
  import opened Notifications
  import NotificationIds
  import NS = NotificationState
  import ProjectCard
  import ProjectForm
  import ProjectList
  import Tray

  /** The stored document for a created project: the store's id for it, the resolved
      server timestamp, and the record's fields. */
  function Persisted(np: ProjectForm.NewProject, docId: string, stamp: int): (d: Doc)
    ensures d.id == docId && d.data.idField.None?
    ensures d.data.title == np.title && d.data.authorEmail == Some(np.authorEmail)
    ensures d.data.timestamp == Some(stamp) && d.data.joinRequests == Some(np.joinRequests)
  {
    Doc(docId, ProjectData(None, np.title, np.description, np.authorName, Some(np.authorEmail),
                           np.authorPhoto, Some(stamp), Some(np.joinRequests)))
  }

  /** A freshly created project belongs to its creator: the creator's card offers delete
      and no join button, anyone else with another email gets the enabled "Join
      Project", nobody has notifications for it, and the feed shows it as one card
      keyed by the store's id. */
  lemma CreatedProjectIsOwn(u: User, other: User, f: ProjectForm.FormState, docId: string, stamp: int)
    requires ProjectForm.Ready(f)
    requires other.email != u.email
    ensures var p := FromDoc(Persisted(ProjectForm.BuildRecord(u, f), docId, stamp));
      && ProjectCard.View(Some(u), p).deleteButton
      && ProjectCard.View(Some(u), p).joinButton.None?
      && ProjectCard.View(Some(other), p).joinButton == Some(ProjectCard.JoinButton(false, ProjectCard.JoinLabel))
      && ProjectCard.View(Some(u), p).date == ProjectCard.Formatted(stamp)
    ensures Derive([Persisted(ProjectForm.BuildRecord(u, f), docId, stamp)]) == []
    ensures var s := ProjectList.Snapshot(ProjectList.Initial, [Persisted(ProjectForm.BuildRecord(u, f), docId, stamp)]);
      ProjectList.View(s) == ProjectList.Page(ProjectList.Cards([docId]), false)
  {
    var d := Persisted(ProjectForm.BuildRecord(u, f), docId, stamp);
    DeriveSpec([d]);
    assert Tag([d])[1..] == [];
  }

  /** A join request sent by someone other than the owner reaches the owner's feed:
      after the write, the next snapshot of the owner's project holds one more
      notification, and one of them carries the request under that project. */
  lemma JoinReachesOwner(u: User, d: Doc, now: int)
    requires FromDoc(d).authorEmail != Some(u.email)
    requires ProjectList.RequestFrom(u, now) !in Requests(FromDoc(d))
    ensures var d' := ProjectList.AddJoinRequest(d, ProjectList.RequestFrom(u, now));
      && |Derive([d'])| == |Derive([d])| + 1
      && exists n :: n in Derive([d']) && n.request == ProjectList.RequestFrom(u, now)
           && n.projectId == FromDoc(d).id && n.projectTitle == d.data.title
  {
    var q := ProjectList.RequestFrom(u, now);
    var d' := ProjectList.AddJoinRequest(d, q);
    var p' := FromDoc(d');
    DeriveSpec([d]);
    DeriveSpec([d']);
    assert Tag([d])[1..] == [] && Tag([d'])[1..] == [];
    var i := |Requests(p')| - 1;
    assert Tag([d'])[0] == p';
    var n := ForRequest(p', i);
    assert FromSomeRequest(Tag([d']), n);
    DeriveMembers([d'], n);
  }

  /** The owner accepts the only request of their only project: the tray is left with
      nothing listed, a zero count and no badge. */
  lemma AcceptOnlyRequestEmptiesTray(d: Doc, open: bool)
    requires |Requests(FromDoc(d))| == 1
    ensures var s := Tray.TrayState(NS.Snapshot(NS.Initial, [d]), open, false);
      && |s.context.notifications| == 1
      && var r := Tray.Accept(s, s.context.notifications[0], Succeeded);
         && r.after.context.notifications == [] && r.after.context.unreadCount == 0
         && Tray.View(r.after).badge.None?
  {
    var s := Tray.TrayState(NS.Snapshot(NS.Initial, [d]), open, false);
    var ns := s.context.notifications;
    DeriveSpec([d]);
    assert Tag([d])[1..] == [];
    NotificationIds.DeriveIdsDistinct([d]);
    NS.RemoveIdUnique(ns, ns[0].id, 0);
  }

  /** Signing out empties the tray at once; signing back in and receiving a snapshot
      shows exactly that snapshot's feed, with the badge counting all of it. */
  lemma SignOutThenIn(s: NS.State, u: User, docs: seq<Doc>)
    ensures NS.Run(s, [NS.UserChanged(None)]).notifications == []
    ensures Tray.View(Tray.TrayState(NS.Run(s, [NS.UserChanged(None)]), false, false)).badge.None?
    ensures var t := NS.Run(s, [NS.UserChanged(None), NS.UserChanged(Some(u)), NS.Delivered(docs)]);
      && t.notifications == Derive(docs)
      && t.unreadCount == |Derive(docs)|
      && !t.loading
  {
    NS.DeliveryForgetsHistory(s, [NS.UserChanged(None), NS.UserChanged(Some(u))], docs);
    assert [NS.UserChanged(None), NS.UserChanged(Some(u))] + [NS.Delivered(docs)]
        == [NS.UserChanged(None), NS.UserChanged(Some(u)), NS.Delivered(docs)];
  }
}
