/** The project feed: the live query over every project, the loading spinner, the empty
    state or one card per project, the "New Project" form, and the join handler the
    cards call. */
module ProjectList {
  import opened Records
  import ProjectCard
  import ProjectForm

  /** `projects`, `loading` (initially true) and `showForm`. */
  datatype FeedState = FeedState(projects: seq<Project>, loading: bool, showForm: bool)

  const Initial: FeedState := FeedState([], true, false)

  /** A snapshot replaces the list with the delivered documents, tagged with their ids
      and kept in delivered order, and ends loading. */
  function Snapshot(s: FeedState, docs: seq<Doc>): (r: FeedState)
    ensures |r.projects| == |docs|
    ensures forall k :: 0 <= k < |docs| ==> r.projects[k] == FromDoc(docs[k])
    ensures !r.loading && r.showForm == s.showForm
  {
    s.(projects := Tag(docs), loading := false)
  }

  /** A query error only ends loading; the list keeps what it showed. */
  function SnapshotFailed(s: FeedState): (r: FeedState)
    ensures !r.loading
    ensures r.projects == s.projects && r.showForm == s.showForm
  {
    s.(loading := false)
  }

  /** "New Project" (and "Create First Project") opens the form. */
  function OpenForm(s: FeedState): (r: FeedState)
    ensures r.showForm
    ensures r.projects == s.projects && r.loading == s.loading
  {
    s.(showForm := true)
  }

  /** The form's `onClose` and `onProjectAdded` both close it. */
  function CloseForm(s: FeedState): (r: FeedState)
    ensures !r.showForm
    ensures r.projects == s.projects && r.loading == s.loading
  {
    s.(showForm := false)
  }

  datatype Body = EmptyFeed | Cards(keys: seq<string>)

  datatype FeedView = Spinner | Page(body: Body, form: bool)

  /** While loading, only the spinner (no button, no form); then the empty state or one
      card per project keyed by its id, and the form when it is open. */
  function View(s: FeedState): (r: FeedView)
    ensures r == Spinner <==> s.loading
    ensures !s.loading ==> r.form == s.showForm
    ensures !s.loading ==> (r.body == EmptyFeed <==> |s.projects| == 0)
    ensures !s.loading && |s.projects| > 0 ==>
      r.body.Cards? && |r.body.keys| == |s.projects|
      && forall i :: 0 <= i < |s.projects| ==> r.body.keys[i] == s.projects[i].id
  {
    if s.loading then Spinner
    else if |s.projects| == 0 then Page(EmptyFeed, s.showForm)
    else Page(Cards(seq(|s.projects|, i requires 0 <= i < |s.projects| => s.projects[i].id)), s.showForm)
  }

  /** The request the handler writes: the signed-in user's email, name and photo, and
      the time of the click. */
  function RequestFrom(u: User, now: int): (r: JoinRequest)
    ensures r.userEmail == EmailOf(Some(u))
    ensures r.userName == u.displayName && r.userPhoto == u.photoURL && r.timestamp == now
  {
    JoinRequest(Some(u.email), u.displayName, u.photoURL, now)
  }

  datatype JoinEffect =
    | AddRequest(projectId: string, request: JoinRequest)
    | SentToast(authorName: string)
    | JoinFailedToast

  /** Join: nothing without a signed-in user; otherwise one write adding the request to
      the project's document, followed by the toast its outcome selects. */
  function Join(user: Option<User>, p: Project, now: int, outcome: WriteOutcome): (r: seq<JoinEffect>)
    ensures r == [] <==> user.None?
    ensures user.Some? ==>
      && |r| == 2
      && r[0] == AddRequest(p.id, RequestFrom(user.value, now))
      && (r[1] == SentToast(p.authorName) <==> outcome == Succeeded)
      && (r[1] == JoinFailedToast <==> outcome == Failed)
  {
    match user
    case None => []
    case Some(u) =>
      [AddRequest(p.id, RequestFrom(u, now)),
       if outcome == Succeeded then SentToast(p.authorName) else JoinFailedToast]
  }

  /** The store's `arrayUnion` of one request: appended unless an equal element is
      already there, and a missing array becomes a one-element array. Nothing else in
      the document changes. */
  function AddJoinRequest(d: Doc, q: JoinRequest): (r: Doc)
    ensures r.id == d.id
    ensures r.data == d.data.(joinRequests := r.data.joinRequests)
    ensures r.data.joinRequests.Some?
    ensures Requests(FromDoc(r)) ==
      if q in Requests(FromDoc(d)) then Requests(FromDoc(d)) else Requests(FromDoc(d)) + [q]
  {
    var rs := d.data.joinRequests.GetOr([]);
    d.(data := d.data.(joinRequests := Some(if q in rs then rs else rs + [q])))
  }

  /** The feed's own events; the form closing covers both of its callbacks. */
  datatype FeedEvent =
    | Delivered(docs: seq<Doc>)
    | DeliveryFailed
    | NewProjectClicked
    | FormClosed

  function Step(s: FeedState, e: FeedEvent): FeedState {
    match e
    case Delivered(docs) => Snapshot(s, docs)
    case DeliveryFailed => SnapshotFailed(s)
    case NewProjectClicked => OpenForm(s)
    case FormClosed => CloseForm(s)
  }

  function Run(s: FeedState, events: seq<FeedEvent>): FeedState
    decreases |events|
  {
    if |events| == 0 then s else Run(Step(s, events[0]), events[1..])
  }

  /** The form's effects as the feed sees them: it closes when the form reports the
      project added or asks to be closed. */
  function AfterSubmit(s: FeedState, effects: seq<ProjectForm.FormEffect>): (r: FeedState)
    ensures !r.showForm <==> !s.showForm || ProjectForm.ProjectAdded in effects || ProjectForm.Closed in effects
    ensures r.projects == s.projects && r.loading == s.loading
  {
    if ProjectForm.ProjectAdded in effects || ProjectForm.Closed in effects then CloseForm(s) else s
  }

  // ---------------------------------------------------------------------------

  /** The spinner stays up until the query first answers: after any run of events the
      feed is loading exactly when it was before and no snapshot or error arrived. */
  lemma {:induction false} LoadingUntilFirstAnswer(s: FeedState, events: seq<FeedEvent>)
    ensures Run(s, events).loading <==>
      s.loading && forall i :: 0 <= i < |events| ==> !events[i].Delivered? && !events[i].DeliveryFailed?
    decreases |events|
  {
    if |events| > 0 {
      LoadingUntilFirstAnswer(Step(s, events[0]), events[1..]);
      assert forall i :: 1 <= i < |events| ==> events[1..][i - 1] == events[i];
    }
  }

  /** Opening and closing the form never touch the list or `loading`. */
  lemma {:induction false} FormEventsKeepProjects(s: FeedState, events: seq<FeedEvent>)
    requires forall i :: 0 <= i < |events| ==> events[i].NewProjectClicked? || events[i].FormClosed?
    ensures Run(s, events).projects == s.projects && Run(s, events).loading == s.loading
    decreases |events|
  {
    if |events| > 0 {
      assert forall i :: 0 <= i < |events[1..]| ==> events[1..][i] == events[i + 1];
      FormEventsKeepProjects(Step(s, events[0]), events[1..]);
    }
  }

  /** The form opened from the feed gets both callbacks, so a successful creation closes
      it; a refused or failed one leaves it open with the typed text. */
  lemma SubmitFromFeed(s: FeedState, f: ProjectForm.FormState, user: Option<User>, outcome: WriteOutcome)
    requires s.showForm
    ensures var sub := ProjectForm.Submit(f, user, true, true, outcome);
      (!AfterSubmit(s, sub.effects).showForm <==> ProjectForm.Ready(f) && user.Some? && outcome == Succeeded)
  {
    var sub := ProjectForm.Submit(f, user, true, true, outcome);
    if ProjectForm.Ready(f) && user.Some? && outcome == Succeeded {
      assert sub.effects[2] == ProjectForm.ProjectAdded;
    }
  }

  /** A signed-out visitor sees an enabled join button on a project with an author email
      and no request lacking one; the click reaches the handler, which does nothing. */
  lemma SignedOutJoinIsNoOp(p: Project, now: int, outcome: WriteOutcome)
    requires p.authorEmail.Some?
    requires forall q :: q in Requests(p) ==> q.userEmail.Some?
    ensures ProjectCard.ClickJoin(None, p, true) == Some(p)
    ensures Join(None, p, now, outcome) == []
  {
  }

  /** Once the request is stored and delivered back, the requester's card shows the
      disabled "Request Sent" button, whatever else the document holds. */
  lemma SentRequestDisablesJoin(u: User, d: Doc, now: int)
    requires FromDoc(d).authorEmail != Some(u.email)
    ensures var p := FromDoc(AddJoinRequest(d, RequestFrom(u, now)));
      ProjectCard.View(Some(u), p).joinButton == Some(ProjectCard.JoinButton(true, ProjectCard.SentLabel))
  {
    var q := RequestFrom(u, now);
    var p := FromDoc(AddJoinRequest(d, q));
    assert q in Requests(p);
  }
}
