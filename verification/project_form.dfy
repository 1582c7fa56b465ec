/** The project-creation form: the trim-based guard, the record built from the current
    user, and how the form's fields and `loading` flag end up after the write. */
module ProjectForm {
  import opened Records
  import opened Text

  datatype FormState = FormState(title: string, description: string, loading: bool)

  const Blank: FormState := FormState("", "", false)

  /** The record handed to the store; its creation time is a server-side sentinel the
      store resolves, so it has no field here. */
  datatype NewProject = NewProject(
    title: string,
    description: string,
    authorName: string,
    authorEmail: string,
    authorPhoto: Option<string>,
    joinRequests: seq<JoinRequest>)

  datatype FormEffect =
    | AddProject(record: NewProject)
    | CreatedToast
    | CreateFailedToast
    | ProjectAdded
    | Closed

  datatype Submitted = Submitted(during: FormState, after: FormState, effects: seq<FormEffect>)

  /** The submit guard `title.trim() && description.trim()`: each field holds something
      besides whitespace (`TrimEmptyIff` equates the two readings). */
  predicate Ready(s: FormState) {
    !AllWhitespace(s.title) && !AllWhitespace(s.description)
  }

  /** The submit button is disabled while a write runs or while either field holds
      nothing but whitespace. */
  function SubmitDisabled(s: FormState): (r: bool)
    ensures r <==> s.loading || AllWhitespace(s.title) || AllWhitespace(s.description)
  {
    TrimEmptyIff(s.title);
    TrimEmptyIff(s.description);
    s.loading || Trim(s.title) == [] || Trim(s.description) == []
  }

  /** Non-empty, with no whitespace at either end. */
  predicate Trimmed(t: string) {
    t != [] && !IsWhitespace(t[0]) && !IsWhitespace(t[|t| - 1])
  }

  /** The stored record: both texts trimmed and non-empty, the author copied from the
      signed-in user, no join requests yet. */
  function BuildRecord(u: User, s: FormState): (r: NewProject)
    requires Ready(s)
    ensures r.title == Trim(s.title) && r.description == Trim(s.description)
    ensures Trimmed(r.title) && Trimmed(r.description)
    ensures r.authorName == u.displayName && r.authorEmail == u.email && r.authorPhoto == u.photoURL
    ensures r.joinRequests == []
  {
    TrimEmptyIff(s.title);
    TrimEmptyIff(s.description);
    TrimmedEnds(s.title);
    TrimmedEnds(s.description);
    NewProject(Trim(s.title), Trim(s.description), u.displayName, u.email, u.photoURL, [])
  }

  /** Submit. A failed guard does nothing at all. Otherwise the form is busy while the
      write runs and idle after it. Reading the user's fields with nobody signed in
      throws before the write and lands in the failure path. On success the fields are
      cleared and the parent's callbacks run in order; on failure the fields stay. */
  function Submit(s: FormState, user: Option<User>, hasOnProjectAdded: bool, hasOnClose: bool,
                  outcome: WriteOutcome): (r: Submitted)
    ensures !Ready(s) ==> r.during == s && r.after == s && r.effects == []
    ensures Ready(s) ==> r.during == s.(loading := true) && !r.after.loading
    ensures Ready(s) && user.None? ==>
      r.after == s.(loading := false) && r.effects == [CreateFailedToast]
    ensures Ready(s) && user.Some? ==>
      |r.effects| >= 2 && r.effects[0] == AddProject(BuildRecord(user.value, s))
    ensures Ready(s) && user.Some? && outcome == Failed ==>
      r.after == s.(loading := false) && r.effects[1..] == [CreateFailedToast]
    ensures Ready(s) && user.Some? && outcome == Succeeded ==>
      && r.after == Blank
      && r.effects[1..] == [CreatedToast]
           + (if hasOnProjectAdded then [ProjectAdded] else [])
           + (if hasOnClose then [Closed] else [])
  {
    if !Ready(s) then Submitted(s, s, [])
    else
      var during := s.(loading := true);
      match user
      case None => Submitted(during, s.(loading := false), [CreateFailedToast])
      case Some(u) =>
        var write := AddProject(BuildRecord(u, s));
        match outcome
        case Failed => Submitted(during, s.(loading := false), [write, CreateFailedToast])
        case Succeeded =>
          Submitted(during, FormState("", "", false),
            [write, CreatedToast]
            + (if hasOnProjectAdded then [ProjectAdded] else [])
            + (if hasOnClose then [Closed] else []))
  }

  /** The submit button's caption. */
  function SubmitCaption(s: FormState): string {
    if s.loading then "Creating..." else "Create Project"
  }

  // ---------------------------------------------------------------------------

  /** When no write is running, the button is disabled exactly when the guard would
      refuse the submission; while one runs it is disabled whatever the fields hold. */
  lemma DisabledMatchesGuard(s: FormState)
    ensures !s.loading ==> (SubmitDisabled(s) <==> !Ready(s))
    ensures s.loading ==> SubmitDisabled(s)
  {
    TrimEmptyIff(s.title);
    TrimEmptyIff(s.description);
  }

  /** While an accepted submission's write runs, the button is disabled and reads
      "Creating..."; once it has finished, the caption is back to "Create Project". */
  lemma CaptionDuringSubmit(s: FormState, user: Option<User>, a: bool, c: bool, outcome: WriteOutcome)
    requires Ready(s)
    ensures var r := Submit(s, user, a, c, outcome);
      && SubmitDisabled(r.during) && SubmitCaption(r.during) == "Creating..."
      && SubmitCaption(r.after) == "Create Project"
  {
  }

  /** A whitespace-only field blocks the submission: no write, no change. */
  lemma BlankFieldIsNoOp(s: FormState, user: Option<User>, a: bool, c: bool, outcome: WriteOutcome)
    requires AllWhitespace(s.title) || AllWhitespace(s.description)
    ensures Submit(s, user, a, c, outcome).effects == []
    ensures Submit(s, user, a, c, outcome).after == s
  {
    TrimEmptyIff(s.title);
    TrimEmptyIff(s.description);
  }

  /** Only a successful write clears the fields: after any other submission the typed
      text is still there. */
  lemma FieldsKeptUnlessCreated(s: FormState, user: Option<User>, a: bool, c: bool, outcome: WriteOutcome)
    requires !(Ready(s) && user.Some? && outcome == Succeeded)
    ensures Submit(s, user, a, c, outcome).after.title == s.title
    ensures Submit(s, user, a, c, outcome).after.description == s.description
    ensures AddProject(BuildRecordOr(user, s)) in Submit(s, user, a, c, outcome).effects
      <==> Ready(s) && user.Some?
  {
  }

  /** The record a submission by `user` would write, for stating which write happened. */
  function BuildRecordOr(user: Option<User>, s: FormState): NewProject {
    if Ready(s) && user.Some? then BuildRecord(user.value, s) else NewProject("", "", "", "", None, [])
  }
}
