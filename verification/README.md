# Project board client logic in Dafny

A model of the client-side logic of a small project board. Signed-in users post
projects. Other users send join requests. Each owner sees those requests in a
notification tray in the header.

The model covers five pieces:

- **Notification provider.** It turns every snapshot of the owner's projects into
  one notification per join request. Each notification gets the id
  `projectId-index`. The list is sorted newest first by a stable sort. The provider
  also keeps an unread count and a `loading` flag, and it handles `markAsRead`,
  `clearAllNotifications`, sign-out and query errors.
- **Notification tray.** The bell's badge, the summary line, the order in which the
  panel body picks what to show, and the dismiss, accept and clear-all actions.
- **Project card.** The ownership and join-request predicates, which buttons the
  card shows and when they are enabled, the date fallback, and the guarded delete.
- **Project form.** The trim-based guard, the record built from the signed-in user,
  and how the fields and the `loading` flag look after a successful or failed write.
- **Project feed.** The live list of all projects, its `loading` flag, the
  "New Project" form toggle, and the join handler the cards call.

Every store write is reduced to a `WriteOutcome` parameter, either `Succeeded` or
`Failed`. Every live query is reduced to the sequence of documents it delivers.
The signed-in user is an `Option<User>`. Timestamps are integers in milliseconds.
Toasts, store writes and the mail handoff are recorded as effect values, in the
order the handler produces them.

Modules:

| module | file | covers |
|---|---|---|
| `Records` | records.dfy | users, join requests, stored documents, and projects tagged with their id |
| `Decimal` | decimal.dfy | rendering a number as decimal text, and reading it back |
| `Text` | text.dfy | ECMAScript `String.prototype.trim` |
| `Notifications` | notifications.dfy | flattening, composite ids, and the stable newest-first sort |
| `NotificationIds` | notification_ids.dfy | why the ids in one feed are pairwise distinct |
| `NotificationState` | notification_state.dfy | the provider's state machine |
| `Tray` | tray.dfy | the tray's view and its actions |
| `ProjectCard` | project_card.dfy | the card |
| `ProjectForm` | project_form.dfy | the creation form |
| `ProjectList` | project_list.dfy | the feed |
| `Scenarios` | scenarios.dfy | properties that span the components |

A note on composite ids. The index after the *last* dash of `projectId-index` is
all digits, so `projectId-index` splits back into its two parts at that dash. This
holds even when the project id itself contains dashes. So two notifications of one
feed share an id only if their project ids are equal. Distinct project ids are
enough for unique ids; they need not be free of dashes
(`NotificationIds.NotificationIdInjective`). Documents from the store have distinct
ids. But the spread `{ id: doc.id, ...doc.data() }` lets a stored field called `id`
replace the document id. A document carrying such a field could therefore break
uniqueness. No writer in this application stores that field. The uniqueness lemmas
take distinct project ids as a precondition (`NotificationIds.WellKeyed`).

## Model

| member | source | states |
|---|---|---|
| Decimal.FromNat | src/contexts/NotificationContext.jsx:43 | Renders an index as at least one decimal digit, a single digit exactly below ten, with no leading zero unless the number is zero. |
| Decimal.ValueOfFromNat | src/contexts/NotificationContext.jsx:43 | The decimal text of an index is all digits, and reading it back gives the index. |
| Decimal.FromNatInjective | src/contexts/NotificationContext.jsx:43 | Different indices render as different text. |
| Records.FromDoc | src/contexts/NotificationContext.jsx:39 | Computes `{ id: doc.id, ...doc.data() }`, where a stored `id` field wins over the document id; `NotificationIds.WellKeyed` and the note on composite ids above state when ids stay distinct. |
| Records.Tag | src/components/ProjectList.jsx:34-37 | Tags every delivered document in delivered order; `ProjectList.Snapshot` and `Notifications.FlattenSound` state what the tagged list holds. |
| Notifications.NotificationId | src/contexts/NotificationContext.jsx:43 | Computes the composite key; `NotificationIdParts` and `NotificationIdInjective` state what it means. |
| Notifications.NotificationIdParts | src/contexts/NotificationContext.jsx:43 | The key is the project id, a dash, then digits that read back as the index, with no leading zero unless the index is zero. |
| Notifications.Flatten | src/contexts/NotificationContext.jsx:38-51 | Computes the unsorted list; `FlattenLength`, `FlattenSound` and `FlattenComplete` state what it holds. |
| Notifications.Derive | src/contexts/NotificationContext.jsx:36-59 | Computes a snapshot's feed; `DeriveSpec` and `DeriveMembers` state its order and contents. |
| Text.Trim | src/components/ProjectForm.jsx:17 | Computes `s.trim()`; `TrimStartSpec`, `TrimEndSpec`, `TrimEmptyIff`, `TrimmedEnds` and `TrimIdempotent` state what it keeps and drops. |
| Text.TrimStartSpec | src/components/ProjectForm.jsx:17 | Trimming the start keeps exactly the suffix that begins at the first non-whitespace character; everything dropped is whitespace. |
| Text.TrimEndSpec | src/components/ProjectForm.jsx:17 | Trimming the end keeps exactly the prefix that ends at the last non-whitespace character; everything dropped is whitespace. |
| Text.TrimEmptyIff | src/components/ProjectForm.jsx:17 | `s.trim()` is empty if and only if `s` consists of whitespace alone. |
| Text.TrimmedEnds | src/components/ProjectForm.jsx:22-23 | A non-empty trimmed string neither starts nor ends with whitespace. |
| Text.TrimIdempotent | src/components/ProjectForm.jsx:22-23 | Trimming an already trimmed string changes nothing. |
| Notifications.FlattenLength | src/contexts/NotificationContext.jsx:38-51 | Before sorting, the list has one entry per join request over all projects; a missing array counts as zero. |
| Notifications.FlattenSound | src/contexts/NotificationContext.jsx:41-49 | Every entry is the notification of some request of some delivered project. It carries that project's id and title, the request, the request's timestamp, and the id `projectId-index`. |
| Notifications.FlattenComplete | src/contexts/NotificationContext.jsx:40-50 | Every request of every delivered project has its notification in the list. |
| Notifications.InsertNewestFirst | src/contexts/NotificationContext.jsx:55-59 | Inserting into a list ordered newest first keeps it ordered newest first. |
| Notifications.SortNewestFirst | src/contexts/NotificationContext.jsx:55-59 | The sorted list is ordered by non-increasing timestamp and is a permutation of its input. |
| Notifications.InsertKeepsTies | src/contexts/NotificationContext.jsx:55-59 | Insertion places the new entry before the entries with the same timestamp, and keeps their relative order. |
| Notifications.SortKeepsTies | src/contexts/NotificationContext.jsx:55-59 | The sort is stable: for every timestamp, the entries with that timestamp appear in their original order. |
| Notifications.StableOrderIsUnique | src/contexts/NotificationContext.jsx:55-59 | Being ordered newest first and stable determines a list completely, so any stable newest-first sort gives this result. |
| Notifications.DeriveSpec | src/contexts/NotificationContext.jsx:36-59 | The feed of a snapshot is ordered newest first, is a stable permutation of the flattened requests, and has one entry per request. |
| Notifications.DeriveMembers | src/contexts/NotificationContext.jsx:38-51 | A notification is in the feed if and only if it is built from some request of some delivered project. |
| NotificationIds.SplitAtLastDash | src/contexts/NotificationContext.jsx:43 | `prefix-digits` determines both the prefix and the digits, whatever dashes the prefix holds. |
| NotificationIds.NotificationIdInjective | src/contexts/NotificationContext.jsx:43 | Two composite ids are equal only for the same project id and the same index. |
| NotificationIds.SameProjectIdsDiffer | src/contexts/NotificationContext.jsx:41-43 | The requests of one project get pairwise different ids. |
| NotificationIds.FlattenIdsDistinct | src/contexts/NotificationContext.jsx:38-51 | If the project ids are distinct, the flattened notifications have distinct ids. |
| NotificationIds.SortIdsDistinct | src/contexts/NotificationContext.jsx:55-59 | Sorting keeps ids distinct. |
| NotificationIds.DeriveIdsDistinct | src/contexts/NotificationContext.jsx:43 | If a snapshot's project ids are distinct, its feed's notification ids are pairwise distinct. Removal by id and the tray's row keys rely on this. |
| NotificationState.OwnedBy | src/contexts/NotificationContext.jsx:31-34 | The owner's query delivers exactly the stored documents whose `authorEmail` is the user's email. |
| NotificationState.OwnedFeedIsExact | src/contexts/NotificationContext.jsx:31-51 | The owner's feed holds exactly the notifications of requests on documents the owner authored. |
| NotificationState.Subscribed | src/contexts/NotificationContext.jsx:30 | Signing in sets `loading` and changes nothing else. |
| NotificationState.Step | src/contexts/NotificationContext.jsx:23-82 | Applies one provider event. `RunKeepsInv`, `EmptyUntilDelivery` and `DeliveryForgetsHistory` state what runs of events do. |
| NotificationState.Run | src/contexts/NotificationContext.jsx:23-82 | Applies events in order; `RunSnoc` states that it is a left fold. |
| NotificationState.RunSnoc | src/contexts/NotificationContext.jsx:23-82 | Running some events and then one more equals applying that one event to the result of the first run. |
| NotificationState.RemoveId | src/contexts/NotificationContext.jsx:75 | Computes the filter; `RemoveIdMembers`, `RemoveIdDistributes` and `RemoveIdUnique` state what it keeps and in which order. |
| NotificationState.Snapshot | src/contexts/NotificationContext.jsx:61-63 | After a snapshot, the count equals the list length, which equals the number of requests. `loading` is off, and the list is ordered newest first and is a permutation of the flattened requests. |
| NotificationState.SnapshotFailed | src/contexts/NotificationContext.jsx:64-67 | A query error ends `loading` and leaves the list and the count unchanged. |
| NotificationState.RemoveIdMembers | src/contexts/NotificationContext.jsx:75 | The filter keeps exactly the entries with a different id, and never makes the list longer. |
| NotificationState.RemoveIdDistributes | src/contexts/NotificationContext.jsx:75 | The filter works piece by piece over a concatenation, so the kept entries stay in order. |
| NotificationState.RemoveIdUnique | src/contexts/NotificationContext.jsx:75 | With unique ids, removing entry `k`'s id removes just that entry and keeps all others in order. |
| NotificationState.MarkAsRead | src/contexts/NotificationContext.jsx:72-77 | Removes every entry with the id, and lowers the count by one with a floor of zero. |
| NotificationState.MarkAsReadUnmatchedDiverges | src/contexts/NotificationContext.jsx:72-77 | When no entry has the id, the list is unchanged but the count still drops, so count and length diverge. |
| NotificationState.ClearAllNotifications | src/contexts/NotificationContext.jsx:79-82 | Clear-all empties the list and zeroes the count, and leaves `loading` unchanged. The provider applies the same transition when nobody is signed in. |
| NotificationState.EmptyUntilDelivery | src/contexts/NotificationContext.jsx:24-27 | Once signed out, the tray stays empty with a zero count until the next snapshot; dismissals, clear-all, errors and a new sign-in bring nothing back. |
| NotificationState.DeliveryForgetsHistory | src/contexts/NotificationContext.jsx:61-63 | After any history, including a clear-all or dismissals, the next snapshot rebuilds exactly that snapshot's full feed. |
| NotificationState.RunKeepsInv | src/contexts/NotificationContext.jsx:72-77 | Every run of events whose snapshots have distinct project ids keeps the ids unique and the count no larger than the list. |
| Tray.Badge | src/components/NotificationSystem.jsx:100-104 | The badge appears only for a positive count. It reads "9+" above nine, and otherwise shows one digit whose value is the count. |
| Tray.Summary | src/components/NotificationSystem.jsx:134-138 | The summary appears only for a positive count. It reads "1 new request" for one, and otherwise the count's canonical decimal digits (no leading zero) followed by " new requests". |
| Tray.TrayBody | src/components/NotificationSystem.jsx:142-156 | The body shows a spinner while loading, otherwise the empty state for an empty list, otherwise one row per notification keyed by its id, in list order. |
| Tray.View | src/components/NotificationSystem.jsx:90-239 | Computes what the tray renders; `ViewSpec` and `SnapshotRowsMatchCount` state its meaning. |
| Tray.ViewSpec | src/components/NotificationSystem.jsx:92-237 | The bell is disabled while loading or busy. The panel shows only when open. "Clear all" shows only for a positive count and is disabled while busy. Row buttons are disabled while busy. The footer hint shows for a non-empty list. |
| Tray.SnapshotRowsMatchCount | src/components/NotificationSystem.jsx:100-156 | After a snapshot, an open idle tray has one row per delivered request. The badge, the summary and an enabled "Clear all" all count exactly those rows. |
| Tray.Toggle | src/components/NotificationSystem.jsx:92-97 | A click on the bell flips the panel exactly when the bell is enabled, which means neither loading nor busy; it changes nothing else. |
| Tray.Close | src/components/NotificationSystem.jsx:124-131 | The close button hides the panel and changes nothing else. |
| Tray.Dismiss | src/components/NotificationSystem.jsx:38-53 | The removal write comes first. Only after it succeeds is the entry removed locally, through the provider's `markAsRead`: the other entries keep their order, the count drops, and `loading` is unchanged. A failure leaves list and count unchanged. While the write runs only `actionLoading` is set, and the panel stays as it was; after it the tray is idle on either outcome. The order assumes no snapshot arrives before `markAsRead` (see "## Left out"). |
| Tray.DismissListedKeepsCount | src/components/NotificationSystem.jsx:38-46 | When no snapshot arrives between the click and `markAsRead`, dismissing a listed entry from a consistent tray drops exactly one entry and keeps the count equal to the length. The write's own echo usually breaks that assumption; see `Tray.Dismiss` under "## Left out". |
| Tray.Accept | src/components/NotificationSystem.jsx:55-72 | Accept as written: the dismissal's busy state, its after-state (the panel stays as it was), and its two effects (the write, then the dismissal's own success or failure toast), then the accepted toast and the mail handoff, on either outcome. The accept-failure toast never appears. |
| Tray.AcceptAfterFailedWriteStillAccepts | src/components/NotificationSystem.jsx:47-65 | After a failed write, accept still reports the request accepted and hands off to mail, while the request stays listed. |
| Tray.AcceptIntended | src/components/NotificationSystem.jsx:55-72 | The corrected accept: busy during the write as the dismissal is, the panel left as it was; a failed write ends with the write and the accept-failure toast only, and the list unchanged; a successful one yields exactly the as-written effects: the write, the dismissed toast, the accepted toast, then the mail handoff. |
| Tray.ClearAll | src/components/NotificationSystem.jsx:74-77 | Clear-all empties the list, zeroes the count, and shows its toast; `loading`, the open panel and `actionLoading` are unchanged, and there is no separate state while it runs. |
| Tray.RowKeysUnique | src/components/NotificationSystem.jsx:156 | For a consistent provider state, the rows' keys are pairwise distinct. |
| ProjectCard.IsOwnProject | src/components/ProjectCard.jsx:24 | The ownership predicate; `OwnershipGate` and `View` state when it holds and what it gates. |
| ProjectCard.HasJoinRequest | src/components/ProjectCard.jsx:25-27 | The request predicate; `View` states that the join button is disabled and reads "Request Sent" exactly when it holds. |
| ProjectCard.HasPendingRequests | src/components/ProjectCard.jsx:28 | The pending predicate; `View` states that the pending count and badge show exactly when it holds. |
| ProjectCard.FormatDate | src/components/ProjectCard.jsx:12-14 | A missing timestamp shows "Just now"; a present one is formatted. |
| ProjectCard.View | src/components/ProjectCard.jsx:24-142 | Delete and "Your Project" show exactly when the user's email equals `authorEmail`, and the join button shows exactly otherwise. The join button is disabled and reads "Request Sent" exactly when some request carries the user's email; otherwise it reads "Join Project". "N interested" shows exactly for a non-empty request array. "N pending" and the badge show exactly for the owner with requests. |
| ProjectCard.OwnershipGate | src/components/ProjectCard.jsx:24 | Signed in, the owner controls appear exactly for the author. Signed out, they appear only when `authorEmail` is missing. |
| ProjectCard.ClickJoin | src/components/ProjectCard.jsx:30-34 | A click reaches the handler exactly when a handler was passed, the user is not the owner, and no request carries the user's email. |
| ProjectCard.DeleteProject | src/components/ProjectCard.jsx:36-48 | A non-owner gets nothing. The owner is asked to confirm. Only a confirmed delete writes, and the write targets the project's id. |
| ProjectCard.DeleteOnlyFromOwnerCard | src/components/ProjectCard.jsx:36-78 | The delete asks for confirmation exactly when the card shows its delete button. A delete that writes implies that the button was shown and that no join button was. |
| ProjectForm.Ready | src/components/ProjectForm.jsx:17 | The submit guard; `DisabledMatchesGuard`, `BlankFieldIsNoOp` and `Submit` state what it allows. |
| ProjectForm.SubmitDisabled | src/components/ProjectForm.jsx:111 | Submit is disabled exactly while loading or while either field is whitespace only. |
| ProjectForm.DisabledMatchesGuard | src/components/ProjectForm.jsx:17 | When idle, the button is disabled exactly when the submit guard would refuse. |
| ProjectForm.BuildRecord | src/components/ProjectForm.jsx:21-29 | The record has the trimmed title and description, both non-empty with no whitespace at either end. The author's name, email and photo come from the user, and there are no join requests. |
| ProjectForm.Submit | src/components/ProjectForm.jsx:15-54 | A refused guard does nothing. Otherwise the form is busy during the write and idle after it. Without a user it fails before writing. Success clears the fields and runs the callbacks in order; failure keeps the fields. |
| ProjectForm.BlankFieldIsNoOp | src/components/ProjectForm.jsx:17 | A whitespace-only field means no write and no state change. |
| ProjectForm.FieldsKeptUnlessCreated | src/components/ProjectForm.jsx:48-53 | Only a successful creation clears the fields. A write happens exactly when the guard passes and a user is signed in. |
| ProjectForm.SubmitCaption | src/components/ProjectForm.jsx:114 | The button caption; `CaptionDuringSubmit` states when each caption shows. |
| ProjectForm.CaptionDuringSubmit | src/components/ProjectForm.jsx:114 | During an accepted submission the button is disabled and reads "Creating..."; afterwards it reads "Create Project". |
| ProjectList.Snapshot | src/components/ProjectList.jsx:31-40 | A snapshot replaces the list with the delivered documents, tagged with their ids and in delivered order, ends loading, and leaves the form as it was. |
| ProjectList.SnapshotFailed | src/components/ProjectList.jsx:41-44 | An error ends loading and leaves the list unchanged. |
| ProjectList.Step | src/components/ProjectList.jsx:31-142 | Applies one feed event; `LoadingUntilFirstAnswer` and `FormEventsKeepProjects` state what runs of events do. |
| ProjectList.Run | src/components/ProjectList.jsx:31-142 | Applies feed events in order; its meaning is stated by the two lemmas named in the row above. |
| ProjectList.LoadingUntilFirstAnswer | src/components/ProjectList.jsx:22-44 | After any events, the feed is loading exactly when it was loading before and no snapshot or error arrived. |
| ProjectList.FormEventsKeepProjects | src/components/ProjectList.jsx:96-102 | Opening and closing the form never touches the list or `loading`. |
| ProjectList.OpenForm | src/components/ProjectList.jsx:96-102 | "New Project" opens the form and changes nothing else. |
| ProjectList.CloseForm | src/components/ProjectList.jsx:136-142 | The form's callbacks close it and change nothing else. |
| ProjectList.AfterSubmit | src/components/ProjectList.jsx:136-142 | The form closes exactly when it reports the project added or asks to close. |
| ProjectList.SubmitFromFeed | src/components/ProjectList.jsx:136-142 | A form opened from the feed closes exactly after a successful creation. |
| ProjectList.View | src/components/ProjectList.jsx:79-143 | While loading, only the spinner shows. Afterwards the empty state shows for an empty list, otherwise one card per project keyed by its id, and the form shows when open. |
| ProjectList.RequestFrom | src/components/ProjectList.jsx:53-58 | The request carries the user's email, name and photo and the click time. |
| ProjectList.Join | src/components/ProjectList.jsx:49-77 | With no user, nothing happens. Otherwise one write adds the request to the project's document, followed by the success toast naming the author or the failure toast. |
| ProjectList.SignedOutJoinIsNoOp | src/components/ProjectList.jsx:50 | A signed-out click reaches the handler and does nothing. |
| ProjectList.AddJoinRequest | src/components/ProjectList.jsx:60-63 | The store's union appends the request unless an equal one is present, and changes nothing else in the document. |
| ProjectList.SentRequestDisablesJoin | src/components/ProjectList.jsx:53-63 | Once the request is stored, the requester's card shows the disabled "Request Sent". |
| Scenarios.Persisted | src/components/ProjectForm.jsx:21-31 | The stored document keeps the record's title, author email and requests, with the store's id and the resolved timestamp. |
| Scenarios.CreatedProjectIsOwn | src/components/ProjectForm.jsx:21-29 | A created project is its creator's own: the creator gets delete and no join button, and another user gets an enabled "Join Project". It has no notifications, and the feed shows it as one card. |
| Scenarios.JoinReachesOwner | src/components/ProjectList.jsx:53-63 | A new request from another user adds exactly one notification to the owner's feed, carrying the request, the project id and the title. |
| Scenarios.AcceptOnlyRequestEmptiesTray | src/components/NotificationSystem.jsx:55-62 | Accepting the only request leaves the tray empty, with a zero count and no badge. |
| Scenarios.SignOutThenIn | src/contexts/NotificationContext.jsx:23-70 | Signing out empties the tray. Signing back in and receiving a snapshot shows exactly that snapshot's feed, counted in full. |

## Left out

- Store library behaviour. The real effects of `addDoc`, `deleteDoc`, `updateDoc` and `onSnapshot` are not modelled. Each write is a success/failure parameter, and each subscription is a sequence of deliveries or errors. `ProjectList.AddJoinRequest` and `Scenarios.Persisted` are assumptions about what a successful write leaves behind, used only to connect the components. `arrayRemove` is not modelled at all.
- Order of the store's query results. The feed's `orderBy('timestamp', 'desc')` is applied by the store. The model keeps whatever order the snapshot delivers.
- Authentication. The current user is an `Option<User>` input. The JavaScript difference between `null` and `undefined` is not modelled.
- Dates. Locale formatting and the conversion between `Date` and the store's timestamp become integers. Also left out: the tray's `formatDate` on each row, and the exception `toDate()` would throw for a request without a timestamp.
- Text and navigation. Toast wording, the `mailto:` templates and the Reply button's navigation, `window.confirm` (a boolean input here), console logging, and the click-outside listener (`Tray.Close` covers its effect).
- The notification's constant `type: 'join_request'` field.
- Concurrency. The model has no async interleaving. For example, it omits the race between the `finally` blocks of accept and the nested dismiss on `actionLoading`; the model takes them in sequence. The snapshot that a dismissal's own write triggers is covered by the `Tray.Dismiss` line below. Unsubscribing when the user changes is also left out.
- Layout and other files. Layout, routing and static pages are not modelled. The header, the auth guard, the about page and the build configuration are not part of this model.
- ProjectForm.Submit: it treats a missing user as failing before the write. The source reads `currentUser.displayName` inside `try`, which throws a TypeError there. The model does not follow the exception object.
- Tray.Dismiss: it and `Tray.Accept` assume that no snapshot arrives between the click and `markAsRead`. But the removal write changes a document the owner's query watches, and the store reports local writes to its listeners before the write's promise resolves. So the write's own echo normally is such a snapshot. It re-derives the list and renumbers the `projectId-index` ids, and `markAsRead(notification.id)` then filters the renumbered list. Take one project with requests `p-0` (newer) and `p-1`. Removing the request of `p-0` renumbers the survivor to `p-0`, and the read then drops it too, leaving an empty list. Removing the request of `p-1` leaves the survivor at `p-0`; the read then removes nothing but still lowers the count to zero, so the badge, the summary and "Clear all" vanish while one request stays listed. Both orders can be written as `NotificationState.Run` over `Delivered` then `Read`. The tray's own contracts describe only the echo-free order.
- NotificationIds.DeriveIdsDistinct: it requires the delivered projects to have distinct ids. A stored `id` field, which the object spread honours, could give two documents the same id.

## Findings

| source | as written | input that shows it | evidently intended | confidence | as-written member | corrected member |
|---|---|---|---|---|---|---|
| src/components/NotificationSystem.jsx:55-72 | `handleAcceptRequest` awaits `handleDismissNotification`, which catches its own write error. The accept handler's `catch` can never run, so the "Accepted" toast and the mail handoff follow a failed write too. | Any accept whose removal write fails: the effects are the write, the dismiss-failure toast, the accepted toast, and the mail handoff, and the request stays listed. | A failed write ends with the accept-failure toast, with no accepted toast and no mail handoff. | not executed | Tray.Accept, Tray.AcceptAfterFailedWriteStillAccepts | Tray.AcceptIntended |
