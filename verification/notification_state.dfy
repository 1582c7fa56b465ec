/** The notification provider's state (`notifications`, `unreadCount`, `loading`) and the
    events that drive it: the session changing, a snapshot or an error from the owner's
    live query, and the two local dismissals. */
module NotificationState {
  import opened Records
  import opened Notifications
  import opened NotificationIds

  datatype State = State(notifications: seq<Notification>, unreadCount: nat, loading: bool)

  const Initial: State := State([], 0, false)

  /** The live query `where authorEmail == email`: the stored documents whose
      `authorEmail` field is the user's email, in the store's order. */
  function OwnedBy(all: seq<Doc>, email: string): (r: seq<Doc>)
    ensures forall d :: d in r <==> d in all && d.data.authorEmail == Some(email)
  {
    if |all| == 0 then []
    else (if all[0].data.authorEmail == Some(email) then [all[0]] else []) + OwnedBy(all[1..], email)
  }

  /** A user signed in and the query was attached: only `loading` changes. */
  function Subscribed(s: State): (r: State)
    ensures r.loading
    ensures r.notifications == s.notifications && r.unreadCount == s.unreadCount
  {
    s.(loading := true)
  }

  /** A snapshot replaces the list with the derived feed and sets the count to its
      length, whatever the state before. */
  function Snapshot(s: State, docs: seq<Doc>): (r: State)
    ensures r.unreadCount == |r.notifications| == TotalRequests(Tag(docs))
    ensures !r.loading
    ensures NewestFirst(r.notifications)
    ensures multiset(r.notifications) == multiset(Flatten(Tag(docs)))
  {
    DeriveSpec(docs);
    var ns := Derive(docs);
    State(ns, |ns|, false)
  }

  /** A query error only ends loading. */
  function SnapshotFailed(s: State): (r: State)
    ensures !r.loading
    ensures r.notifications == s.notifications && r.unreadCount == s.unreadCount
  {
    s.(loading := false)
  }

  /** `prev.filter(n => n.id !== id)` (`RemoveIdMembers` states what it keeps). */
  function RemoveId(ns: seq<Notification>, id: string): seq<Notification> {
    if |ns| == 0 then []
    else (if ns[0].id != id then [ns[0]] else []) + RemoveId(ns[1..], id)
  }

  /** The filter keeps exactly the entries with a different id, and never grows. */
  lemma {:induction false} RemoveIdMembers(ns: seq<Notification>, id: string)
    ensures forall x :: x in RemoveId(ns, id) <==> x in ns && x.id != id
    ensures |RemoveId(ns, id)| <= |ns|
  {
    if |ns| > 0 {
      RemoveIdMembers(ns[1..], id);
      assert ns == [ns[0]] + ns[1..];
    }
  }

  /** Removes the entries with that id and lowers the count by one, floored at zero,
      whether or not an entry matched. */
  function MarkAsRead(s: State, id: string): (r: State)
    ensures forall x :: x in r.notifications <==> x in s.notifications && x.id != id
    ensures r.unreadCount == if s.unreadCount == 0 then 0 else s.unreadCount - 1
    ensures r.loading == s.loading
  {
    RemoveIdMembers(s.notifications, id);
    State(RemoveId(s.notifications, id), if s.unreadCount >= 1 then s.unreadCount - 1 else 0, s.loading)
  }

  /** Empties the list and zeroes the count, leaving `loading` as it was. The provider
      does the same when nobody is signed in. */
  function ClearAllNotifications(s: State): (r: State)
    ensures r.notifications == [] && r.unreadCount == 0
    ensures r.loading == s.loading
  {
    s.(notifications := [], unreadCount := 0)
  }

  datatype Event =
    | UserChanged(user: Option<User>)
    | Delivered(docs: seq<Doc>)
    | DeliveryFailed
    | Read(id: string)
    | ClearedAll

  function Step(s: State, e: Event): State {
    match e
    case UserChanged(user) => if user.None? then ClearAllNotifications(s) else Subscribed(s)
    case Delivered(docs) => Snapshot(s, docs)
    case DeliveryFailed => SnapshotFailed(s)
    case Read(id) => MarkAsRead(s, id)
    case ClearedAll => ClearAllNotifications(s)
  }

  function Run(s: State, events: seq<Event>): State
    decreases |events|
  {
    if |events| == 0 then s else Run(Step(s, events[0]), events[1..])
  }

  // ---------------------------------------------------------------------------

  /** The removal is a filter: it works piecewise over a concatenation, so the entries
      it keeps stay in their relative order. */
  lemma {:induction false} RemoveIdDistributes(a: seq<Notification>, b: seq<Notification>, id: string)
    ensures RemoveId(a + b, id) == RemoveId(a, id) + RemoveId(b, id)
  {
    if |a| > 0 {
      var head := if a[0].id != id then [a[0]] else [];
      assert (a + b)[0] == a[0];
      assert (a + b)[1..] == a[1..] + b;
      RemoveIdDistributes(a[1..], b, id);
      calc {
        RemoveId(a + b, id);
        head + RemoveId(a[1..] + b, id);
        head + (RemoveId(a[1..], id) + RemoveId(b, id));
        (head + RemoveId(a[1..], id)) + RemoveId(b, id);
        RemoveId(a, id) + RemoveId(b, id);
      }
    } else {
      assert a + b == b;
    }
  }

  /** With nothing matching the id, the list is untouched. */
  lemma {:induction false} RemoveIdAbsent(ns: seq<Notification>, id: string)
    requires forall x :: x in ns ==> x.id != id
    ensures RemoveId(ns, id) == ns
  {
    if |ns| > 0 {
      RemoveIdAbsent(ns[1..], id);
      assert ns == [ns[0]] + ns[1..];
    }
  }

  /** With unique ids, removing the id of entry `k` removes just that entry and keeps
      the others in their order. */
  lemma RemoveIdUnique(ns: seq<Notification>, id: string, k: nat)
    requires DistinctIds(ns)
    requires k < |ns| && ns[k].id == id
    ensures RemoveId(ns, id) == ns[..k] + ns[k + 1..]
  {
    var before, after := ns[..k], ns[k + 1..];
    var mid := [ns[k]] + after;
    OnlyEntryWithId(ns, k);
    assert ns == before + mid;
    RemoveIdDistributes(before, mid, id);
    RemoveIdDistributes([ns[k]], after, id);
    RemoveIdAbsent(before, id);
    RemoveIdAbsent(after, id);
    assert RemoveId([ns[k]], id) == [] by {
      assert [ns[k]][1..] == [];
    }
    calc {
      RemoveId(ns, id);
      RemoveId(before, id) + RemoveId(mid, id);
      before + (RemoveId([ns[k]], id) + RemoveId(after, id));
      before + ([] + after);
    }
    assert [] + after == after;
  }

  /** With unique ids, no entry before or after `k` shares its id. */
  lemma OnlyEntryWithId(ns: seq<Notification>, k: nat)
    requires DistinctIds(ns) && k < |ns|
    ensures forall x :: x in ns[..k] ==> x.id != ns[k].id
    ensures forall x :: x in ns[k + 1..] ==> x.id != ns[k].id
  {
    forall x | x in ns[..k]
      ensures x.id != ns[k].id
    {
      var j :| 0 <= j < k && ns[..k][j] == x;
      assert x == ns[j];
    }
    forall x | x in ns[k + 1..]
      ensures x.id != ns[k].id
    {
      var j :| 0 <= j < |ns| - k - 1 && ns[k + 1..][j] == x;
      assert x == ns[k + 1 + j];
    }
  }

  /** Marking an id that matches nothing still lowers a positive count: afterwards the
      count is below the number of listed entries. */
  lemma MarkAsReadUnmatchedDiverges(s: State, id: string)
    requires s.unreadCount == |s.notifications| > 0
    requires forall x :: x in s.notifications ==> x.id != id
    ensures MarkAsRead(s, id).notifications == s.notifications
    ensures MarkAsRead(s, id).unreadCount == |s.notifications| - 1
  {
    RemoveIdAbsent(s.notifications, id);
  }

  /** Once signed out, the tray stays empty until a snapshot arrives: no dismissal,
      clear-all, error or new sign-in brings anything back, and the count stays zero. */
  lemma {:induction false} EmptyUntilDelivery(s: State, events: seq<Event>)
    requires s.notifications == [] && s.unreadCount == 0
    requires forall i :: 0 <= i < |events| ==> !events[i].Delivered?
    ensures Run(s, events).notifications == [] && Run(s, events).unreadCount == 0
    decreases |events|
  {
    if |events| > 0 {
      var next := Step(s, events[0]);
      assert next.notifications == [] by {
        if events[0].Read? {
          RemoveIdAbsent([], events[0].id);
        }
      }
      assert forall i :: 0 <= i < |events[1..]| ==> events[1..][i] == events[i + 1];
      EmptyUntilDelivery(next, events[1..]);
    }
  }

  /** Running `events` then `e` is running `e` after `events`. */
  lemma {:induction false} RunSnoc(s: State, events: seq<Event>, e: Event)
    ensures Run(s, events + [e]) == Step(Run(s, events), e)
    decreases |events|
  {
    if |events| > 0 {
      assert (events + [e])[1..] == events[1..] + [e];
      RunSnoc(Step(s, events[0]), events[1..], e);
    }
  }

  /** Whatever happened before (dismissals, a clear-all, a sign-out), the next snapshot
      rebuilds the full feed of that snapshot and nothing else. */
  lemma DeliveryForgetsHistory(s: State, events: seq<Event>, docs: seq<Doc>)
    ensures Run(s, events + [Delivered(docs)]) == Run(Initial, [Delivered(docs)])
    ensures Run(s, events + [Delivered(docs)]).notifications == Derive(docs)
  {
    RunSnoc(s, events, Delivered(docs));
    assert Run(Initial, [Delivered(docs)]) == Run(Snapshot(Initial, docs), []);
  }

  /** The badge never counts more than the tray lists, and ids stay unique. */
  ghost predicate Inv(s: State) {
    DistinctIds(s.notifications) && s.unreadCount <= |s.notifications|
  }

  /** Snapshots of the owner's query carry distinct project ids. */
  ghost predicate KeyedEvent(e: Event) {
    e.Delivered? ==> WellKeyed(Tag(e.docs))
  }

  lemma {:induction false} RemoveIdKeepsDistinct(ns: seq<Notification>, id: string)
    requires DistinctIds(ns)
    ensures DistinctIds(RemoveId(ns, id))
  {
    if |ns| > 0 {
      var rest := RemoveId(ns[1..], id);
      RemoveIdMembers(ns[1..], id);
      assert DistinctIds(ns[1..]);
      RemoveIdKeepsDistinct(ns[1..], id);
      forall x, y | x in [ns[0]] && y in rest
        ensures x.id != y.id
      {
        var j :| 0 <= j < |ns[1..]| && ns[1..][j] == y;
        assert y == ns[j + 1];
      }
      DistinctConcat([ns[0]], rest);
    }
  }

  /** Dismissing one entry keeps the invariant: with unique ids at most one entry goes,
      and the count goes down by one unless it was already zero. */
  lemma MarkAsReadKeepsInv(s: State, id: string)
    requires Inv(s)
    ensures Inv(MarkAsRead(s, id))
  {
    var ns := s.notifications;
    RemoveIdKeepsDistinct(ns, id);
    if k :| 0 <= k < |ns| && ns[k].id == id {
      RemoveIdUnique(ns, id, k);
    } else {
      RemoveIdAbsent(ns, id);
    }
  }

  lemma StepKeepsInv(s: State, e: Event)
    requires Inv(s) && KeyedEvent(e)
    ensures Inv(Step(s, e))
  {
    match e
    case Delivered(docs) =>
      DeriveIdsDistinct(docs);
    case Read(id) =>
      MarkAsReadKeepsInv(s, id);
    case _ =>
  }

  /** From any state satisfying the invariant, every run of well-keyed events keeps it;
      in particular from the initial state. */
  lemma {:induction false} RunKeepsInv(s: State, events: seq<Event>)
    requires Inv(s)
    requires forall i :: 0 <= i < |events| ==> KeyedEvent(events[i])
    ensures Inv(Run(s, events))
    decreases |events|
  {
    if |events| > 0 {
      StepKeepsInv(s, events[0]);
      RunKeepsInv(Step(s, events[0]), events[1..]);
    }
  }

  /** The owner's feed lists exactly the requests of the stored projects whose
      `authorEmail` is the user's email: no more, no fewer. */
  lemma OwnedFeedIsExact(all: seq<Doc>, email: string, n: Notification)
    ensures n in Derive(OwnedBy(all, email)) <==>
      exists d, i :: d in all && d.data.authorEmail == Some(email)
        && 0 <= i < |Requests(FromDoc(d))| && n == ForRequest(FromDoc(d), i)
  {
    var owned := OwnedBy(all, email);
    DeriveMembers(owned, n);
    if n in Derive(owned) {
      var k, i :| 0 <= k < |Tag(owned)| && 0 <= i < |Requests(Tag(owned)[k])| && n == ForRequest(Tag(owned)[k], i);
      assert owned[k] in owned;
    }
    if exists d, i :: d in all && d.data.authorEmail == Some(email)
        && 0 <= i < |Requests(FromDoc(d))| && n == ForRequest(FromDoc(d), i) {
      var d, i :| d in all && d.data.authorEmail == Some(email)
        && 0 <= i < |Requests(FromDoc(d))| && n == ForRequest(FromDoc(d), i);
      var k :| 0 <= k < |owned| && owned[k] == d;
      assert Tag(owned)[k] == FromDoc(d);
    }
  }
}
