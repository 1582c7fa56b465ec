/** Derivation of the notification feed from a snapshot of the signed-in user's own
    projects: one notification per join request, tagged `projectId-index`, ordered
    newest first by a stable sort. */
module Notifications {
  import opened Records
  import Decimal

  /** A derived, never stored, view of one join request on one of the user's projects. */
  datatype Notification = Notification(
    id: string,
    projectId: string,
    projectTitle: string,
    request: JoinRequest,
    timestamp: int)

  /** The composite key `${project.id}-${index}` (`NotificationIdParts` states its shape). */
  function NotificationId(projectId: string, index: nat): string {
    projectId + "-" + Decimal.FromNat(index)
  }

  /** The key is the project id, a dash, and the index's decimal digits without leading
      zeros, which read back as the index. */
  lemma NotificationIdParts(projectId: string, index: nat)
    ensures var r := NotificationId(projectId, index);
      && |r| > |projectId| + 1 && r[..|projectId|] == projectId && r[|projectId|] == '-'
      && Decimal.AllDigits(r[|projectId| + 1..]) && Decimal.Value(r[|projectId| + 1..]) == index
      && (r[|projectId| + 1] == '0' ==> index == 0)
  {
    var r := NotificationId(projectId, index);
    Decimal.ValueOfFromNat(index);
    assert r[|projectId| + 1..] == Decimal.FromNat(index);
  }

  /** The notification built for the `index`-th join request of `p`. */
  function ForRequest(p: Project, index: nat): Notification
    requires index < |Requests(p)|
  {
    var r := Requests(p)[index];
    Notification(NotificationId(p.id, index), p.id, p.title, r, r.timestamp)
  }

  /** The notifications one project contributes: none unless its join-request array
      is present and non-empty, otherwise one per request in array order. */
  function ProjectNotifications(p: Project): seq<Notification> {
    if p.joinRequests.Some? && |p.joinRequests.value| > 0 then
      seq(|p.joinRequests.value|, i requires 0 <= i < |p.joinRequests.value| => ForRequest(p, i))
    else
      []
  }

  /** The notifications of all projects, project after project, before sorting. */
  function Flatten(ps: seq<Project>): seq<Notification> {
    if |ps| == 0 then [] else ProjectNotifications(ps[0]) + Flatten(ps[1..])
  }

  /** The number of join requests over all projects, a missing array counting zero. */
  function TotalRequests(ps: seq<Project>): nat {
    if |ps| == 0 then 0 else |Requests(ps[0])| + TotalRequests(ps[1..])
  }

  /** `n` is the notification of some request of some project of `ps`. */
  ghost predicate FromSomeRequest(ps: seq<Project>, n: Notification) {
    exists k, i :: 0 <= k < |ps| && 0 <= i < |Requests(ps[k])| && n == ForRequest(ps[k], i)
  }

  lemma {:induction false} FlattenLength(ps: seq<Project>)
    ensures |Flatten(ps)| == TotalRequests(ps)
  {
    if |ps| > 0 {
      FlattenLength(ps[1..]);
    }
  }

  /** Every flattened entry is the notification of one request of one project. */
  lemma {:induction false} FlattenSound(ps: seq<Project>, n: Notification)
    requires n in Flatten(ps)
    ensures FromSomeRequest(ps, n)
  {
    var head := ProjectNotifications(ps[0]);
    if n in head {
      var i :| 0 <= i < |head| && head[i] == n;
      assert n == ForRequest(ps[0], i);
    } else {
      assert n in Flatten(ps[1..]);
      FlattenSound(ps[1..], n);
      var k, i :| 0 <= k < |ps[1..]| && 0 <= i < |Requests(ps[1..][k])| && n == ForRequest(ps[1..][k], i);
      assert ps[1..][k] == ps[k + 1];
    }
  }

  /** Every request of every project has its notification among the flattened entries. */
  lemma {:induction false} FlattenComplete(ps: seq<Project>, k: nat, i: nat)
    requires k < |ps| && i < |Requests(ps[k])|
    ensures ForRequest(ps[k], i) in Flatten(ps)
  {
    if k == 0 {
      assert ProjectNotifications(ps[0])[i] == ForRequest(ps[0], i);
    } else {
      assert ps[1..][k - 1] == ps[k];
      FlattenComplete(ps[1..], k - 1, i);
    }
  }

  // ---------------------------------------------------------------------------
  // Newest-first stable sort (`Array.prototype.sort` with `(a, b) => timeB - timeA`;
  // the language requires that sort to be stable).

  predicate NewestFirst(s: seq<Notification>) {
    forall i, j :: 0 <= i < j < |s| ==> s[i].timestamp >= s[j].timestamp
  }

  /** The entries of `s` stamped `t`, in their order in `s`. */
  function WithTimestamp(s: seq<Notification>, t: int): seq<Notification> {
    if |s| == 0 then []
    else (if s[0].timestamp == t then [s[0]] else []) + WithTimestamp(s[1..], t)
  }

  /** Inserts `n` in front of every entry that is not strictly newer. */
  function Insert(n: Notification, s: seq<Notification>): (r: seq<Notification>)
    ensures multiset(r) == multiset(s) + multiset{n}
  {
    if |s| == 0 then [n]
    else if s[0].timestamp > n.timestamp then
      assert s == [s[0]] + s[1..];
      [s[0]] + Insert(n, s[1..])
    else
      [n] + s
  }

  lemma {:induction false} InsertNewestFirst(n: Notification, s: seq<Notification>)
    requires NewestFirst(s)
    ensures NewestFirst(Insert(n, s))
  {
    if |s| > 0 && s[0].timestamp > n.timestamp {
      var rest := Insert(n, s[1..]);
      InsertNewestFirst(n, s[1..]);
      forall j | 0 <= j < |rest|
        ensures rest[j].timestamp <= s[0].timestamp
      {
        assert rest[j] in multiset(rest);
        assert rest[j] == n || rest[j] in s[1..];
      }
      assert Insert(n, s) == [s[0]] + rest;
    }
  }

  function SortNewestFirst(s: seq<Notification>): (r: seq<Notification>)
    ensures NewestFirst(r)
    ensures multiset(r) == multiset(s)
  {
    if |s| == 0 then []
    else
      assert s == [s[0]] + s[1..];
      InsertNewestFirst(s[0], SortNewestFirst(s[1..]));
      Insert(s[0], SortNewestFirst(s[1..]))
  }

  /** The feed a snapshot of the user's projects yields. */
  function Derive(docs: seq<Doc>): seq<Notification> {
    SortNewestFirst(Flatten(Tag(docs)))
  }

  lemma {:induction false} InsertKeepsTies(n: Notification, s: seq<Notification>, t: int)
    ensures WithTimestamp(Insert(n, s), t) == (if n.timestamp == t then [n] else []) + WithTimestamp(s, t)
  {
    var r := Insert(n, s);
    if |s| == 0 {
      assert r[1..] == [];
    } else if s[0].timestamp > n.timestamp {
      assert r[1..] == Insert(n, s[1..]);
      InsertKeepsTies(n, s[1..], t);
    } else {
      assert r[1..] == s;
    }
  }

  /** Sorting keeps, for every timestamp, the entries so stamped in their original order. */
  lemma {:induction false} SortKeepsTies(s: seq<Notification>, t: int)
    ensures WithTimestamp(SortNewestFirst(s), t) == WithTimestamp(s, t)
  {
    if |s| > 0 {
      SortKeepsTies(s[1..], t);
      InsertKeepsTies(s[0], SortNewestFirst(s[1..]), t);
    }
  }

  lemma {:induction false} TiesStartAtOrAfterHead(s: seq<Notification>, t: int)
    requires NewestFirst(s)
    requires WithTimestamp(s, t) != []
    ensures |s| > 0 && s[0].timestamp >= t
  {
    if s[0].timestamp != t {
      TiesStartAtOrAfterHead(s[1..], t);
    }
  }

  /** Newest-first order plus unchanged per-timestamp order determine the list: any
      stable newest-first sort of the same entries is this one. */
  lemma {:induction false} StableOrderIsUnique(a: seq<Notification>, b: seq<Notification>)
    requires NewestFirst(a) && NewestFirst(b)
    requires forall t :: WithTimestamp(a, t) == WithTimestamp(b, t)
    ensures a == b
    decreases |a|
  {
    if |a| == 0 {
      if |b| > 0 {
        assert WithTimestamp(b, b[0].timestamp) != [];
      }
    } else {
      var m := a[0].timestamp;
      assert WithTimestamp(a, m) != [];
      TiesStartAtOrAfterHead(b, m);
      assert WithTimestamp(b, b[0].timestamp) != [];
      TiesStartAtOrAfterHead(a, b[0].timestamp);
      assert b[0].timestamp == m;
      assert WithTimestamp(a, m) == [a[0]] + WithTimestamp(a[1..], m);
      assert WithTimestamp(b, m) == [b[0]] + WithTimestamp(b[1..], m);
      assert a[0] == WithTimestamp(a, m)[0] == WithTimestamp(b, m)[0] == b[0];
      forall t
        ensures WithTimestamp(a[1..], t) == WithTimestamp(b[1..], t)
      {
        assert WithTimestamp(a, t) == WithTimestamp(b, t);
        if t == m {
          assert WithTimestamp(a[1..], t) == WithTimestamp(a, t)[1..];
          assert WithTimestamp(b[1..], t) == WithTimestamp(b, t)[1..];
        } else {
          assert WithTimestamp(a, t) == WithTimestamp(a[1..], t);
          assert WithTimestamp(b, t) == WithTimestamp(b[1..], t);
        }
      }
      StableOrderIsUnique(a[1..], b[1..]);
      assert a == [a[0]] + a[1..];
      assert b == [b[0]] + b[1..];
    }
  }

  /** The derived feed: newest first, equal timestamps in flattened order, holding
      exactly the notifications of the snapshot's requests (as a multiset, so none
      dropped or doubled), and as long as the snapshot has requests. */
  lemma DeriveSpec(docs: seq<Doc>)
    ensures NewestFirst(Derive(docs))
    ensures multiset(Derive(docs)) == multiset(Flatten(Tag(docs)))
    ensures forall t :: WithTimestamp(Derive(docs), t) == WithTimestamp(Flatten(Tag(docs)), t)
    ensures |Derive(docs)| == TotalRequests(Tag(docs))
  {
    var flat := Flatten(Tag(docs));
    forall t
      ensures WithTimestamp(Derive(docs), t) == WithTimestamp(flat, t)
    {
      SortKeepsTies(flat, t);
    }
    FlattenLength(Tag(docs));
    assert |Derive(docs)| == |multiset(Derive(docs))| == |multiset(flat)| == |flat|;
  }

  /** A notification is in the feed exactly when it is the notification of some
      request of some delivered project. */
  lemma DeriveMembers(docs: seq<Doc>, n: Notification)
    ensures n in Derive(docs) <==> FromSomeRequest(Tag(docs), n)
  {
    var flat := Flatten(Tag(docs));
    assert n in Derive(docs) <==> n in multiset(Derive(docs));
    assert n in flat <==> n in multiset(flat);
    if n in Derive(docs) {
      FlattenSound(Tag(docs), n);
    }
    if FromSomeRequest(Tag(docs), n) {
      var k, i :| 0 <= k < |Tag(docs)| && 0 <= i < |Requests(Tag(docs)[k])| && n == ForRequest(Tag(docs)[k], i);
      FlattenComplete(Tag(docs), k, i);
    }
  }
}
