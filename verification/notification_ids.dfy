/** Uniqueness of the composite notification ids. `markAsRead` removes entries by id
    and the tray keys its rows by id, so both rely on the ids of one feed being
    pairwise distinct. They are whenever the project ids are distinct: the index after
    the last dash is all digits, so even a project id holding dashes cannot make two
    composite ids collide. */
module NotificationIds {
  import opened Records
  import Decimal
  import opened Notifications

  predicate DistinctIds(ns: seq<Notification>) {
    forall i, j :: 0 <= i < j < |ns| ==> ns[i].id != ns[j].id
  }

  /** Pairwise distinct project ids, as the store's document ids are (a stored `id`
      field, which overrides the document id, could break this). */
  predicate WellKeyed(ps: seq<Project>) {
    forall k, l :: 0 <= k < l < |ps| ==> ps[k].id != ps[l].id
  }

  /** In `prefix-digits` the dash before the digits is the last dash. */
  lemma LastDash(p: string, d: string)
    requires Decimal.AllDigits(d)
    ensures var x := p + "-" + d;
      && x[|x| - 1 - |d|] == '-'
      && forall j :: |x| - |d| <= j < |x| ==> x[j] != '-'
  {
    var x := p + "-" + d;
    forall j | |x| - |d| <= j < |x|
      ensures x[j] != '-'
    {
      assert x[j] == d[j - (|x| - |d|)];
    }
  }

  /** The digits after the last dash are recovered from `prefix-digits`, and with
      them the prefix, whatever dashes the prefix holds. */
  lemma SplitAtLastDash(p1: string, d1: string, p2: string, d2: string)
    requires Decimal.AllDigits(d1) && Decimal.AllDigits(d2)
    requires p1 + "-" + d1 == p2 + "-" + d2
    ensures p1 == p2 && d1 == d2
  {
    var x := p1 + "-" + d1;
    LastDash(p1, d1);
    LastDash(p2, d2);
    assert |d1| == |d2|;
    assert p1 == x[..|p1|] == p2;
    assert d1 == x[|p1| + 1..] == d2;
  }

  /** Two composite ids are equal only for the same project and the same index. */
  lemma NotificationIdInjective(p1: string, i1: nat, p2: string, i2: nat)
    requires NotificationId(p1, i1) == NotificationId(p2, i2)
    ensures p1 == p2 && i1 == i2
  {
    SplitAtLastDash(p1, Decimal.FromNat(i1), p2, Decimal.FromNat(i2));
    Decimal.FromNatInjective(i1, i2);
  }

  /** Within one project the ids differ by their index, whatever the project id. */
  lemma SameProjectIdsDiffer(p: string, i1: nat, i2: nat)
    requires i1 != i2
    ensures NotificationId(p, i1) != NotificationId(p, i2)
  {
    if NotificationId(p, i1) == NotificationId(p, i2) {
      var x := NotificationId(p, i1);
      assert Decimal.FromNat(i1) == x[|p| + 1..] == Decimal.FromNat(i2);
      Decimal.FromNatInjective(i1, i2);
    }
  }

  lemma DistinctConcat(a: seq<Notification>, b: seq<Notification>)
    requires DistinctIds(a) && DistinctIds(b)
    requires forall x, y :: x in a && y in b ==> x.id != y.id
    ensures DistinctIds(a + b)
  {
    var c := a + b;
    forall i, j | 0 <= i < j < |c|
      ensures c[i].id != c[j].id
    {
      if j < |a| {
        assert c[i] == a[i] && c[j] == a[j];
      } else if i >= |a| {
        assert c[i] == b[i - |a|] && c[j] == b[j - |a|];
      } else {
        assert c[i] in a && c[j] in b;
      }
    }
  }

  lemma ProjectIdsDistinct(p: Project)
    ensures DistinctIds(ProjectNotifications(p))
  {
    var ns := ProjectNotifications(p);
    forall i, j | 0 <= i < j < |ns|
      ensures ns[i].id != ns[j].id
    {
      SameProjectIdsDiffer(p.id, i, j);
    }
  }

  /** Before sorting: distinct project ids give distinct notification ids. */
  lemma {:induction false} FlattenIdsDistinct(ps: seq<Project>)
    requires WellKeyed(ps)
    ensures DistinctIds(Flatten(ps))
  {
    if |ps| > 0 {
      var head := ProjectNotifications(ps[0]);
      var tail := Flatten(ps[1..]);
      assert WellKeyed(ps[1..]);
      FlattenIdsDistinct(ps[1..]);
      ProjectIdsDistinct(ps[0]);
      forall x, y | x in head && y in tail
        ensures x.id != y.id
      {
        var i :| 0 <= i < |head| && head[i] == x;
        FlattenSound(ps[1..], y);
        var k, j :| 0 <= k < |ps[1..]| && 0 <= j < |Requests(ps[1..][k])| && y == ForRequest(ps[1..][k], j);
        assert ps[1..][k] == ps[k + 1];
        if x.id == y.id {
          NotificationIdInjective(ps[0].id, i, ps[k + 1].id, j);
        }
      }
      DistinctConcat(head, tail);
    }
  }

  lemma {:induction false} InsertIdsDistinct(n: Notification, s: seq<Notification>)
    requires DistinctIds(s)
    requires forall x :: x in s ==> x.id != n.id
    ensures DistinctIds(Insert(n, s))
  {
    if |s| > 0 && s[0].timestamp > n.timestamp {
      var rest := Insert(n, s[1..]);
      InsertIdsDistinct(n, s[1..]);
      forall y | y in rest
        ensures s[0].id != y.id
      {
        assert y in multiset(rest);
        if y != n {
          var j :| 1 <= j < |s| && s[j] == y;
        }
      }
      DistinctConcat([s[0]], rest);
    } else if |s| > 0 {
      DistinctConcat([n], s);
    }
  }

  lemma {:induction false} SortIdsDistinct(s: seq<Notification>)
    requires DistinctIds(s)
    ensures DistinctIds(SortNewestFirst(s))
  {
    if |s| > 0 {
      var rest := SortNewestFirst(s[1..]);
      SortIdsDistinct(s[1..]);
      forall x | x in rest
        ensures x.id != s[0].id
      {
        assert x in multiset(rest);
        var j :| 1 <= j < |s| && s[j] == x;
      }
      InsertIdsDistinct(s[0], rest);
    }
  }

  /** The feed of a snapshot whose tagged project ids are distinct has
      pairwise distinct notification ids. */
  lemma DeriveIdsDistinct(docs: seq<Doc>)
    requires WellKeyed(Tag(docs))
    ensures DistinctIds(Derive(docs))
  {
    FlattenIdsDistinct(Tag(docs));
    SortIdsDistinct(Flatten(Tag(docs)));
  }
}
