/** What one call of `generate_remittances_for_all_users` does to the tables:
    which remittances and link rows it appends, why each is justified, that
    each user is paid at most once, and that a second call does nothing. */
module GenerationProps {
  import opened Models
  import opened Seqs
  import opened Service
  import opened UnremittedProps

  // ---------------------------------------------------------------------
  // Sums

  /** A total of strictly positive contributions is positive exactly when
      there is at least one. */
  lemma {:induction false} TotalPositive(cs: seq<Contribution>)
    requires forall c :: c in cs ==> c.amount > 0.0
    ensures TotalOf(cs) >= 0.0
    ensures TotalOf(cs) > 0.0 <==> cs != []
  {
    if cs != [] {
      assert forall c :: c in cs[..|cs| - 1] ==> c in cs;
      TotalPositive(cs[..|cs| - 1]);
      assert cs[|cs| - 1] in cs;
    }
  }

  lemma {:induction false} LinkTotalConcat(a: seq<RemittanceWorkLog>, b: seq<RemittanceWorkLog>, id: Id)
    ensures LinkTotal(a + b, id) == LinkTotal(a, id) + LinkTotal(b, id)
    decreases |b|
  {
    if b == [] {
      assert a + b == a;
    } else {
      assert (a + b)[..|a + b| - 1] == a + b[..|b| - 1];
      assert (a + b)[|a + b| - 1] == b[|b| - 1];
      LinkTotalConcat(a, b[..|b| - 1], id);
    }
  }

  /** Links that all point elsewhere add nothing to a remittance's total. */
  lemma {:induction false} LinkTotalAbsent(links: seq<RemittanceWorkLog>, id: Id)
    requires forall l :: l in links ==> l.remittanceId != id
    ensures LinkTotal(links, id) == 0.0
    decreases |links|
  {
    if links != [] {
      assert forall l :: l in links[..|links| - 1] ==> l in links;
      LinkTotalAbsent(links[..|links| - 1], id);
      assert links[|links| - 1] in links;
    }
  }

  /** The links made for one remittance add up to the contributions' total. */
  lemma {:induction false} LinkTotalOfLinksFor(remittanceId: Id, cs: seq<Contribution>, id: Id)
    ensures LinkTotal(LinksFor(remittanceId, cs), id) == if id == remittanceId then TotalOf(cs) else 0.0
    decreases |cs|
  {
    if cs != [] {
      LinkTotalOfLinksFor(remittanceId, cs[..|cs| - 1], id);
      var ls := LinksFor(remittanceId, cs);
      assert ls[..|ls| - 1] == LinksFor(remittanceId, cs[..|cs| - 1]);
    }
  }

  /** Reference: the sum over `ws` of the strictly positive amounts. */
  function PositiveTotal(t: Tables, ws: seq<WorkLog>): Money
  {
    if ws == [] then 0.0 else PositivePart(CalculateWorklogAmount(t, ws[0])) + PositiveTotal(t, ws[1..])
  }

  function PositivePart(x: Money): Money
  {
    if x > 0.0 then x else 0.0
  }

  lemma {:induction false} PositiveTotalSnoc(t: Tables, ws: seq<WorkLog>, w: WorkLog)
    ensures PositiveTotal(t, ws + [w]) == PositiveTotal(t, ws) + PositivePart(CalculateWorklogAmount(t, w))
  {
    if ws == [] {
      assert ws + [w] == [w];
      assert [w][1..] == [];
    } else {
      assert (ws + [w])[0] == ws[0];
      assert (ws + [w])[1..] == ws[1..] + [w];
      PositiveTotalSnoc(t, ws[1..], w);
    }
  }

  lemma PositiveWorklogsSnoc(t: Tables, ws: seq<WorkLog>, w: WorkLog)
    ensures PositiveWorklogs(t, ws + [w])
         == PositiveWorklogs(t, ws) + (if CalculateWorklogAmount(t, w) > 0.0 then [w] else [])
  {
    var p := (x: WorkLog) => CalculateWorklogAmount(t, x) > 0.0;
    FilterConcat(ws, [w], p);
    assert [w][1..] == [];
    assert Filter([w], p) == if p(w) then [w] else [];
  }

  /** The contributions are the worklogs of positive amount, each once and
      in the order of `ws`, so that every property of filtering (counts and
      order) applies to them. */
  lemma {:induction false} ContributionsArePositiveWorklogs(t: Tables, ws: seq<WorkLog>)
    ensures WorklogsOf(Contributions(t, ws)) == PositiveWorklogs(t, ws)
    decreases |ws|
  {
    if ws != [] {
      var init, w := ws[..|ws| - 1], ws[|ws| - 1];
      ContributionsArePositiveWorklogs(t, init);
      assert ws == init + [w];
      PositiveWorklogsSnoc(t, init, w);
      var cs := Contributions(t, init);
      if CalculateWorklogAmount(t, w) > 0.0 {
        var c := Contribution(w, CalculateWorklogAmount(t, w));
        assert (cs + [c])[..|cs + [c]| - 1] == cs;
      }
    }
  }

  /** Each worklog of positive amount is collected as often as it occurs in
      `ws`, every other worklog never, and the collected worklogs keep the
      order of `ws`. */
  lemma ContributionsCount(t: Tables, ws: seq<WorkLog>)
    ensures forall w :: (multiset(WorklogsOf(Contributions(t, ws)))[w] ==
      if CalculateWorklogAmount(t, w) > 0.0 then multiset(ws)[w] else 0)
    ensures IsSubsequence(WorklogsOf(Contributions(t, ws)), ws)
  {
    ContributionsArePositiveWorklogs(t, ws);
    FilterCount(ws, (w: WorkLog) => CalculateWorklogAmount(t, w) > 0.0);
    FilterSubsequence(ws, (w: WorkLog) => CalculateWorklogAmount(t, w) > 0.0);
  }

  /** The total a user is paid is the sum of the positive amounts of the
      worklogs collected. */
  lemma {:induction false} ContributionsTotal(t: Tables, ws: seq<WorkLog>)
    ensures TotalOf(Contributions(t, ws)) == PositiveTotal(t, ws)
    decreases |ws|
  {
    if ws != [] {
      var init, w := ws[..|ws| - 1], ws[|ws| - 1];
      ContributionsTotal(t, init);
      assert ws == init + [w];
      PositiveTotalSnoc(t, init, w);
      var cs := Contributions(t, init);
      if CalculateWorklogAmount(t, w) > 0.0 {
        var c := Contribution(w, CalculateWorklogAmount(t, w));
        assert (cs + [c])[..|cs + [c]| - 1] == cs;
      }
    }
  }

  // ---------------------------------------------------------------------
  // One user

  /** The user's unpaid worklogs are all worth zero or less. */
  ghost predicate Settled(t: Tables, userId: Id)
  {
    forall w :: w in GetUnremittedWorklogs(t, userId) ==> CalculateWorklogAmount(t, w) <= 0.0
  }

  /** The amount of a worklog depends only on segments, tasks and adjustments. */
  lemma AmountFrame(t1: Tables, t2: Tables)
    requires Extends(t1, t2)
    ensures forall w :: CalculateWorklogAmount(t1, w) == CalculateWorklogAmount(t2, w)
  {
  }

  /** The loop body creates a remittance exactly when the user has an unpaid
      worklog of positive amount; otherwise the tables are left alone. */
  lemma RemitUserCreatesIff(t: Tables, user: User)
    ensures RemitUser(t, user).created <= 1
    ensures RemitUser(t, user).created == 0 ==> RemitUser(t, user).tables == t
    ensures RemitUser(t, user).created == 1 <==>
      exists w :: w in GetUnremittedWorklogs(t, user.id) && CalculateWorklogAmount(t, w) > 0.0
  {
    var unremitted := GetUnremittedWorklogs(t, user.id);
    var cs := Contributions(t, unremitted);
    TotalPositive(cs);
    if exists w :: w in unremitted && CalculateWorklogAmount(t, w) > 0.0 {
      var w :| w in unremitted && CalculateWorklogAmount(t, w) > 0.0;
      assert Contribution(w, CalculateWorklogAmount(t, w)) in cs;
    } else if cs != [] {
      assert cs[0] in cs;
    }
  }

  /** `t2` is `t` after the loop body paid `user` the contributions `cs`. */
  ghost predicate PaidStep(t: Tables, user: User, cs: seq<Contribution>, t2: Tables)
  {
    cs == Contributions(t, GetUnremittedWorklogs(t, user.id)) && TotalOf(cs) > 0.0 &&
    t2 == t.(remittances := t.remittances + [Remittance(FreshRemittanceId(t), user.id, TotalOf(cs), Succeeded)],
             links := t.links + LinksFor(FreshRemittanceId(t), cs))
  }

  /** What the loop body appends when it creates a remittance. */
  lemma RemitUserAppends(t: Tables, user: User)
    requires RemitUser(t, user).created == 1
    ensures PaidStep(t, user, Contributions(t, GetUnremittedWorklogs(t, user.id)), RemitUser(t, user).tables)
    ensures Extends(t, RemitUser(t, user).tables)
  {
  }

  /** After the loop body pays a user, that user has no unpaid worklog of
      positive amount. */
  lemma SettledAfterPaidStep(t: Tables, user: User, cs: seq<Contribution>, t2: Tables)
    requires PaidStep(t, user, cs, t2)
    ensures Settled(t2, user.id)
  {
    var id := FreshRemittanceId(t);
    assert Extends(t, t2);
    UnremittedShrinks(t, t2, user.id);
    AmountFrame(t, t2);
    forall w | w in GetUnremittedWorklogs(t2, user.id) ensures CalculateWorklogAmount(t2, w) <= 0.0 {
      if CalculateWorklogAmount(t, w) > 0.0 {
        var c := Contribution(w, CalculateWorklogAmount(t, w));
        assert c in cs;
        var k :| 0 <= k < |cs| && cs[k] == c;
        var l := LinksFor(id, cs)[k];
        assert t2.links[|t.links| + k] == l;
        assert t2.remittances[|t.remittances|] == Remittance(id, user.id, TotalOf(cs), Succeeded);
        assert RemittanceSucceeded(t2.remittances, l.remittanceId);
        assert false;
      }
    }
  }

  /** After the loop body, the user has no unpaid worklog of positive amount. */
  lemma SettledAfterRemitUser(t: Tables, user: User)
    ensures Settled(RemitUser(t, user).tables, user.id)
  {
    RemitUserCreatesIff(t, user);
    if RemitUser(t, user).created == 1 {
      RemitUserAppends(t, user);
      SettledAfterPaidStep(t, user, Contributions(t, GetUnremittedWorklogs(t, user.id)), RemitUser(t, user).tables);
    }
  }

  /** A settled user stays settled when rows are appended. */
  lemma SettledPersists(t1: Tables, t2: Tables, userId: Id)
    requires Extends(t1, t2) && Settled(t1, userId)
    ensures Settled(t2, userId)
  {
    UnremittedShrinks(t1, t2, userId);
    AmountFrame(t1, t2);
  }

  // ---------------------------------------------------------------------
  // The loop invariant

  /** A remittance appended by the run: paid, positive, for a visited user
      whose unpaid work had positive value before the run, and its total is
      the sum of the link rows that point at it. */
  ghost predicate NewRemittanceOk(t0: Tables, users: seq<User>, t: Tables, r: Remittance)
  {
    r.status == Succeeded && r.totalAmount > 0.0 &&
    (exists u :: u in users && u.id == r.userId) &&
    LinkTotal(t.links, r.id) == r.totalAmount &&
    exists w :: w in GetUnremittedWorklogs(t0, r.userId) && CalculateWorklogAmount(t0, w) > 0.0
  }

  /** The remittance at index `k` pays `l`'s worklog, which was unpaid for the
      remittance's user before the run, at that worklog's amount. */
  ghost predicate Justifies(t0: Tables, t: Tables, k: int, l: RemittanceWorkLog)
    requires 0 <= k < |t.remittances|
  {
    t.remittances[k].id == l.remittanceId &&
    exists w :: w in GetUnremittedWorklogs(t0, t.remittances[k].userId) && w.id == l.worklogId &&
      l.amount == CalculateWorklogAmount(t0, w)
  }

  /** A link row appended by the run: positive, and justified by a remittance
      appended by the same run. */
  ghost predicate NewLinkOk(t0: Tables, t: Tables, l: RemittanceWorkLog)
  {
    l.amount > 0.0 &&
    exists k :: |t0.remittances| <= k < |t.remittances| && Justifies(t0, t, k, l)
  }

  ghost predicate RemittancesOk(t0: Tables, users: seq<User>, t: Tables)
    requires Extends(t0, t)
  {
    forall k :: |t0.remittances| <= k < |t.remittances| ==> NewRemittanceOk(t0, users, t, t.remittances[k])
  }

  ghost predicate LinksOk(t0: Tables, t: Tables)
    requires Extends(t0, t)
  {
    forall k :: |t0.links| <= k < |t.links| ==> NewLinkOk(t0, t, t.links[k])
  }

  ghost predicate AllSettled(users: seq<User>, t: Tables)
  {
    forall u :: u in users ==> Settled(t, u.id)
  }

  ghost predicate DistinctUsers(t0: Tables, t: Tables)
    requires Extends(t0, t)
  {
    forall j, k :: |t0.remittances| <= j < k < |t.remittances| ==>
      t.remittances[j].userId != t.remittances[k].userId
  }

  /** The invariant of the per-user loop, after visiting `users`. */
  ghost predicate Inv(t0: Tables, users: seq<User>, t: Tables)
  {
    Extends(t0, t) && RemittancesOk(t0, users, t) && LinksOk(t0, t) &&
    AllSettled(users, t) && DistinctUsers(t0, t)
  }

  lemma OldRemittanceStaysOk(t0: Tables, users: seq<User>, t: Tables, user: User, cs: seq<Contribution>, t2: Tables, r: Remittance)
    requires PaidStep(t, user, cs, t2)
    requires r in t.remittances && NewRemittanceOk(t0, users, t, r)
    ensures NewRemittanceOk(t0, users + [user], t2, r)
  {
    var id := FreshRemittanceId(t);
    LinkTotalConcat(t.links, LinksFor(id, cs), r.id);
    LinkTotalOfLinksFor(id, cs, r.id);
    var u :| u in users && u.id == r.userId;
    assert u in users + [user];
  }

  lemma AddedRemittanceTotal(t: Tables, user: User, cs: seq<Contribution>, t2: Tables)
    requires PaidStep(t, user, cs, t2)
    ensures LinkTotal(t2.links, FreshRemittanceId(t)) == TotalOf(cs)
  {
    var id := FreshRemittanceId(t);
    LinkTotalConcat(t.links, LinksFor(id, cs), id);
    LinkTotalOfLinksFor(id, cs, id);
    LinkTotalAbsent(t.links, id);
  }

  lemma AddedRemittanceHasWork(t0: Tables, t: Tables, user: User, cs: seq<Contribution>)
    requires Extends(t0, t)
    requires cs == Contributions(t, GetUnremittedWorklogs(t, user.id)) && TotalOf(cs) > 0.0
    ensures exists w :: w in GetUnremittedWorklogs(t0, user.id) && CalculateWorklogAmount(t0, w) > 0.0
  {
    TotalPositive(cs);
    assert cs[0] in cs;
    var w := cs[0].worklog;
    UnremittedShrinks(t0, t, user.id);
    AmountFrame(t0, t);
    assert w in GetUnremittedWorklogs(t0, user.id) && CalculateWorklogAmount(t0, w) > 0.0;
  }

  lemma AddedRemittanceIsOk(t0: Tables, users: seq<User>, t: Tables, user: User, cs: seq<Contribution>, t2: Tables)
    requires Extends(t0, t) && PaidStep(t, user, cs, t2)
    ensures NewRemittanceOk(t0, users + [user], t2, t2.remittances[|t.remittances|])
  {
    var id := FreshRemittanceId(t);
    assert t2.remittances[|t.remittances|] == Remittance(id, user.id, TotalOf(cs), Succeeded);
    AddedRemittanceTotal(t, user, cs, t2);
    AddedRemittanceHasWork(t0, t, user, cs);
    assert user in users + [user];
  }

  lemma WidenRemittanceUsers(t0: Tables, users: seq<User>, t: Tables, user: User, r: Remittance)
    requires NewRemittanceOk(t0, users, t, r)
    ensures NewRemittanceOk(t0, users + [user], t, r)
  {
    var u :| u in users && u.id == r.userId;
    assert u in users + [user];
  }

  lemma RemittanceAfterPaidStepOk(t0: Tables, users: seq<User>, t: Tables, user: User, cs: seq<Contribution>, t2: Tables, k: nat)
    requires Extends(t0, t) && RemittancesOk(t0, users, t) && PaidStep(t, user, cs, t2)
    requires |t0.remittances| <= k < |t2.remittances|
    ensures NewRemittanceOk(t0, users + [user], t2, t2.remittances[k])
  {
    if k < |t.remittances| {
      assert t2.remittances[k] == t.remittances[k];
      OldRemittanceStaysOk(t0, users, t, user, cs, t2, t.remittances[k]);
    } else {
      AddedRemittanceIsOk(t0, users, t, user, cs, t2);
    }
  }

  lemma PaidStepRemittances(t0: Tables, users: seq<User>, t: Tables, user: User, cs: seq<Contribution>, t2: Tables)
    requires Extends(t0, t) && Extends(t0, t2) && RemittancesOk(t0, users, t) && PaidStep(t, user, cs, t2)
    ensures RemittancesOk(t0, users + [user], t2)
  {
    forall k | |t0.remittances| <= k < |t2.remittances|
      ensures NewRemittanceOk(t0, users + [user], t2, t2.remittances[k])
    {
      RemittanceAfterPaidStepOk(t0, users, t, user, cs, t2, k);
    }
  }

  lemma StepRemittances(t0: Tables, users: seq<User>, t: Tables, user: User)
    requires Extends(t0, t) && RemittancesOk(t0, users, t)
    ensures Extends(t0, RemitUser(t, user).tables)
    ensures RemittancesOk(t0, users + [user], RemitUser(t, user).tables)
  {
    var t2 := RemitUser(t, user).tables;
    RemitUserCreatesIff(t, user);
    if RemitUser(t, user).created == 1 {
      RemitUserAppends(t, user);
      ExtendsTransitive(t0, t, t2);
      PaidStepRemittances(t0, users, t, user, Contributions(t, GetUnremittedWorklogs(t, user.id)), t2);
    } else {
      forall k | |t0.remittances| <= k < |t2.remittances|
        ensures NewRemittanceOk(t0, users + [user], t2, t2.remittances[k])
      {
        WidenRemittanceUsers(t0, users, t, user, t.remittances[k]);
      }
    }
  }

  lemma OldLinkStaysOk(t0: Tables, t: Tables, t2: Tables, l: RemittanceWorkLog)
    requires Extends(t0, t) && Extends(t, t2) && NewLinkOk(t0, t, l)
    ensures NewLinkOk(t0, t2, l)
  {
    var j :| |t0.remittances| <= j < |t.remittances| && Justifies(t0, t, j, l);
    assert t2.remittances[j] == t.remittances[j];
    assert Justifies(t0, t2, j, l);
  }

  /** A contribution collected for a user in a later snapshot was already an
      unpaid worklog of that user, at the same amount, before the run. */
  lemma ContributionWasUnpaid(t0: Tables, t: Tables, userId: Id, c: Contribution)
    requires Extends(t0, t) && c in Contributions(t, GetUnremittedWorklogs(t, userId))
    ensures c.amount > 0.0 && c.worklog in GetUnremittedWorklogs(t0, userId)
    ensures c.amount == CalculateWorklogAmount(t0, c.worklog)
  {
    UnremittedShrinks(t0, t, userId);
    AmountFrame(t0, t);
  }

  /** Every contribution in `cs` is a positive, unpaid-before-the-run
      worklog of the user, at its amount before the run. */
  ghost predicate BackedBefore(t0: Tables, userId: Id, cs: seq<Contribution>)
  {
    forall i :: 0 <= i < |cs| ==>
      cs[i].amount > 0.0 && cs[i].worklog in GetUnremittedWorklogs(t0, userId) &&
      cs[i].amount == CalculateWorklogAmount(t0, cs[i].worklog)
  }

  lemma ContributionsBackedBefore(t0: Tables, t: Tables, userId: Id)
    requires Extends(t0, t)
    ensures BackedBefore(t0, userId, Contributions(t, GetUnremittedWorklogs(t, userId)))
  {
    var cs := Contributions(t, GetUnremittedWorklogs(t, userId));
    forall i | 0 <= i < |cs|
      ensures cs[i].amount > 0.0 && cs[i].worklog in GetUnremittedWorklogs(t0, userId)
      ensures cs[i].amount == CalculateWorklogAmount(t0, cs[i].worklog)
    {
      assert cs[i] in cs;
      ContributionWasUnpaid(t0, t, userId, cs[i]);
    }
  }

  lemma AddedLinkIsOk(t0: Tables, t2: Tables, j: nat, cs: seq<Contribution>, links: seq<RemittanceWorkLog>, k: nat)
    requires |t0.remittances| <= j < |t2.remittances| && BackedBefore(t0, t2.remittances[j].userId, cs)
    requires t2.links == links + LinksFor(t2.remittances[j].id, cs)
    requires |links| <= k < |t2.links|
    ensures NewLinkOk(t0, t2, t2.links[k])
  {
    var i := k - |links|;
    assert t2.links[k] == LinksFor(t2.remittances[j].id, cs)[i];
    assert Justifies(t0, t2, j, t2.links[k]);
  }

  lemma OldLinkAfterStepOk(t0: Tables, t: Tables, t2: Tables, k: nat)
    requires Extends(t0, t) && Extends(t, t2) && LinksOk(t0, t)
    requires |t0.links| <= k < |t.links|
    ensures NewLinkOk(t0, t2, t2.links[k])
  {
    assert t2.links[k] == t.links[k];
    OldLinkStaysOk(t0, t, t2, t.links[k]);
  }

  lemma PaidStepLinks(t0: Tables, t: Tables, user: User, cs: seq<Contribution>, t2: Tables)
    requires Extends(t0, t) && Extends(t, t2) && Extends(t0, t2) && LinksOk(t0, t) && PaidStep(t, user, cs, t2)
    ensures LinksOk(t0, t2)
  {
    ContributionsBackedBefore(t0, t, user.id);
    var j := |t.remittances|;
    assert t2.remittances[j] == Remittance(FreshRemittanceId(t), user.id, TotalOf(cs), Succeeded);
    forall k | |t0.links| <= k < |t2.links| ensures NewLinkOk(t0, t2, t2.links[k]) {
      if k < |t.links| {
        OldLinkAfterStepOk(t0, t, t2, k);
      } else {
        AddedLinkIsOk(t0, t2, j, cs, t.links, k);
      }
    }
  }

  lemma StepLinks(t0: Tables, users: seq<User>, t: Tables, user: User)
    requires Extends(t0, t) && LinksOk(t0, t)
    ensures Extends(t0, RemitUser(t, user).tables)
    ensures LinksOk(t0, RemitUser(t, user).tables)
  {
    var t2 := RemitUser(t, user).tables;
    RemitUserCreatesIff(t, user);
    if RemitUser(t, user).created == 1 {
      RemitUserAppends(t, user);
      ExtendsTransitive(t0, t, t2);
      PaidStepLinks(t0, t, user, Contributions(t, GetUnremittedWorklogs(t, user.id)), t2);
    }
  }

  lemma StepSettled(users: seq<User>, t: Tables, user: User)
    requires AllSettled(users, t)
    ensures AllSettled(users + [user], RemitUser(t, user).tables)
  {
    var t2 := RemitUser(t, user).tables;
    RemitUserCreatesIff(t, user);
    if RemitUser(t, user).created == 1 {
      RemitUserAppends(t, user);
    }
    SettledAfterRemitUser(t, user);
    forall u | u in users + [user] ensures Settled(t2, u.id) {
      if u in users {
        SettledPersists(t, t2, u.id);
      }
    }
  }

  lemma StepDistinct(t0: Tables, users: seq<User>, t: Tables, user: User)
    requires Extends(t0, t) && RemittancesOk(t0, users, t) && AllSettled(users, t) && DistinctUsers(t0, t)
    ensures Extends(t0, RemitUser(t, user).tables)
    ensures DistinctUsers(t0, RemitUser(t, user).tables)
  {
    var t2 := RemitUser(t, user).tables;
    RemitUserCreatesIff(t, user);
    if RemitUser(t, user).created == 1 {
      RemitUserAppends(t, user);
      ExtendsTransitive(t0, t, t2);
      forall j | |t0.remittances| <= j < |t.remittances| ensures t.remittances[j].userId != user.id {
        assert NewRemittanceOk(t0, users, t, t.remittances[j]);
        var u :| u in users && u.id == t.remittances[j].userId;
        assert Settled(t, u.id);
      }
      assert t2.remittances[|t.remittances|].userId == user.id;
      assert t2.remittances[..|t.remittances|] == t.remittances;
    }
  }

  lemma StepPreservesInv(t0: Tables, users: seq<User>, t: Tables, user: User)
    requires Inv(t0, users, t)
    ensures Inv(t0, users + [user], RemitUser(t, user).tables)
  {
    StepRemittances(t0, users, t, user);
    StepLinks(t0, users, t, user);
    StepSettled(users, t, user);
    StepDistinct(t0, users, t, user);
  }

  lemma {:induction false} RemitUsersInv(t0: Tables, users: seq<User>)
    ensures Inv(t0, users, RemitUsers(t0, users).tables)
    decreases |users|
  {
    if users != [] {
      var init := users[..|users| - 1];
      RemitUsersInv(t0, init);
      StepPreservesInv(t0, init, RemitUsers(t0, init).tables, users[|users| - 1]);
      assert init + [users[|users| - 1]] == users;
    }
  }

  // ---------------------------------------------------------------------
  // One call

  /** Every remittance the call appends is SUCCEEDED, belongs to an active
      user whose unpaid work had positive value before the call, is positive,
      and its total is the sum of the link rows that point at it. */
  lemma GeneratedRemittancesAreSound(t: Tables)
    ensures var t2 := Generate(t).tables;
      forall k :: |t.remittances| <= k < |t2.remittances| ==>
        var r := t2.remittances[k];
        r.status == Succeeded && r.totalAmount > 0.0 && r.totalAmount == LinkTotal(t2.links, r.id) &&
        (exists u :: u in t.users && u.isActive && u.id == r.userId) &&
        (exists w :: w in GetUnremittedWorklogs(t, r.userId) && CalculateWorklogAmount(t, w) > 0.0)
  {
    var users := ActiveUsers(t.users);
    RemitUsersInv(t, users);
    var t2 := Generate(t).tables;
    forall k | |t.remittances| <= k < |t2.remittances|
      ensures exists u :: u in t.users && u.isActive && u.id == t2.remittances[k].userId
    {
      assert NewRemittanceOk(t, users, t2, t2.remittances[k]);
      var u :| u in users && u.id == t2.remittances[k].userId;
    }
  }

  /** Every link row the call appends has a positive amount, points at a
      remittance appended by the same call, and pays a worklog that was
      unpaid for that remittance's user before the call, at exactly that
      worklog's amount. */
  lemma GeneratedLinksAreJustified(t: Tables)
    ensures var t2 := Generate(t).tables;
      forall k :: |t.links| <= k < |t2.links| ==>
        var l := t2.links[k];
        l.amount > 0.0 &&
        exists j :: |t.remittances| <= j < |t2.remittances| && t2.remittances[j].id == l.remittanceId &&
          exists w :: w in GetUnremittedWorklogs(t, t2.remittances[j].userId) && w.id == l.worklogId &&
            l.amount == CalculateWorklogAmount(t, w)
  {
    var users := ActiveUsers(t.users);
    RemitUsersInv(t, users);
    var t2 := Generate(t).tables;
    forall k | |t.links| <= k < |t2.links|
      ensures exists j :: |t.remittances| <= j < |t2.remittances| && Justifies(t, t2, j, t2.links[k])
    {
      assert NewLinkOk(t, t2, t2.links[k]);
    }
  }

  /** No user receives two remittances from one call. */
  lemma GenerateOncePerUser(t: Tables)
    ensures var t2 := Generate(t).tables;
      forall j, k :: |t.remittances| <= j < k < |t2.remittances| ==>
        t2.remittances[j].userId != t2.remittances[k].userId
  {
    RemitUsersInv(t, ActiveUsers(t.users));
  }

  /** After the call no active user has an unpaid worklog of positive amount. */
  lemma GenerateSettlesActiveUsers(t: Tables)
    ensures forall u :: u in t.users && u.isActive ==> Settled(Generate(t).tables, u.id)
  {
    RemitUsersInv(t, ActiveUsers(t.users));
  }

  /** A user with no unpaid worklog of positive amount gets no remittance. */
  lemma GenerateSkipsUsersWithoutEligibleWork(t: Tables, userId: Id)
    requires forall w :: w in GetUnremittedWorklogs(t, userId) ==> CalculateWorklogAmount(t, w) <= 0.0
    ensures var t2 := Generate(t).tables;
      forall k :: |t.remittances| <= k < |t2.remittances| ==> t2.remittances[k].userId != userId
  {
    GeneratedRemittancesAreSound(t);
  }

  /** Users that are all settled are visited without any effect. */
  lemma {:induction false} RemitSettledUsers(t: Tables, users: seq<User>)
    requires forall u :: u in users ==> Settled(t, u.id)
    ensures RemitUsers(t, users) == Generation(t, 0)
    decreases |users|
  {
    if users != [] {
      var init := users[..|users| - 1];
      assert forall u :: u in init ==> u in users;
      RemitSettledUsers(t, init);
      RemitUserCreatesIff(t, users[|users| - 1]);
      assert users[|users| - 1] in users;
    }
  }

  /** An immediate second call, on the tables the first one left, creates
      nothing and changes nothing. */
  lemma GenerateIdempotent(t: Tables)
    ensures Generate(Generate(t).tables) == Generation(Generate(t).tables, 0)
  {
    var t2 := Generate(t).tables;
    GenerateSettlesActiveUsers(t);
    assert t2.users == t.users;
    RemitSettledUsers(t2, ActiveUsers(t2.users));
  }
}
