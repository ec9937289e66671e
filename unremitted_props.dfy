/** How the set of paid worklogs, and so the unpaid worklogs of a user,
    react to rows being added to the remittance and link tables. */
module UnremittedProps {
  import opened Models
  import opened Seqs
  import opened Service

  /** The unpaid worklogs of a user are exactly the user's unpaid rows of the
      worklog table, each as often as it occurs there, in table order. */
  lemma UnremittedExactly(t: Tables, userId: Id)
    ensures forall w :: (multiset(GetUnremittedWorklogs(t, userId))[w] ==
      if w.userId == userId && w.id !in RemittedIds(t) then multiset(t.worklogs)[w] else 0)
    ensures IsSubsequence(GetUnremittedWorklogs(t, userId), t.worklogs)
  {
    var remitted := RemittedIds(t);
    var all := WorklogsOfUser(t.worklogs, userId);
    FilterCount(t.worklogs, (w: WorkLog) => w.userId == userId);
    FilterCount(all, (w: WorkLog) => w.id !in remitted);
    FilterSubsequence(t.worklogs, (w: WorkLog) => w.userId == userId);
    FilterSubsequence(all, (w: WorkLog) => w.id !in remitted);
    SubsequenceTransitive(WorklogsNotIn(all, remitted), all, t.worklogs);
  }

  /** Appending remittances and links never un-pays a worklog. */
  lemma RemittedIdsGrow(t1: Tables, t2: Tables)
    requires Extends(t1, t2)
    ensures RemittedIds(t1) <= RemittedIds(t2)
  {
    forall id | id in RemittedIds(t1) ensures id in RemittedIds(t2) {
      var l :| l in t1.links && RemittanceSucceeded(t1.remittances, l.remittanceId) && l.worklogId == id;
      var r :| r in t1.remittances && r.id == l.remittanceId && r.status == Succeeded;
      var i :| 0 <= i < |t1.links| && t1.links[i] == l;
      assert t2.links[i] == l;
      var j :| 0 <= j < |t1.remittances| && t1.remittances[j] == r;
      assert t2.remittances[j] == r;
    }
  }

  /** After appending remittances and links, a user's unpaid worklogs are
      among those that were unpaid before. */
  lemma UnremittedShrinks(t1: Tables, t2: Tables, userId: Id)
    requires Extends(t1, t2)
    ensures forall w :: w in GetUnremittedWorklogs(t2, userId) ==> w in GetUnremittedWorklogs(t1, userId)
  {
    RemittedIdsGrow(t1, t2);
  }

  /** A link to a remittance that did not succeed excludes nothing. */
  lemma UnremittedIgnoresUnsucceededLinks(t: Tables, l: RemittanceWorkLog, userId: Id)
    requires !RemittanceSucceeded(t.remittances, l.remittanceId)
    ensures GetUnremittedWorklogs(t.(links := t.links + [l]), userId) == GetUnremittedWorklogs(t, userId)
  {
    var t2 := t.(links := t.links + [l]);
    forall id ensures id in RemittedIds(t2) <==> id in RemittedIds(t) {
      if id in RemittedIds(t2) {
        var m :| m in t2.links && RemittanceSucceeded(t2.remittances, m.remittanceId) && m.worklogId == id;
        assert m in t.links;
      }
      if id in RemittedIds(t) {
        var m :| m in t.links && RemittanceSucceeded(t.remittances, m.remittanceId) && m.worklogId == id;
        assert m in t2.links;
      }
    }
    assert RemittedIds(t2) == RemittedIds(t);
  }

  /** A link to a SUCCEEDED remittance takes its worklog out of every
      user's unpaid worklogs. */
  lemma SucceededLinkExcludes(t: Tables, l: RemittanceWorkLog, userId: Id)
    requires RemittanceSucceeded(t.remittances, l.remittanceId)
    ensures forall w :: w in GetUnremittedWorklogs(t.(links := t.links + [l]), userId) ==> w.id != l.worklogId
  {
    var t2 := t.(links := t.links + [l]);
    assert l in t2.links;
    assert l.worklogId in RemittedIds(t2);
  }
}
