/** What `list_all_worklogs` returns: which status arguments it accepts, how
    the filters split the worklog table, how paging cuts the matches, and
    what each row says. */
module ListingProps {
  import opened Models
  import opened Seqs
  import opened Service

  // ---------------------------------------------------------------------
  // The status argument

  /** `c` is an acceptable spelling of the upper-case ASCII letter `u`:
      the letter itself, its lower case, or a character whose upper case it is. */
  predicate CaselessMatch(c: char, u: char)
  {
    c == u || c as int == u as int + 32 || (u == 'I' && c == '\U{0131}') || (u == 'S' && c == '\U{017F}')
  }

  /** `s` spells `word` (upper-case ASCII letters) up to case. */
  predicate SpellsCaseless(s: string, word: string)
  {
    |s| == |word| && forall i :: 0 <= i < |s| ==> CaselessMatch(s[i], word[i])
  }

  predicate UpperAscii(word: string)
  {
    forall i :: 0 <= i < |word| ==> 'A' <= word[i] <= 'Z'
  }

  lemma UpperCharMatches(c: char, u: char)
    requires 'A' <= u <= 'Z'
    ensures UpperChar(c) == u <==> CaselessMatch(c, u)
  {
  }

  /** Upper-casing yields a word of upper-case ASCII letters exactly when the
      argument spells that word up to case. */
  lemma UpperIsWordIff(s: string, word: string)
    requires UpperAscii(word)
    ensures Upper(s) == word <==> SpellsCaseless(s, word)
  {
    if Upper(s) == word {
      forall i | 0 <= i < |s| ensures CaselessMatch(s[i], word[i]) {
        UpperCharMatches(s[i], word[i]);
      }
    }
    if SpellsCaseless(s, word) {
      forall i | 0 <= i < |s| ensures Upper(s)[i] == word[i] {
        UpperCharMatches(s[i], word[i]);
      }
    }
  }

  /** The status filter selects the paid worklogs exactly when the argument
      is `REMITTED` in any mixture of cases. */
  lemma ParseStatusRemitted(s: string)
    ensures ParseStatus(Some(s)) == Some(RemittedOnly) <==> SpellsCaseless(s, "REMITTED")
  {
    UpperIsWordIff(s, "REMITTED");
    UpperIsWordIff(s, "UNREMITTED");
  }

  /** The status filter selects the unpaid worklogs exactly when the argument
      is `UNREMITTED` in any mixture of cases. */
  lemma ParseStatusUnremitted(s: string)
    ensures ParseStatus(Some(s)) == Some(UnremittedOnly) <==> SpellsCaseless(s, "UNREMITTED")
  {
    UpperIsWordIff(s, "REMITTED");
    UpperIsWordIff(s, "UNREMITTED");
  }

  /** A non-empty argument is rejected exactly when it spells neither word. */
  lemma ParseStatusRejects(s: string)
    requires s != ""
    ensures ParseStatus(Some(s)).None? <==> !SpellsCaseless(s, "REMITTED") && !SpellsCaseless(s, "UNREMITTED")
  {
    UpperIsWordIff(s, "REMITTED");
    UpperIsWordIff(s, "UNREMITTED");
  }

  lemma {:induction false} UpperIdempotent(s: string)
    ensures Upper(Upper(s)) == Upper(s)
  {
    forall i | 0 <= i < |s| ensures Upper(Upper(s))[i] == Upper(s)[i] {
    }
  }

  /** Upper-casing the argument first changes nothing. */
  lemma ParseStatusIgnoresCase(s: string)
    ensures ParseStatus(Some(Upper(s))) == ParseStatus(Some(s))
  {
    UpperIdempotent(s);
  }

  /** Some spellings, accepted and rejected. */
  lemma ParseStatusExamples()
    ensures ParseStatus(None) == Some(AllWorklogs)
    ensures ParseStatus(Some("")) == Some(AllWorklogs)
    ensures ParseStatus(Some("remitted")) == Some(RemittedOnly)
    ensures ParseStatus(Some("UnReMiTtEd")) == Some(UnremittedOnly)
    ensures ParseStatus(Some("remıtted")) == Some(RemittedOnly)
    ensures ParseStatus(Some("paid")) == None
    ensures ParseStatus(Some(" REMITTED")) == None
  {
    assert SpellsCaseless("remitted", "REMITTED");
    ParseStatusRemitted("remitted");
    assert SpellsCaseless("UnReMiTtEd", "UNREMITTED");
    ParseStatusUnremitted("UnReMiTtEd");
    assert SpellsCaseless("remıtted", "REMITTED");
    ParseStatusRemitted("remıtted");
    ParseStatusRejects("paid");
    ParseStatusRejects(" REMITTED");
  }

  // ---------------------------------------------------------------------
  // The page and its count

  /** A rejected status yields an empty page with a zero count, whatever the
      tables and the paging. */
  lemma RejectedStatusIsEmpty(t: Tables, s: string, skip: nat, limit: nat)
    requires s != "" && !SpellsCaseless(s, "REMITTED") && !SpellsCaseless(s, "UNREMITTED")
    ensures Listing(t, Some(s), skip, limit) == Page([], 0)
  {
    ParseStatusRejects(s);
  }

  /** The count is the number of matching worklogs before paging, and the
      page holds the rows of `matching[skip : skip + limit]`. */
  lemma PageShape(t: Tables, status: Option<string>, f: StatusFilter, skip: nat, limit: nat)
    requires ParseStatus(status) == Some(f)
    ensures var page, matching := Listing(t, status, skip, limit), MatchingWorklogs(t, f);
      page.count == |matching| &&
      |page.data| == (if skip >= |matching| then 0 else if limit < |matching| - skip then limit else |matching| - skip) &&
      forall i :: 0 <= i < |page.data| ==> skip + i < |matching| && page.data[i] == RowFor(t, matching[skip + i])
  {
  }

  /** Two consecutive pages together are the page that spans both. */
  lemma PagesTile(t: Tables, status: Option<string>, skip: nat, a: nat, b: nat)
    ensures Listing(t, status, skip, a).data + Listing(t, status, skip + a, b).data
         == Listing(t, status, skip, a + b).data
  {
    match ParseStatus(status)
    case None =>
    case Some(f) =>
      var m := MatchingWorklogs(t, f);
      var p, q, r := RowsFor(t, Window(m, skip, a)), RowsFor(t, Window(m, skip + a, b)), RowsFor(t, Window(m, skip, a + b));
      assert |p + q| == |r|;
      forall i | 0 <= i < |r| ensures (p + q)[i] == r[i] {
        if i < |p| {
          assert (p + q)[i] == p[i];
        } else {
          assert (p + q)[i] == q[i - |p|];
        }
      }
  }

  /** Absent and empty status both list every worklog. */
  lemma NoStatusListsAll(t: Tables, skip: nat, limit: nat)
    ensures Listing(t, None, skip, limit) == Listing(t, Some(""), skip, limit)
    ensures Listing(t, None, skip, limit).count == |t.worklogs|
  {
  }

  /** With every argument left at its default, the listing counts every
      worklog and shows the first hundred of them. */
  lemma DefaultListing(t: Tables)
    ensures Listing(t).count == |t.worklogs|
    ensures |Listing(t).data| == if |t.worklogs| < 100 then |t.worklogs| else 100
    ensures forall i :: 0 <= i < |Listing(t).data| ==> Listing(t).data[i] == RowFor(t, t.worklogs[i])
  {
    PageShape(t, None, AllWorklogs, 0, 100);
  }

  /** The page is empty with a zero count exactly when the argument is
      rejected or nothing matches it. */
  lemma EmptyPageIff(t: Tables, status: Option<string>, skip: nat, limit: nat)
    ensures Listing(t, status, skip, limit) == Page([], 0) <==>
      ParseStatus(status).None? || MatchingWorklogs(t, ParseStatus(status).value) == []
  {
  }

  // ---------------------------------------------------------------------
  // The two filters

  /** The paid and the unpaid worklogs split the worklog table: each worklog
      is in exactly one of them, as often as in the table, and each keeps
      table order. */
  lemma FiltersPartition(t: Tables)
    ensures multiset(MatchingWorklogs(t, RemittedOnly)) + multiset(MatchingWorklogs(t, UnremittedOnly))
         == multiset(t.worklogs)
    ensures |MatchingWorklogs(t, RemittedOnly)| + |MatchingWorklogs(t, UnremittedOnly)| == |t.worklogs|
    ensures IsSubsequence(MatchingWorklogs(t, RemittedOnly), t.worklogs)
    ensures IsSubsequence(MatchingWorklogs(t, UnremittedOnly), t.worklogs)
    ensures forall w :: w in MatchingWorklogs(t, RemittedOnly) <==> w in t.worklogs && w.id in RemittedIds(t)
    ensures forall w :: w in MatchingWorklogs(t, UnremittedOnly) <==> w in t.worklogs && w.id !in RemittedIds(t)
  {
    var ids := RemittedIds(t);
    FilterPartition(t.worklogs, (w: WorkLog) => w.id in ids, (w: WorkLog) => w.id !in ids);
    FilterSubsequence(t.worklogs, (w: WorkLog) => w.id in ids);
    FilterSubsequence(t.worklogs, (w: WorkLog) => w.id !in ids);
  }

  /** The REMITTED and UNREMITTED counts add up to the unfiltered count. */
  lemma CountsAddUp(t: Tables, skip: nat, limit: nat)
    ensures Listing(t, Some("REMITTED"), skip, limit).count + Listing(t, Some("UNREMITTED"), skip, limit).count
         == Listing(t, None, skip, limit).count
  {
    assert ParseStatus(Some("REMITTED")) == Some(RemittedOnly) by {
      assert SpellsCaseless("REMITTED", "REMITTED");
      ParseStatusRemitted("REMITTED");
    }
    assert ParseStatus(Some("UNREMITTED")) == Some(UnremittedOnly) by {
      assert SpellsCaseless("UNREMITTED", "UNREMITTED");
      ParseStatusUnremitted("UNREMITTED");
    }
    FiltersPartition(t);
  }

  // ---------------------------------------------------------------------
  // The rows

  /** A worklog id is paid exactly when some link row pays for it, so the
      lookup of the paying link always finds one for a paid worklog. */
  lemma PaidIffPayingLink(t: Tables, worklogId: Id)
    ensures worklogId in RemittedIds(t) <==> FirstSucceededLink(t, worklogId).Some?
  {
    if worklogId in RemittedIds(t) {
      var l :| l in t.links && RemittanceSucceeded(t.remittances, l.remittanceId) && l.worklogId == worklogId;
      assert PaysFor(t, l, worklogId);
    }
    if FirstSucceededLink(t, worklogId).Some? {
      var l := FirstSucceededLink(t, worklogId).value;
      assert l in t.links;
    }
  }

  /** The row of a worklog: labelled REMITTED exactly when it is paid; a
      paid worklog shows the amount of the first link row that pays for it,
      an unpaid one its amount computed now; the task title when the task
      exists. */
  lemma RowMeaning(t: Tables, w: WorkLog)
    ensures RowFor(t, w).id == w.id && RowFor(t, w).userId == w.userId && RowFor(t, w).taskId == w.taskId
    ensures RowFor(t, w).status == Remitted <==> w.id in RemittedIds(t)
    ensures w.id in RemittedIds(t) ==> exists i :: (0 <= i < |t.links| && PaysFor(t, t.links[i], w.id) &&
      RowFor(t, w).amount == t.links[i].amount && forall j :: 0 <= j < i ==> !PaysFor(t, t.links[j], w.id))
    ensures w.id !in RemittedIds(t) ==> RowFor(t, w).amount == CalculateWorklogAmount(t, w)
    ensures RowFor(t, w).taskTitle.None? <==> forall task :: task in t.tasks ==> task.id != w.taskId
    ensures RowFor(t, w).taskTitle.Some? ==> exists task :: task in t.tasks && task.id == w.taskId && task.title == RowFor(t, w).taskTitle.value
  {
    PaidIffPayingLink(t, w.id);
  }

  /** Under a filter, every row on the page carries that filter's label. */
  lemma FilteredRowsCarryLabel(t: Tables, status: Option<string>, f: StatusFilter, skip: nat, limit: nat)
    requires ParseStatus(status) == Some(f) && f != AllWorklogs
    ensures forall row :: row in Listing(t, status, skip, limit).data ==> (row.status == Remitted <==> f == RemittedOnly)
  {
    var m := MatchingWorklogs(t, f);
    var rows := Listing(t, status, skip, limit).data;
    FiltersPartition(t);
    forall i | 0 <= i < |rows| ensures rows[i].status == Remitted <==> f == RemittedOnly {
      assert rows[i] == RowFor(t, m[skip + i]);
      assert m[skip + i] in m;
    }
  }
}
