/** The remittance bookkeeping of the worklog service: what a worklog is
    worth, which worklogs are still unpaid, the batch that pays every active
    user, and the paginated listing of worklogs with their amounts. */
module Service {
  import opened Models
  import opened Seqs

  // ---------------------------------------------------------------------
  // What a worklog is worth

  /** The ACTIVE time segments of one worklog, in table order. */
  function ActiveSegmentsOf(segments: seq<TimeSegment>, worklogId: Id): seq<TimeSegment>
  {
    Filter(segments, (s: TimeSegment) => s.worklogId == worklogId && s.status == Active)
  }

  function SumMinutes(segments: seq<TimeSegment>): int
  {
    if segments == [] then 0 else segments[0].minutes + SumMinutes(segments[1..])
  }

  /** The adjustments of one worklog, in table order. */
  function AdjustmentsOf(adjustments: seq<Adjustment>, worklogId: Id): seq<Adjustment>
  {
    Filter(adjustments, (a: Adjustment) => a.worklogId == worklogId)
  }

  function SumAdjustments(adjustments: seq<Adjustment>): Money
  {
    if adjustments == [] then 0.0 else adjustments[0].amount + SumAdjustments(adjustments[1..])
  }

  /** The task a primary-key lookup finds: the first row with that id, if any. */
  function FindTask(tasks: seq<Task>, id: Id): (r: Option<Task>)
    ensures r.Some? ==> r.value in tasks && r.value.id == id
    ensures r.None? <==> forall task :: task in tasks ==> task.id != id
  {
    if tasks == [] then None
    else if tasks[0].id == id then Some(tasks[0])
    else
      assert forall task :: task in tasks ==> task == tasks[0] || task in tasks[1..];
      FindTask(tasks[1..], id)
  }

  /** The task's hourly rate, or zero when the task does not exist. */
  function HourlyRate(tasks: seq<Task>, taskId: Id): (rate: Money)
    ensures (forall task :: task in tasks ==> task.id != taskId) ==> rate == 0.0
    ensures (exists task :: task in tasks && task.id == taskId) ==>
      exists task :: task in tasks && task.id == taskId && rate == task.hourlyRate
  {
    match FindTask(tasks, taskId)
    case Some(task) => task.hourlyRate
    case None => 0.0
  }

  /** `calculate_worklog_amount`: active minutes / 60 times the hourly rate,
      plus the worklog's adjustments. */
  function CalculateWorklogAmount(t: Tables, w: WorkLog): Money
  {
    var totalMinutes := SumMinutes(ActiveSegmentsOf(t.segments, w.id));
    var rate := HourlyRate(t.tasks, w.taskId);
    (totalMinutes as real / 60.0) * rate + SumAdjustments(AdjustmentsOf(t.adjustments, w.id))
  }

  // ---------------------------------------------------------------------
  // Which worklogs are unpaid

  /** Some remittance with this id has status SUCCEEDED. */
  predicate RemittanceSucceeded(remittances: seq<Remittance>, id: Id)
  {
    exists r :: r in remittances && r.id == id && r.status == Succeeded
  }

  /** The ids of the worklogs linked to a SUCCEEDED remittance (the join of
      link rows with remittances). */
  function RemittedIds(t: Tables): (ids: set<Id>)
    ensures forall id :: id in ids <==>
      exists l :: l in t.links && l.worklogId == id && RemittanceSucceeded(t.remittances, l.remittanceId)
  {
    set l | l in t.links && RemittanceSucceeded(t.remittances, l.remittanceId) :: l.worklogId
  }

  function WorklogsOfUser(worklogs: seq<WorkLog>, userId: Id): seq<WorkLog>
  {
    Filter(worklogs, (w: WorkLog) => w.userId == userId)
  }

  /** The worklogs whose id is in `ids`, in order. */
  function WorklogsIn(worklogs: seq<WorkLog>, ids: set<Id>): seq<WorkLog>
  {
    Filter(worklogs, (w: WorkLog) => w.id in ids)
  }

  /** The worklogs whose id is not in `ids`, in order. */
  function WorklogsNotIn(worklogs: seq<WorkLog>, ids: set<Id>): seq<WorkLog>
  {
    Filter(worklogs, (w: WorkLog) => w.id !in ids)
  }

  /** `get_unremitted_worklogs`: the user's worklogs, in table order, that
      no SUCCEEDED remittance pays for. */
  function GetUnremittedWorklogs(t: Tables, userId: Id): (r: seq<WorkLog>)
    ensures forall w :: w in r <==> w in t.worklogs && w.userId == userId && w.id !in RemittedIds(t)
  {
    var remitted := RemittedIds(t);
    WorklogsNotIn(WorklogsOfUser(t.worklogs, userId), remitted)
  }

  // ---------------------------------------------------------------------
  // Paying every active user

  /** A worklog that will be paid, with the amount it is paid. */
  datatype Contribution = Contribution(worklog: WorkLog, amount: Money)

  /** The worklogs of `ws` whose amount is strictly positive, each with its
      amount, in the order of `ws`. */
  function Contributions(t: Tables, ws: seq<WorkLog>): (cs: seq<Contribution>)
    ensures forall c :: c in cs ==>
      c.worklog in ws && c.amount > 0.0 && c.amount == CalculateWorklogAmount(t, c.worklog)
    ensures forall w :: w in ws && CalculateWorklogAmount(t, w) > 0.0 ==>
      Contribution(w, CalculateWorklogAmount(t, w)) in cs
    decreases |ws|
  {
    if ws == [] then []
    else
      var init := Contributions(t, ws[..|ws| - 1]);
      var w := ws[|ws| - 1];
      var amount := CalculateWorklogAmount(t, w);
      assert forall x :: x in ws ==> x in ws[..|ws| - 1] || x == w;
      if amount > 0.0 then init + [Contribution(w, amount)] else init
  }

  /** The worklogs of `ws` whose amount is strictly positive, in order. */
  function PositiveWorklogs(t: Tables, ws: seq<WorkLog>): seq<WorkLog>
  {
    Filter(ws, (w: WorkLog) => CalculateWorklogAmount(t, w) > 0.0)
  }

  /** The worklogs of the contributions, in order. */
  function WorklogsOf(cs: seq<Contribution>): seq<WorkLog>
  {
    if cs == [] then [] else WorklogsOf(cs[..|cs| - 1]) + [cs[|cs| - 1].worklog]
  }

  function TotalOf(cs: seq<Contribution>): Money
  {
    if cs == [] then 0.0 else TotalOf(cs[..|cs| - 1]) + cs[|cs| - 1].amount
  }

  /** One link row per contribution, all pointing at `remittanceId`. */
  function LinksFor(remittanceId: Id, cs: seq<Contribution>): (ls: seq<RemittanceWorkLog>)
    ensures |ls| == |cs|
    ensures forall k :: 0 <= k < |cs| ==>
      ls[k] == RemittanceWorkLog(remittanceId, cs[k].worklog.id, cs[k].amount)
  {
    if cs == [] then []
    else
      var last := cs[|cs| - 1];
      LinksFor(remittanceId, cs[..|cs| - 1]) + [RemittanceWorkLog(remittanceId, last.worklog.id, last.amount)]
  }

  /** The sum of the amounts of the link rows that point at `remittanceId`. */
  function LinkTotal(links: seq<RemittanceWorkLog>, remittanceId: Id): Money
  {
    if links == [] then 0.0
    else
      var last := links[|links| - 1];
      LinkTotal(links[..|links| - 1], remittanceId) + (if last.remittanceId == remittanceId then last.amount else 0.0)
  }

  /** The tables after (part of) a generation run, with the number of
      remittances the run created. */
  datatype Generation = Generation(tables: Tables, created: nat)

  /** `t2` is `t1` with rows appended to the remittance and link tables only. */
  predicate Extends(t1: Tables, t2: Tables)
  {
    t2.users == t1.users && t2.tasks == t1.tasks && t2.worklogs == t1.worklogs &&
    t2.segments == t1.segments && t2.adjustments == t1.adjustments &&
    |t1.remittances| <= |t2.remittances| && t2.remittances[..|t1.remittances|] == t1.remittances &&
    |t1.links| <= |t2.links| && t2.links[..|t1.links|] == t1.links
  }

  /** Appending twice is appending. */
  lemma ExtendsTransitive(t0: Tables, t1: Tables, t2: Tables)
    requires Extends(t0, t1) && Extends(t1, t2)
    ensures Extends(t0, t2)
  {
    assert t2.remittances[..|t0.remittances|] == t2.remittances[..|t1.remittances|][..|t0.remittances|];
    assert t2.links[..|t0.links|] == t2.links[..|t1.links|][..|t0.links|];
  }

  /** Running the loop over one more user runs the body once more. */
  lemma RemitUsersStep(t: Tables, users: seq<User>, i: nat)
    requires i < |users|
    ensures RemitUsers(t, users[..i + 1])
         == var g := RemitUsers(t, users[..i]);
            var step := RemitUser(g.tables, users[i]);
            Generation(step.tables, g.created + step.created)
  {
    assert users[..i + 1][..i] == users[..i];
  }

  /** One pass of the per-user loop body, against the tables as they stand
      after the users before this one. */
  function RemitUser(t: Tables, user: User): (g: Generation)
    ensures Extends(t, g.tables)
    ensures g.created == |g.tables.remittances| - |t.remittances| <= 1
  {
    var unremitted := GetUnremittedWorklogs(t, user.id);
    if unremitted == [] then Generation(t, 0)
    else
      var cs := Contributions(t, unremitted);
      var total := TotalOf(cs);
      if total <= 0.0 then Generation(t, 0)
      else
        var id := FreshRemittanceId(t);
        Generation(
          t.(remittances := t.remittances + [Remittance(id, user.id, total, Succeeded)],
             links := t.links + LinksFor(id, cs)),
          1)
  }

  /** The per-user loop run over `users` in order. */
  function RemitUsers(t: Tables, users: seq<User>): (g: Generation)
    ensures Extends(t, g.tables)
    ensures g.created == |g.tables.remittances| - |t.remittances|
    decreases |users|
  {
    if users == [] then Generation(t, 0)
    else
      var g := RemitUsers(t, users[..|users| - 1]);
      var step := RemitUser(g.tables, users[|users| - 1]);
      ExtendsTransitive(t, g.tables, step.tables);
      Generation(step.tables, g.created + step.created)
  }

  /** The users the generation run visits: the active ones, in table order. */
  function ActiveUsers(users: seq<User>): (active: seq<User>)
    ensures forall u :: u in active <==> u in users && u.isActive
  {
    Filter(users, (u: User) => u.isActive)
  }

  /** `generate_remittances_for_all_users` as a function of the tables before the call. */
  function Generate(t: Tables): (g: Generation)
    ensures Extends(t, g.tables)
    ensures g.created == |g.tables.remittances| - |t.remittances|
  {
    RemitUsers(t, ActiveUsers(t.users))
  }

  /** The inner loop over a user's unremitted worklogs: keeps those with a
      positive amount and adds those amounts up. */
  method CollectContributions(t: Tables, unremitted: seq<WorkLog>) returns (total: Money, amounts: seq<Contribution>)
    ensures amounts == Contributions(t, unremitted)
    ensures total == TotalOf(amounts)
  {
    total := 0.0;
    amounts := [];
    for j := 0 to |unremitted|
      invariant amounts == Contributions(t, unremitted[..j])
      invariant total == TotalOf(amounts)
    {
      assert unremitted[..j + 1][..j] == unremitted[..j];
      var worklog := unremitted[j];
      var amount := CalculateWorklogAmount(t, worklog);
      if amount > 0.0 {
        total := total + amount;
        amounts := amounts + [Contribution(worklog, amount)];
      }
    }
    assert unremitted[..|unremitted|] == unremitted;
  }

  /** The body of the per-user loop: when the user has unpaid work of
      positive total, one SUCCEEDED remittance and one link row per positive
      worklog are added to the session. */
  method RemitUserInSession(session: Session, user: User) returns (created: nat)
    modifies session
    ensures Generation(session.tables, created) == RemitUser(old(session.tables), user)
  {
    var unremitted := GetUnremittedWorklogs(session.tables, user.id);
    if unremitted == [] {
      return 0;
    }
    var total, amounts := CollectContributions(session.tables, unremitted);
    if total <= 0.0 {
      return 0;
    }
    var remittanceId := session.AddRemittance(user.id, total, Succeeded);
    AddLinks(session, remittanceId, amounts);
    created := 1;
  }

  /** The loop that adds one link row per contribution to the session. */
  method AddLinks(session: Session, remittanceId: Id, amounts: seq<Contribution>)
    modifies session
    ensures session.tables == old(session.tables).(links := old(session.tables).links + LinksFor(remittanceId, amounts))
  {
    ghost var before := session.tables;
    for k := 0 to |amounts|
      invariant session.tables == before.(links := before.links + LinksFor(remittanceId, amounts[..k]))
    {
      assert amounts[..k + 1][..k] == amounts[..k];
      session.AddLink(RemittanceWorkLog(remittanceId, amounts[k].worklog.id, amounts[k].amount));
    }
    assert amounts[..|amounts|] == amounts;
  }

  /** `WorklogService.generate_remittances_for_all_users`: visits the active
      users in order, paying each one's unpaid positive work; returns the
      number of remittances created. */
  method GenerateRemittancesForAllUsers(session: Session) returns (createdCount: nat)
    modifies session
    ensures Generation(session.tables, createdCount) == Generate(old(session.tables))
  {
    ghost var t0 := session.tables;
    var users := ActiveUsers(session.tables.users);
    createdCount := 0;
    for i := 0 to |users|
      invariant Generation(session.tables, createdCount) == RemitUsers(t0, users[..i])
    {
      RemitUsersStep(t0, users, i);
      var created := RemitUserInSession(session, users[i]);
      createdCount := createdCount + created;
    }
    assert users[..|users|] == users;
  }

  // ---------------------------------------------------------------------
  // Listing worklogs

  datatype StatusFilter = AllWorklogs | RemittedOnly | UnremittedOnly
  datatype Label = Remitted | Unremitted
  datatype Row = Row(id: Id, userId: Id, taskId: Id, taskTitle: Option<string>, amount: Money, status: Label)
  /** One page of the listing and the number of matches before paging. */
  datatype Page = Page(data: seq<Row>, count: nat)

  /** Upper-casing of one character, for the characters whose upper case
      is a single ASCII letter: the ASCII lower-case letters, the dotless i
      (upper case `I`) and the long s (upper case `S`). */
  function UpperChar(c: char): char
  {
    if 'a' <= c <= 'z' then (c as int - 32) as char
    else if c == '\U{0131}' then 'I'
    else if c == '\U{017F}' then 'S'
    else c
  }

  function Upper(s: string): (r: string)
    ensures |r| == |s|
    ensures forall i :: 0 <= i < |s| ==> r[i] == UpperChar(s[i])
  {
    seq(|s|, i requires 0 <= i < |s| => UpperChar(s[i]))
  }

  /** How the optional status argument selects worklogs: absent or empty
      selects all of them, otherwise its upper case must name one of the two
      labels; `None` means the argument is rejected. */
  function ParseStatus(status: Option<string>): Option<StatusFilter>
  {
    if status.None? || status.value == "" then Some(AllWorklogs)
    else
      var upper := Upper(status.value);
      if upper == "REMITTED" then Some(RemittedOnly)
      else if upper == "UNREMITTED" then Some(UnremittedOnly)
      else None
  }

  /** The worklogs a filter selects, in table order, before paging. */
  function MatchingWorklogs(t: Tables, f: StatusFilter): (m: seq<WorkLog>)
    ensures forall w :: w in m <==> (w in t.worklogs &&
      (f == RemittedOnly ==> w.id in RemittedIds(t)) && (f == UnremittedOnly ==> w.id !in RemittedIds(t)))
  {
    match f
    case AllWorklogs => t.worklogs
    case RemittedOnly => WorklogsIn(t.worklogs, RemittedIds(t))
    case UnremittedOnly => WorklogsNotIn(t.worklogs, RemittedIds(t))
  }

  /** The slice `s[skip : skip + limit]` for non-negative `skip` and `limit`. */
  function Window<T>(s: seq<T>, skip: nat, limit: nat): (r: seq<T>)
    ensures |r| == if skip >= |s| then 0 else if limit < |s| - skip then limit else |s| - skip
    ensures forall i :: 0 <= i < |r| ==> r[i] == s[skip + i]
  {
    if skip >= |s| then []
    else if skip + limit <= |s| then s[skip..skip + limit]
    else s[skip..]
  }

  /** The link row matches the worklog and joins a SUCCEEDED remittance. */
  predicate PaysFor(t: Tables, l: RemittanceWorkLog, worklogId: Id)
  {
    l.worklogId == worklogId && RemittanceSucceeded(t.remittances, l.remittanceId)
  }

  /** The first link row, in table order, that pays for the worklog. */
  function FirstSucceededLink(t: Tables, worklogId: Id): (r: Option<RemittanceWorkLog>)
    ensures r.Some? ==> exists i :: (0 <= i < |t.links| && t.links[i] == r.value && PaysFor(t, r.value, worklogId) &&
      forall j :: 0 <= j < i ==> !PaysFor(t, t.links[j], worklogId))
    ensures r.None? ==> forall l :: l in t.links ==> !PaysFor(t, l, worklogId)
  {
    FirstLinkFrom(t, worklogId, 0)
  }

  function FirstLinkFrom(t: Tables, worklogId: Id, from: nat): (r: Option<RemittanceWorkLog>)
    requires from <= |t.links|
    requires forall j :: 0 <= j < from ==> !PaysFor(t, t.links[j], worklogId)
    ensures r.Some? ==> exists i :: (from <= i < |t.links| && t.links[i] == r.value && PaysFor(t, r.value, worklogId) &&
      forall j :: 0 <= j < i ==> !PaysFor(t, t.links[j], worklogId))
    ensures r.None? ==> forall l :: l in t.links ==> !PaysFor(t, l, worklogId)
    decreases |t.links| - from
  {
    if from == |t.links| then None
    else if PaysFor(t, t.links[from], worklogId) then Some(t.links[from])
    else FirstLinkFrom(t, worklogId, from + 1)
  }

  /** The listing row of one worklog: its label, and its amount taken from
      the link row when it is paid or computed afresh when it is not. */
  function RowFor(t: Tables, w: WorkLog): Row
  {
    var isRemitted := w.id in RemittedIds(t);
    var amount :=
      if isRemitted then (match FirstSucceededLink(t, w.id) case Some(l) => l.amount case None => 0.0)
      else CalculateWorklogAmount(t, w);
    var task := FindTask(t.tasks, w.taskId);
    Row(w.id, w.userId, w.taskId, if task.Some? then Some(task.value.title) else None,
        amount, if isRemitted then Remitted else Unremitted)
  }

  function RowsFor(t: Tables, ws: seq<WorkLog>): (rows: seq<Row>)
    ensures |rows| == |ws|
    ensures forall i :: 0 <= i < |ws| ==> rows[i] == RowFor(t, ws[i])
  {
    seq(|ws|, i requires 0 <= i < |ws| => RowFor(t, ws[i]))
  }

  /** `list_all_worklogs` as a function of the tables and its arguments. */
  function Listing(t: Tables, status: Option<string> := None, skip: nat := 0, limit: nat := 100): (page: Page)
    ensures |page.data| <= limit && |page.data| <= page.count <= |t.worklogs|
    ensures page.count == 0 ==> page.data == []
  {
    match ParseStatus(status)
    case None => Page([], 0)
    case Some(f) =>
      var matching := MatchingWorklogs(t, f);
      Page(RowsFor(t, Window(matching, skip, limit)), |matching|)
  }

  /** The loop of `list_all_worklogs` that builds one row per worklog on the page. */
  method BuildRows(t: Tables, remitted: set<Id>, window: seq<WorkLog>) returns (result: seq<Row>)
    requires remitted == RemittedIds(t)
    ensures result == RowsFor(t, window)
  {
    result := [];
    for i := 0 to |window|
      invariant |result| == i
      invariant forall k :: 0 <= k < i ==> result[k] == RowFor(t, window[k])
    {
      var worklog := window[i];
      var amount: Money := 0.0;
      var isRemitted := worklog.id in remitted;
      if isRemitted {
        var rwl := FirstSucceededLink(t, worklog.id);
        amount := if rwl.Some? then rwl.value.amount else 0.0;
      } else {
        amount := CalculateWorklogAmount(t, worklog);
      }
      var task := FindTask(t.tasks, worklog.taskId);
      result := result + [Row(worklog.id, worklog.userId, worklog.taskId,
                              if task.Some? then Some(task.value.title) else None,
                              amount, if isRemitted then Remitted else Unremitted)];
    }
  }

  /** `WorklogService.list_all_worklogs`: rejects an unknown status, filters,
      counts, pages, and builds one row per worklog on the page. */
  method ListAllWorklogs(session: Session, status: Option<string> := None, skip: nat := 0, limit: nat := 100) returns (page: Page)
    ensures page == Listing(session.tables, status, skip, limit)
  {
    var t := session.tables;
    var remitted := RemittedIds(t);
    var given := status.Some? && status.value != "";
    if given {
      var upper := Upper(status.value);
      if upper != "REMITTED" && upper != "UNREMITTED" {
        return Page([], 0);
      }
    }
    var matching := t.worklogs;
    if given {
      var upper := Upper(status.value);
      if upper == "REMITTED" {
        if remitted == {} {
          FilterNone(t.worklogs, (w: WorkLog) => w.id in remitted);
          return Page([], 0);
        }
        matching := WorklogsIn(t.worklogs, remitted);
      } else if remitted != {} {
        matching := WorklogsNotIn(t.worklogs, remitted);
      } else {
        FilterAll(t.worklogs, (w: WorkLog) => w.id !in remitted);
      }
    }
    var count := |matching|;
    var window := Window(matching, skip, limit);
    var result := BuildRows(t, remitted, window);
    page := Page(result, count);
  }
}
