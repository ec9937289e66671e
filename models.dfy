/** The rows of the application's tables, the tables themselves as an
    in-memory snapshot, and the database session that appends to them. */
module Models {

  datatype Option<T> = None | Some(value: T)

  /** Primary keys are abstract: only equality and freshness matter. */
  type Id = nat

  /** Decimal money, modelled exactly (no 28-digit context rounding). */
  type Money = real

  /** Only ACTIVE segments are billed; every other status is treated alike. */
  datatype SegmentStatus = Active | Inactive

  /** Only SUCCEEDED remittances count as paid; every other status is treated alike. */
  datatype RemittanceStatus = Succeeded | NotSucceeded

  datatype User = User(id: Id, isActive: bool)
  datatype Task = Task(id: Id, title: string, hourlyRate: Money)
  datatype WorkLog = WorkLog(id: Id, userId: Id, taskId: Id)
  datatype TimeSegment = TimeSegment(worklogId: Id, minutes: int, status: SegmentStatus)
  datatype Adjustment = Adjustment(worklogId: Id, amount: Money)
  datatype Remittance = Remittance(id: Id, userId: Id, totalAmount: Money, status: RemittanceStatus)
  /** The link row that puts one worklog, with the amount paid for it, into a remittance. */
  datatype RemittanceWorkLog = RemittanceWorkLog(remittanceId: Id, worklogId: Id, amount: Money)

  /** One snapshot of every table the service reads, each in its stored order. */
  datatype Tables = Tables(
    users: seq<User>,
    tasks: seq<Task>,
    worklogs: seq<WorkLog>,
    segments: seq<TimeSegment>,
    adjustments: seq<Adjustment>,
    remittances: seq<Remittance>,
    links: seq<RemittanceWorkLog>)

  /** An id larger than every remittance id in use, whether in the remittance
      table or referenced from a link row. */
  function FreshRemittanceId(t: Tables): (id: Id)
    ensures forall r :: r in t.remittances ==> r.id < id
    ensures forall l :: l in t.links ==> l.remittanceId < id
  {
    var a, b := RemittanceIdBound(t.remittances), LinkIdBound(t.links);
    if a < b then b else a
  }

  function RemittanceIdBound(rs: seq<Remittance>): (b: Id)
    ensures forall r :: r in rs ==> r.id < b
  {
    if rs == [] then 0
    else
      var rest := RemittanceIdBound(rs[1..]);
      assert forall r :: r in rs ==> r == rs[0] || r in rs[1..];
      if rs[0].id < rest then rest else rs[0].id + 1
  }

  function LinkIdBound(ls: seq<RemittanceWorkLog>): (b: Id)
    ensures forall l :: l in ls ==> l.remittanceId < b
  {
    if ls == [] then 0
    else
      var rest := LinkIdBound(ls[1..]);
      assert forall l :: l in ls ==> l == ls[0] || l in ls[1..];
      if ls[0].remittanceId < rest then rest else ls[0].remittanceId + 1
  }

  /** The database session: queries read `tables`; `add` appends a row. */
  class Session {
    var tables: Tables

    constructor (t: Tables)
      ensures tables == t
    {
      tables := t;
    }

    /** `session.add(remittance)` followed by `session.flush()`: the new row
        receives an id no existing row uses, and that id is returned. */
    method AddRemittance(userId: Id, totalAmount: Money, status: RemittanceStatus) returns (id: Id)
      modifies this
      ensures id == FreshRemittanceId(old(tables))
      ensures tables == old(tables).(remittances := old(tables).remittances + [Remittance(id, userId, totalAmount, status)])
    {
      id := FreshRemittanceId(tables);
      tables := tables.(remittances := tables.remittances + [Remittance(id, userId, totalAmount, status)]);
    }

    /** `session.add(link)`: the link row is appended and nothing else changes. */
    method AddLink(link: RemittanceWorkLog)
      modifies this
      ensures tables == old(tables).(links := old(tables).links + [link])
    {
      tables := tables.(links := tables.links + [link]);
    }
  }
}
