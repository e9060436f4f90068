/** The `Call` table (models/call.js): its columns, which of them may be null,
    and the two statements the controllers run against it, insert and update-where. */
module CallModel {
  import opened Http

  /** A stored row. The four columns declared not-null are plain strings; `extension` and
      `recordingUrl` are nullable. `id`, `createdAt` and `updatedAt` are the columns the ORM
      adds to every table (an auto-incremented key and two timestamps). */
  datatype Call = Call(
    id: nat,
    from: string,
    to: string,
    extension: Option<string>,
    callSid: string,
    status: string,
    recordingUrl: Option<string>,
    createdAt: int,
    updatedAt: int)

  /** The attribute object handed to `Call.create`: any attribute may be missing. */
  datatype Attributes = Attributes(
    from: Option<string>,
    to: Option<string>,
    extension: Option<string>,
    callSid: Option<string>,
    status: Option<string>,
    recordingUrl: Option<string>)

  /** The schema's not-null constraints: `from`, `to`, `callSid` and `status` must be present.
      `callSid` carries no uniqueness constraint. */
  predicate Admissible(a: Attributes)
  {
    a.from.Some? && a.to.Some? && a.callSid.Some? && a.status.Some?
  }

  /** The attributes a stored row carries. */
  function AttributesOf(c: Call): Attributes
  {
    Attributes(Some(c.from), Some(c.to), c.extension, Some(c.callSid), Some(c.status), c.recordingUrl)
  }

  /** Every stored row satisfies the not-null constraints, and `Create` rebuilds it from its
      own attributes: the schema admits exactly the rows the type describes. */
  lemma StoredRowRoundTrip(c: Call)
    ensures Admissible(AttributesOf(c))
    ensures Create(c.id, AttributesOf(c), c.createdAt) == Some(c.(updatedAt := c.createdAt))
  {
  }

  /** `Call.create(a)` with key `id` at time `now`: validation fails exactly when a not-null
      attribute is missing; otherwise the row holds exactly the given attributes. */
  function Create(id: nat, a: Attributes, now: int): (r: Option<Call>)
    ensures r.Some? <==> Admissible(a)
    ensures r.Some? ==> AttributesOf(r.value) == a && r.value.id == id
    ensures r.Some? ==> r.value.createdAt == now && r.value.updatedAt == now
  {
    if Admissible(a) then
      Some(Call(id, a.from.value, a.to.value, a.extension, a.callSid.value, a.status.value, a.recordingUrl, now, now))
    else
      None
  }

  /** The values object of a `Call.update`: `status` is always written, `recordingUrl` only
      when it is given. */
  datatype Patch = Patch(status: string, recordingUrl: Option<string>)

  /** One matched row after an update at time `now`. */
  function Apply(c: Call, p: Patch, now: int): Call
  {
    c.(status := p.status,
       recordingUrl := if p.recordingUrl.Some? then p.recordingUrl else c.recordingUrl,
       updatedAt := now)
  }

  /** `Call.update(p, { where: { callSid: sid } })`: every row whose `callSid` is `sid` gets the
      patch, every other row stays as it was, and the rows keep their order. An update that
      matches no row is not an error. */
  function UpdateWhere(rows: seq<Call>, sid: string, p: Patch, now: int): (r: seq<Call>)
    ensures |r| == |rows|
    ensures forall i :: 0 <= i < |rows| && rows[i].callSid == sid ==> r[i] == Apply(rows[i], p, now)
    ensures forall i :: 0 <= i < |rows| && rows[i].callSid != sid ==> r[i] == rows[i]
  {
    if rows == [] then []
    else [if rows[0].callSid == sid then Apply(rows[0], p, now) else rows[0]] + UpdateWhere(rows[1..], sid, p, now)
  }

  /** An update whose `where` matches nothing leaves the table as it was. */
  lemma UnmatchedUpdateIsNoOp(rows: seq<Call>, sid: string, p: Patch, now: int)
    requires forall i :: 0 <= i < |rows| ==> rows[i].callSid != sid
    ensures UpdateWhere(rows, sid, p, now) == rows
  {
  }
}
