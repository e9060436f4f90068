/** The extension directory's CRUD handlers (controllers/extensionController.js) over the
    `Extension` table, keyed by its auto-incremented id. */
module ExtensionController {
  import opened Http
  import opened ExtensionModel

  /** The `error` of a failed request: the store's own message, or a validation error naming
      the not-null columns a request would leave null. */
  datatype ErrorBody = Message(text: string) | NotNullViolation(columns: seq<string>)

  /** What a handler answers. `Entry` carries one row with status 200, or 201 when created. */
  datatype Reply =
    | Listing(entries: seq<Extension>)
    | Entry(code: nat, entry: Extension)
    | Deleted(message: string)
    | Failure(code: nat, error: ErrorBody)

  const NotFoundText := "Extension not found"
  const DeletedText := "Extension deleted successfully"

  /** Every row is stored under its own key. */
  predicate KeyedById(rows: map<int, Extension>)
  {
    forall k :: k in rows ==> rows[k].id == k
  }

  /** The rows with keys below `n`, in ascending key order. */
  function ListBelow(rows: map<int, Extension>, n: nat): (r: seq<Extension>)
    requires KeyedById(rows)
    ensures forall i :: 0 <= i < |r| ==> 0 <= r[i].id < n && r[i].id in rows && rows[r[i].id] == r[i]
    ensures forall k :: 0 <= k < n && k in rows ==> rows[k] in r
    ensures forall i, j :: 0 <= i < j < |r| ==> r[i].id < r[j].id
  {
    if n == 0 then []
    else ListBelow(rows, n - 1) + (if n - 1 in rows then [rows[n - 1]] else [])
  }

  /** The listing below `n` depends only on the rows below `n`. */
  lemma {:induction false} ListBelowLocal(a: map<int, Extension>, b: map<int, Extension>, n: nat)
    requires KeyedById(a) && KeyedById(b)
    requires forall k :: 0 <= k < n ==> (k in a <==> k in b)
    requires forall k :: 0 <= k < n && k in a ==> a[k] == b[k]
    ensures ListBelow(a, n) == ListBelow(b, n)
  {
    if n > 0 {
      ListBelowLocal(a, b, n - 1);
    }
  }

  /** A row inserted under a key above every existing one is listed last, after the old
      listing unchanged. */
  lemma ListingAfterInsert(rows: map<int, Extension>, n: nat, e: Extension)
    requires KeyedById(rows) && e.id == n
    requires forall k :: k in rows ==> k < n
    ensures ListBelow(rows[n := e], n + 1) == ListBelow(rows, n) + [e]
  {
    ListBelowLocal(rows[n := e], rows, n);
  }

  /** The columns a create would leave null: an absent and an explicit `null` field both are. */
  function MissingOnCreate(number: Field, extension: Field): (r: seq<string>)
    ensures r == [] <==> number.Text? && extension.Text?
    ensures "number" in r <==> !number.Text?
    ensures "extension" in r <==> !extension.Text?
  {
    (if number.Text? then [] else ["number"]) + (if extension.Text? then [] else ["extension"])
  }

  /** The columns an update would set to null. An absent field is dropped from the update
      before validation, so only an explicit `null` is. */
  function NulledOnUpdate(number: Field, extension: Field): (r: seq<string>)
    ensures r == [] <==> !number.Null? && !extension.Null?
    ensures "number" in r <==> number.Null?
    ensures "extension" in r <==> extension.Null?
  {
    (if number.Null? then ["number"] else []) + (if extension.Null? then ["extension"] else [])
  }

  /** A row after an update: each given column takes its new value, each absent one keeps its
      old value; the key never changes. */
  function Merge(e: Extension, number: Field, extension: Field): (r: Extension)
    ensures r.id == e.id
    ensures number.Text? ==> r.number == number.text
    ensures !number.Text? ==> r.number == e.number
    ensures extension.Text? ==> r.extension == extension.text
    ensures !extension.Text? ==> r.extension == e.extension
  {
    Extension(e.id,
              if number.Text? then number.text else e.number,
              if extension.Text? then extension.text else e.extension)
  }

  /** Sending the same update twice changes the row no further, and an update with both fields
      left out keeps the row as it is. */
  lemma MergeIdempotent(e: Extension, number: Field, extension: Field)
    ensures Merge(Merge(e, number, extension), number, extension) == Merge(e, number, extension)
    ensures Merge(e, Absent, Absent) == e
  {
  }

  /** The `Extension` table and the next key it will hand out. `fault` arguments stand for the
      store raising an error on its first statement, with that message. */
  class ExtensionTable {
    var rows: map<int, Extension>
    var nextId: nat

    /** Rows are stored under their own positive keys, all below the next key. */
    ghost predicate Valid()
      reads this
    {
      && 0 < nextId
      && KeyedById(rows)
      && forall k :: k in rows ==> 0 < k < nextId
    }

    constructor ()
      ensures Valid() && rows == map[] && nextId == 1
    {
      rows := map[];
      nextId := 1;
    }

    /** `Extension.findAll()`: every row exactly once, in key order. */
    function All(): (r: seq<Extension>)
      reads this
      requires Valid()
      ensures forall e :: e in r <==> e.id in rows && rows[e.id] == e
      ensures forall i, j :: 0 <= i < j < |r| ==> r[i].id < r[j].id
    {
      ListBelow(rows, nextId)
    }

    /** `getAllExtensions`: the whole table, read-only; a store error is a 500. */
    method GetAllExtensions(fault: Option<string>) returns (reply: Reply)
      requires Valid()
      ensures fault.Some? ==> reply == Failure(500, Message(fault.value))
      ensures fault.None? ==> reply.Listing?
      ensures fault.None? ==> forall e :: e in reply.entries <==> e.id in rows && rows[e.id] == e
      ensures fault.None? ==> forall i, j :: 0 <= i < j < |reply.entries| ==> reply.entries[i].id < reply.entries[j].id
    {
      if fault.Some? {
        return Failure(500, Message(fault.value));
      }
      reply := Listing(All());
    }

    /** `getExtensionById`: the row under `id`, or 404 when there is none; a store error is a
        500. The table is not changed. */
    method GetExtensionById(id: int, fault: Option<string>) returns (reply: Reply)
      requires Valid()
      ensures fault.Some? ==> reply == Failure(500, Message(fault.value))
      ensures fault.None? && id in rows ==> reply == Entry(200, rows[id])
      ensures fault.None? && id !in rows ==> reply == Failure(404, Message("Extension not found"))
    {
      if fault.Some? {
        return Failure(500, Message(fault.value));
      }
      if id !in rows {
        return Failure(404, Message(NotFoundText));
      }
      reply := Entry(200, rows[id]);
    }

    /** `createExtension`: with both columns given, add exactly one row under a fresh key and
        answer 201 with it; a validation or store error is a 400 and changes nothing. */
    method CreateExtension(number: Field, extension: Field, fault: Option<string>) returns (reply: Reply)
      requires Valid()
      modifies this
      ensures Valid()
      ensures MissingOnCreate(number, extension) != [] ==>
        reply == Failure(400, NotNullViolation(MissingOnCreate(number, extension)))
        && rows == old(rows) && nextId == old(nextId)
      ensures MissingOnCreate(number, extension) == [] && fault.Some? ==>
        reply == Failure(400, Message(fault.value)) && rows == old(rows) && nextId == old(nextId)
      ensures MissingOnCreate(number, extension) == [] && fault.None? ==>
        var e := Extension(old(nextId), number.text, extension.text);
        && old(nextId) !in old(rows)
        && rows == old(rows)[old(nextId) := e]
        && nextId == old(nextId) + 1
        && reply == Entry(201, e)
        && All() == old(All()) + [e]
    {
      var missing := MissingOnCreate(number, extension);
      if missing != [] {
        return Failure(400, NotNullViolation(missing));
      }
      if fault.Some? {
        return Failure(400, Message(fault.value));
      }
      var e := Extension(nextId, number.text, extension.text);
      ListingAfterInsert(rows, nextId, e);
      rows := rows[nextId := e];
      nextId := nextId + 1;
      reply := Entry(201, e);
    }

    /** `updateExtension`: 404 for a missing key; otherwise set the given columns of that row
        only and answer with it. Store and validation errors are 400s; every failure leaves the
        table unchanged. */
    method UpdateExtension(id: int, number: Field, extension: Field, fault: Option<string>) returns (reply: Reply)
      requires Valid()
      modifies this
      ensures Valid() && nextId == old(nextId)
      ensures fault.Some? ==> reply == Failure(400, Message(fault.value)) && rows == old(rows)
      ensures fault.None? && id !in old(rows) ==>
        reply == Failure(404, Message("Extension not found")) && rows == old(rows)
      ensures fault.None? && id in old(rows) && NulledOnUpdate(number, extension) != [] ==>
        reply == Failure(400, NotNullViolation(NulledOnUpdate(number, extension))) && rows == old(rows)
      ensures fault.None? && id in old(rows) && NulledOnUpdate(number, extension) == [] ==>
        var e := Merge(old(rows)[id], number, extension);
        rows == old(rows)[id := e] && reply == Entry(200, e)
    {
      if fault.Some? {
        return Failure(400, Message(fault.value));
      }
      if id !in rows {
        return Failure(404, Message(NotFoundText));
      }
      var nulled := NulledOnUpdate(number, extension);
      if nulled != [] {
        return Failure(400, NotNullViolation(nulled));
      }
      var e := Merge(rows[id], number, extension);
      rows := rows[id := e];
      reply := Entry(200, e);
    }

    /** `deleteExtension`: 404 for a missing key; otherwise remove exactly that row. A store
        error is a 500; every failure leaves the table unchanged. */
    method DeleteExtension(id: int, fault: Option<string>) returns (reply: Reply)
      requires Valid()
      modifies this
      ensures Valid() && nextId == old(nextId)
      ensures fault.Some? ==> reply == Failure(500, Message(fault.value)) && rows == old(rows)
      ensures fault.None? && id !in old(rows) ==>
        reply == Failure(404, Message("Extension not found")) && rows == old(rows)
      ensures fault.None? && id in old(rows) ==>
        reply == Deleted("Extension deleted successfully") && rows == old(rows) - {id}
    {
      if fault.Some? {
        return Failure(500, Message(fault.value));
      }
      if id !in rows {
        return Failure(404, Message(NotFoundText));
      }
      rows := rows - {id};
      reply := Deleted(DeletedText);
    }
  }
}
