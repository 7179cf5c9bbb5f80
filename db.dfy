/**
 * The `contributions` table and the four queries the backend runs on it
 * (src/db.js). The table is a map from the serial `id` to its row; every text
 * column is a `Cell` (`None` is SQL NULL). The PostGIS point is opaque.
 */
module Db {
  import opened Wrappers
  import opened Js

  type Cell = Option<string>

  /** The point `ST_SetSRID(ST_Point(lon, lat), 4326)`, or NULL when either coordinate is NULL. */
  datatype Geom = NoGeom | Point(lon: string, lat: string)

  datatype Row = Row(
    osmid: Cell,
    name: Cell,
    status: Cell,
    openingHours: Cell,
    details: Cell,
    geom: Geom,
    tags: Cell,
    sentToOsm: bool)

  /** The column names of the `contributions` table, as node-postgres names a row's properties. */
  const Columns: set<string> :=
    {"id", "osmid", "name", "status", "opening_hours", "details", "geom", "tags", "sent_to_osm"}

  /** The columns `SELECT id, osmid, status, opening_hours, tags` returns: `details` is not among them. */
  datatype UploadRow = UploadRow(id: int, osmid: Cell, status: Cell, openingHours: Cell, tags: Cell)

  /** The columns of the notes query, with the point split back into `lon` and `lat`. */
  datatype NoteRow = NoteRow(
    id: int, osmid: Cell, name: Cell, status: Cell, openingHours: Cell,
    details: Cell, tags: Cell, lon: Cell, lat: Cell)

  /** The eight positional parameters of `addContribution`, in declaration order. */
  datatype AddArgs = AddArgs(
    osmid: JsValue, name: JsValue, status: JsValue, openingHours: JsValue,
    details: JsValue, lon: JsValue, lat: JsValue, tags: JsValue)

  /** The two pending-selection queries. */
  datatype Query = ForUpload | ForNotes

  /** Both selections stop after this many rows (`LIMIT 100`). */
  const Limit: nat := 100

  function Min(a: nat, b: nat): nat { if a <= b then a else b }

  /** `status IN ('open', 'closed')`; a NULL status is not selected. */
  predicate IsPendingStatus(status: Cell)
  {
    status == Some("open") || status == Some("closed")
  }

  /** The WHERE clause of each selection. */
  predicate Selects(q: Query, r: Row)
  {
    match q
    case ForUpload => !r.sentToOsm && r.details.None? && IsPendingStatus(r.status)
    case ForNotes => !r.sentToOsm && r.details.Some? && IsPendingStatus(r.status)
  }

  /** Every id whose row the query's WHERE clause accepts. */
  function PendingSet(t: map<int, Row>, q: Query): (ids: set<int>)
    ensures forall id :: id in ids <==> id in t && Selects(q, t[id])
  {
    set id | id in t && Selects(q, t[id])
  }

  /** No row is selected by both queries: they disagree on `details IS NULL`. */
  lemma SelectionsDisjoint(t: map<int, Row>)
    ensures PendingSet(t, ForUpload) !! PendingSet(t, ForNotes)
  {
  }

  /**
   * What `LIMIT 100` allows the database to return for a query, as ids:
   * distinct ids of selected rows, as many as there are selected rows up to
   * the limit, in no particular order.
   */
  ghost predicate IsPendingIds(t: map<int, Row>, q: Query, ids: seq<int>)
  {
    && |ids| == Min(Limit, |PendingSet(t, q)|)
    && (forall i :: 0 <= i < |ids| ==> ids[i] in t && Selects(q, t[ids[i]]))
    && (forall i, j :: 0 <= i < j < |ids| ==> ids[i] != ids[j])
  }

  function ToUploadRow(id: int, r: Row): UploadRow
  {
    UploadRow(id, r.osmid, r.status, r.openingHours, r.tags)
  }

  function ToNoteRow(id: int, r: Row): NoteRow
  {
    var lon := if r.geom.Point? then Some(r.geom.lon) else None;
    var lat := if r.geom.Point? then Some(r.geom.lat) else None;
    NoteRow(id, r.osmid, r.name, r.status, r.openingHours, r.details, r.tags, lon, lat)
  }

  /** A possible answer of `getContributionsForUpload` on table `t`. */
  ghost predicate IsUploadSelection(t: map<int, Row>, sel: seq<UploadRow>)
  {
    IsPendingIds(t, ForUpload, seq(|sel|, i requires 0 <= i < |sel| => sel[i].id))
    && forall i :: 0 <= i < |sel| ==> sel[i].id in t && sel[i] == ToUploadRow(sel[i].id, t[sel[i].id])
  }

  /** A possible answer of `getContributionsForNotes` on table `t`. */
  ghost predicate IsNoteSelection(t: map<int, Row>, sel: seq<NoteRow>)
  {
    IsPendingIds(t, ForNotes, seq(|sel|, i requires 0 <= i < |sel| => sel[i].id))
    && forall i :: 0 <= i < |sel| ==> sel[i].id in t && sel[i] == ToNoteRow(sel[i].id, t[sel[i].id])
  }

  /**
   * The normalisation applied to a query result: a missing result, a result
   * without rows and an empty row list all become the empty list.
   */
  function RowsOrEmpty<T>(result: Option<Option<seq<T>>>): (rows: seq<T>)
    ensures rows == [] <==> (result.None? || result.value.None? || result.value.value == [])
    ensures rows != [] ==> rows == result.value.value
  {
    if result.Some? && result.value.Some? && |result.value.value| > 0 then result.value.value else []
  }

  /** The text node-postgres sends for a query parameter; `undefined` and `null` become NULL. */
  function ToCell(v: JsValue): (c: Cell)
    ensures c.None? <==> (v.Undefined? || v.Null?)
    ensures v.Str? ==> c == Some(v.s)
  {
    match v
    case Undefined => None
    case Null => None
    case Bool(b) => Some(if b then "true" else "false")
    case Num(t) => Some(t)
    case Str(s) => Some(s)
    case Composite(_, stored) => Some(stored)
  }

  /**
   * The JavaScript call `addContribution(a0, a1, ...)`: the i-th argument binds
   * to the i-th parameter, missing trailing arguments bind `undefined` and
   * extra ones are dropped.
   */
  function BindAddContribution(args: seq<JsValue>): (a: AddArgs)
    ensures |args| <= 4 ==> a.lon == Undefined && a.lat == Undefined && a.tags == Undefined
    ensures |args| >= 1 ==> a.osmid == args[0]
    ensures |args| >= 2 ==> a.name == args[1]
    ensures |args| >= 3 ==> a.status == args[2]
    ensures |args| >= 4 ==> a.openingHours == args[3]
    ensures |args| <= 4 ==> a.details == Undefined
    ensures forall i :: 0 <= i < 8 ==> Param(a, i) == if i < |args| then args[i] else Undefined
  {
    AddArgs(Arg(args, 0), Arg(args, 1), Arg(args, 2), Arg(args, 3),
            Arg(args, 4), Arg(args, 5), Arg(args, 6), Arg(args, 7))
  }

  /** The value of the i-th parameter (`$i+1`) of the insert. */
  function Param(a: AddArgs, i: nat): JsValue
    requires i < 8
  {
    [a.osmid, a.name, a.status, a.openingHours, a.details, a.lon, a.lat, a.tags][i]
  }

  function Arg(args: seq<JsValue>, i: nat): JsValue
  {
    if i < |args| then args[i] else Undefined
  }

  /**
   * The row `INSERT INTO contributions (...) VALUES ($1, ..., $8)` creates:
   * each parameter lands in the column of the same position, the point is
   * NULL unless both coordinates are given, and `sent_to_osm` takes its
   * default, false.
   */
  function NewRow(a: AddArgs): (r: Row)
    ensures !r.sentToOsm
    ensures r.osmid == ToCell(a.osmid) && r.tags == ToCell(a.tags)
    ensures r.geom.Point? ==> ToCell(a.lon) == Some(r.geom.lon) && ToCell(a.lat) == Some(r.geom.lat)
    ensures r.status == ToCell(a.status) && r.details == ToCell(a.details)
    ensures r.name == ToCell(a.name) && r.openingHours == ToCell(a.openingHours)
    ensures r.geom.Point? <==> ToCell(a.lon).Some? && ToCell(a.lat).Some?
  {
    var lon := ToCell(a.lon);
    var lat := ToCell(a.lat);
    Row(ToCell(a.osmid), ToCell(a.name), ToCell(a.status), ToCell(a.openingHours), ToCell(a.details),
        if lon.Some? && lat.Some? then Point(lon.value, lat.value) else NoGeom,
        ToCell(a.tags), false)
  }

  /** `UPDATE contributions SET sent_to_osm = true WHERE id = ANY(ids)`. */
  function MarkSent(t: map<int, Row>, ids: seq<int>): (t': map<int, Row>)
    ensures t'.Keys == t.Keys
  {
    map id | id in t :: if id in ids then t[id].(sentToOsm := true) else t[id]
  }

  /**
   * The update sets the flag on exactly the listed rows that exist; every
   * other row, and every other column, is left as it was.
   */
  lemma MarkSentExactly(t: map<int, Row>, ids: seq<int>)
    ensures forall id :: id in t ==> (MarkSent(t, ids)[id].sentToOsm <==> t[id].sentToOsm || id in ids)
    ensures forall id :: id in t && id !in ids ==> MarkSent(t, ids)[id] == t[id]
    ensures forall id :: id in t ==> MarkSent(t, ids)[id].(sentToOsm := t[id].sentToOsm) == t[id]
  {
  }

  /** Running the update twice is the same as running it once. */
  lemma MarkSentIdempotent(t: map<int, Row>, ids: seq<int>)
    ensures MarkSent(MarkSent(t, ids), ids) == MarkSent(t, ids)
  {
    var once := MarkSent(t, ids);
    var twice := MarkSent(once, ids);
    assert twice.Keys == once.Keys;
    forall id | id in once
      ensures twice[id] == once[id]
    {
    }
  }

  /** After the update no listed id is pending for either query. */
  lemma MarkSentLeavesPending(t: map<int, Row>, ids: seq<int>, q: Query)
    ensures PendingSet(MarkSent(t, ids), q) == PendingSet(t, q) - (set i | i in ids)
  {
  }

  /** Hence no answer of either selection on the updated table contains a listed id. */
  lemma MarkedNeverSelected(t: map<int, Row>, ids: seq<int>, up: seq<UploadRow>, notes: seq<NoteRow>)
    requires IsUploadSelection(MarkSent(t, ids), up)
    requires IsNoteSelection(MarkSent(t, ids), notes)
    ensures forall i :: 0 <= i < |up| ==> up[i].id !in ids
    ensures forall i :: 0 <= i < |notes| ==> notes[i].id !in ids
  {
    var t' := MarkSent(t, ids);
    forall i | 0 <= i < |up|
      ensures up[i].id !in ids
    {
      var ups := seq(|up|, k requires 0 <= k < |up| => up[k].id);
      assert ups[i] == up[i].id;
    }
    forall i | 0 <= i < |notes|
      ensures notes[i].id !in ids
    {
      var ns := seq(|notes|, k requires 0 <= k < |notes| => notes[k].id);
      assert ns[i] == notes[i].id;
    }
  }

  /**
   * The state of the scan that picks the rows of a selection: `chosen` holds
   * the selected ids already looked at, and `ids` lists them once each.
   */
  ghost predicate Picking(t: map<int, Row>, q: Query, remaining: set<int>, chosen: set<int>, ids: seq<int>)
  {
    && remaining <= t.Keys
    && chosen == PendingSet(t, q) - remaining
    && |chosen| == |ids| <= Limit
    && (forall i :: 0 <= i < |ids| ==> ids[i] in chosen)
    && (forall i, j :: 0 <= i < j < |ids| ==> ids[i] != ids[j])
  }

  /** Looking at one more id keeps the scan's state. */
  lemma PickStep(t: map<int, Row>, q: Query, remaining: set<int>, chosen: set<int>, ids: seq<int>, id: int)
    requires Picking(t, q, remaining, chosen, ids) && |ids| < Limit && id in remaining
    ensures Selects(q, t[id]) ==> Picking(t, q, remaining - {id}, chosen + {id}, ids + [id])
    ensures !Selects(q, t[id]) ==> Picking(t, q, remaining - {id}, chosen, ids)
  {
    if Selects(q, t[id]) {
      assert id !in chosen;
      var ids' := ids + [id];
      assert forall i :: 0 <= i < |ids| ==> ids'[i] == ids[i];
    }
  }

  lemma NonEmptyHasElement(a: set<int>)
    requires a != {}
    ensures exists x :: x in a
  {
    if forall y :: y !in a {
      assert false;
    }
  }

  lemma {:induction false} SubsetCard(a: set<int>, b: set<int>)
    requires a <= b
    ensures |a| <= |b|
    decreases |a|
  {
    if a != {} {
      NonEmptyHasElement(a);
      var x :| x in a;
      SubsetCard(a - {x}, b - {x});
    }
  }

  /** The `contributions` table (src/db.js) with the serial counter behind `id`. */
  class Table {
    var rows: map<int, Row>
    var nextId: int

    ghost predicate Valid()
      reads this
    {
      forall id :: id in rows ==> id < nextId
    }

    constructor ()
      ensures Valid() && rows == map[]
    {
      rows := map[];
      nextId := 1;
    }

    /** `addContribution(...)`: inserts one row under a fresh serial id. */
    method AddContribution(a: AddArgs) returns (id: int)
      requires Valid()
      modifies this
      ensures Valid()
      ensures id !in old(rows) && rows == old(rows)[id := NewRow(a)]
    {
      id := nextId;
      rows := rows[id := NewRow(a)];
      nextId := nextId + 1;
    }

    /**
     * The ids a query's `WHERE ... LIMIT 100` returns. The database may pick
     * any rows that match, in any order; the loop picks them by arbitrary choice.
     */
    method PendingIds(q: Query) returns (ids: seq<int>)
      ensures IsPendingIds(rows, q, ids)
    {
      var t := rows;
      var remaining := t.Keys;
      ids := [];
      ghost var chosen: set<int> := {};
      while remaining != {} && |ids| < Limit
        invariant Picking(t, q, remaining, chosen, ids)
        decreases remaining
      {
        NonEmptyHasElement(remaining);
        var id :| id in remaining;
        PickStep(t, q, remaining, chosen, ids, id);
        remaining := remaining - {id};
        if Selects(q, t[id]) {
          ids := ids + [id];
          chosen := chosen + {id};
        }
      }
      if remaining != {} {
        SubsetCard(chosen, PendingSet(t, q));
      }
      forall i | 0 <= i < |ids|
        ensures ids[i] in t && Selects(q, t[ids[i]])
      {
        assert ids[i] in PendingSet(t, q);
      }
    }

    /** `getContributionsForUpload()`. */
    method GetContributionsForUpload() returns (sel: seq<UploadRow>)
      ensures IsUploadSelection(rows, sel)
    {
      var t := rows;
      var ids := PendingIds(ForUpload);
      var found := seq(|ids|, i requires 0 <= i < |ids| && ids[i] in t => ToUploadRow(ids[i], t[ids[i]]));
      sel := RowsOrEmpty(Some(Some(found)));
      assert seq(|sel|, i requires 0 <= i < |sel| => sel[i].id) == ids;
    }

    /** `getContributionsForNotes()`. */
    method GetContributionsForNotes() returns (sel: seq<NoteRow>)
      ensures IsNoteSelection(rows, sel)
    {
      var t := rows;
      var ids := PendingIds(ForNotes);
      var found := seq(|ids|, i requires 0 <= i < |ids| && ids[i] in t => ToNoteRow(ids[i], t[ids[i]]));
      sel := RowsOrEmpty(Some(Some(found)));
      assert seq(|sel|, i requires 0 <= i < |sel| => sel[i].id) == ids;
    }

    /** `setContributionsSent(ids)`. */
    method SetContributionsSent(ids: seq<int>)
      requires Valid()
      modifies this
      ensures Valid()
      ensures rows == MarkSent(old(rows), ids) && nextId == old(nextId)
    {
      rows := MarkSent(rows, ids);
    }
  }
}
