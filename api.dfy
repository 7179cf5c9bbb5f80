/**
 * The `POST /contribute/:type/:id` route (src/index.js): a chain of guards
 * with early 400 answers, the `osmid` it builds, and the positional call to
 * `addContribution` it makes.
 */
module Api {
  import opened Wrappers
  import opened Js
  import Db

  /** The route parameters (always strings) and the JSON body fields the handler reads. */
  datatype Request = Request(kind: string, id: string, state: JsValue, details: JsValue)

  datatype Response = Response(status: int, body: string)

  /** A request that passed every guard: the `osmid` and the arguments handed to `addContribution`. */
  datatype Accepted = Accepted(osmid: string, args: seq<JsValue>)

  /** An OSM element reference split into its type and its number. */
  datatype OsmRef = OsmRef(kind: string, number: string)

  /** The hours stored with every contribution: the route has no hours check yet. */
  const OpeningHours: string := "24/7"

  predicate IsElementType(kind: string)
  {
    kind == "node" || kind == "way" || kind == "relation"
  }

  /** `/^\d+$/.test(id)`: a non-empty string of ASCII digits. */
  predicate IsDigits(s: string)
  {
    |s| > 0 && forall i :: 0 <= i < |s| ==> '0' <= s[i] <= '9'
  }

  /** `["open", "closed"].includes(state)`: strict equality, so only the two strings pass. */
  predicate IsState(state: JsValue)
  {
    state == Str("open") || state == Str("closed")
  }

  /**
   * The details guard as written: `!(d === null || d === undefined || typeof d)`.
   * `typeof` always yields a non-empty, truthy string.
   */
  predicate DetailsRejected(details: JsValue)
  {
    !(details.Null? || details.Undefined? || Truthy(Str(TypeOf(details))))
  }

  /** The details guard never rejects a request. */
  lemma DetailsNeverRejected(details: JsValue)
    ensures !DetailsRejected(details)
  {
  }

  /**
   * The guard chain of the handler. Guards run in the order type, id,
   * state, details; the first that fails decides the 400 answer.
   */
  function Validate(req: Request): (r: Result<Accepted, Response>)
    ensures r.Success? <==> IsElementType(req.kind) && IsDigits(req.id) && IsState(req.state)
    ensures !IsElementType(req.kind) ==> r == Failure(Response(400, "Invalid type : " + req.kind))
    ensures IsElementType(req.kind) && !IsDigits(req.id) ==> r == Failure(Response(400, "Invalid ID : " + req.id))
    ensures IsElementType(req.kind) && IsDigits(req.id) && !IsState(req.state) ==> r == Failure(Response(400, "Invalid status : " + ToJsString(req.state)))
    ensures r.Success? ==> r.value.osmid == req.kind + "/" + req.id
    ensures r.Success? ==> r.value.args == [Str(r.value.osmid), req.state, Str(OpeningHours), req.details]
  {
    if !IsElementType(req.kind) then
      Failure(Response(400, "Invalid type : " + req.kind))
    else if !IsDigits(req.id) then
      Failure(Response(400, "Invalid ID : " + req.id))
    else
      var osmid := req.kind + "/" + req.id;
      if !IsState(req.state) then
        Failure(Response(400, "Invalid status : " + ToJsString(req.state)))
      else if DetailsRejected(req.details) then
        Failure(Response(400, "Invalid details : " + ToJsString(req.details)))
      else
        Success(Accepted(osmid, [Str(osmid), req.state, Str(OpeningHours), req.details]))
  }

  /**
   * The whole route: the guard chain, then the insert, whose success or
   * failure (`saved`) is decided by the database.
   */
  function Contribute(req: Request, saved: bool): (resp: Response)
    ensures resp.status == 200 <==> Validate(req).Success? && saved
    ensures resp.status == 500 <==> Validate(req).Success? && !saved
    ensures resp.status == 400 <==> Validate(req).Failure?
    ensures resp.status == 200 ==> resp.body == "OK"
    ensures Validate(req).Failure? ==> resp == Validate(req).error
  {
    match Validate(req)
    case Failure(err) => err
    case Success(_) =>
      if saved then Response(200, "OK") else Response(500, "An error happened when saving contribution")
  }

  /** Index of the first `c` in `s`, or `|s|` when there is none. */
  function IndexOf(s: string, c: char): (i: nat)
    ensures i <= |s|
    ensures i < |s| ==> s[i] == c
    ensures forall j :: 0 <= j < i ==> s[j] != c
  {
    if s == [] then 0
    else if s[0] == c then 0
    else 1 + IndexOf(s[1..], c)
  }

  /** Reads an `osmid` of the form `{node|way|relation}/digits` back into its parts. */
  function ParseOsmId(s: string): Option<OsmRef>
  {
    var i := IndexOf(s, '/');
    if i < |s| && IsElementType(s[..i]) && IsDigits(s[i + 1..]) then Some(OsmRef(s[..i], s[i + 1..]))
    else None
  }

  /** Every `osmid` the route builds reads back into the type and id it came from. */
  lemma OsmIdRoundTrip(kind: string, id: string)
    requires IsElementType(kind) && IsDigits(id)
    ensures ParseOsmId(kind + "/" + id) == Some(OsmRef(kind, id))
  {
    var s := kind + "/" + id;
    assert s[|kind|] == '/';
    assert forall j :: 0 <= j < |kind| ==> s[j] == kind[j] != '/';
    var i := IndexOf(s, '/');
    assert i == |kind|;
    assert s[..i] == kind;
    assert s[i + 1..] == id;
  }

  /** Conversely, a string that parses is exactly `type + "/" + id` with valid parts. */
  lemma OsmIdParsed(s: string)
    requires ParseOsmId(s).Some?
    ensures var ref := ParseOsmId(s).value;
      IsElementType(ref.kind) && IsDigits(ref.number) && s == ref.kind + "/" + ref.number
  {
    var i := IndexOf(s, '/');
    assert s == s[..i] + "/" + s[i + 1..];
  }

  /** An accepted request's `osmid` always has the form `{node|way|relation}/[0-9]+`. */
  lemma AcceptedOsmIdForm(req: Request)
    requires Validate(req).Success?
    ensures ParseOsmId(Validate(req).value.osmid) == Some(OsmRef(req.kind, req.id))
  {
    OsmIdRoundTrip(req.kind, req.id);
  }

  /**
   * The four positional arguments bind to the first four of the eight
   * parameters of `addContribution`: the state lands in `name`, the hours in
   * `status`, the details in `opening_hours`, and `details`, `lon`, `lat` and
   * `tags` get `undefined`.
   */
  lemma AcceptedBinding(req: Request)
    requires Validate(req).Success?
    ensures Db.BindAddContribution(Validate(req).value.args)
      == Db.AddArgs(Str(req.kind + "/" + req.id), req.state, Str(OpeningHours), req.details,
                    Undefined, Undefined, Undefined, Undefined)
  {
  }

  /**
   * The row an accepted request inserts has status "24/7", so neither
   * pending selection ever returns it: contributions made through this
   * route are never uploaded and never turned into notes.
   */
  lemma AcceptedRowNeverPending(req: Request, q: Db.Query)
    requires Validate(req).Success?
    ensures var row := Db.NewRow(Db.BindAddContribution(Validate(req).value.args));
      && row.status == Some(OpeningHours)
      && row.name == Some(ToJsString(req.state))
      && row.details == None
      && row.geom == Db.NoGeom
      && !Db.Selects(q, row)
  {
    AcceptedBinding(req);
  }

  /** So once inserted, such a row stays out of every answer of either selection. */
  lemma InsertedRowNeverSelected(t: map<int, Db.Row>, id: int, req: Request, up: seq<Db.UploadRow>, notes: seq<Db.NoteRow>)
    requires Validate(req).Success?
    requires id in t && t[id] == Db.NewRow(Db.BindAddContribution(Validate(req).value.args))
    requires Db.IsUploadSelection(t, up) && Db.IsNoteSelection(t, notes)
    ensures forall i :: 0 <= i < |up| ==> up[i].id != id
    ensures forall i :: 0 <= i < |notes| ==> notes[i].id != id
  {
    AcceptedRowNeverPending(req, Db.ForUpload);
    AcceptedRowNeverPending(req, Db.ForNotes);
    forall i | 0 <= i < |up|
      ensures up[i].id != id
    {
      var ups := seq(|up|, k requires 0 <= k < |up| => up[k].id);
      assert ups[i] == up[i].id;
    }
    forall i | 0 <= i < |notes|
      ensures notes[i].id != id
    {
      var ns := seq(|notes|, k requires 0 <= k < |notes| => notes[k].id);
      assert ns[i] == notes[i].id;
    }
  }
}
