/**
 * One run of `sendDataToOSM` (src/osm.js): fetch the pending contributions,
 * open a changeset, fetch and resubmit each element in turn, close the
 * changeset, mark the edited contributions as sent, and reschedule.
 *
 * The OSM API is a `Gateway` that records every call it receives and answers
 * the n-th call it receives with a fixed answer: for a single run this is as
 * general as any answer the service could give, including a rejected promise
 * (`Threw`). The database's own failures are the parameter `DbFaults`.
 */
module Osm {
  import opened Wrappers
  import opened Js
  import Db

  /** The changeset metadata `createChangeset` is given. */
  const Editor: string := "\U{C7}a reste ouvert (caresteouvert.fr)"
  const Comment: string := "Ajout informations li\U{E9}es aux confinement #covid19 #caresteouvert"

  const NoteKey: string := "note:covid19"
  const HoursKey: string := "opening_hours:covid19"

  /** What an awaited call produced: a value, or a rejection that ends the run. */
  datatype Reply<+T> = Ok(value: T) | Threw

  /**
   * An OSM element as the client library handles it: as fetched (opaque
   * payload), after `setTags`, after `setTimestampToNow`. The library's own
   * transformations are not modelled, only which ones were applied.
   */
  datatype Element = Remote(payload: nat) | Tagged(base: Element, tags: map<string, JsValue>) | Stamped(base: Element)

  /** The calls the OSM API receives. */
  datatype Call =
    | CreateChangeset(editor: string, comment: string)
    | FetchElement(osmid: JsValue)
    | SendElement(element: Element, changeset: JsValue)
    | CloseChangeset(changeset: JsValue)

  /**
   * The answer the API gives to the n-th call it receives, per kind of call.
   * A position the script leaves out is answered with a rejection.
   */
  datatype Answers = Answers(
    changesets: map<nat, Reply<JsValue>>,
    fetches: map<nat, Reply<Option<Element>>>,
    sends: map<nat, Reply<JsValue>>)
  {
    function Changeset(n: nat): Reply<JsValue> { if n in changesets then changesets[n] else Threw }
    function Fetch(n: nat): Reply<Option<Element>> { if n in fetches then fetches[n] else Threw }
    function Send(n: nat): Reply<JsValue> { if n in sends then sends[n] else Threw }
  }

  /** What happened to one contribution whose turn in the loop completed. */
  datatype Verdict =
    | Missing   // fetchElement gave a falsy element: skipped
    | Refused   // sendElement gave a falsy result
    | Updated   // sendElement gave a truthy result: its id is kept

  /** The loop's progress: the API calls made, one verdict per finished contribution, the kept ids. */
  datatype LoopState = LoopState(calls: seq<Call>, verdicts: seq<Verdict>, edited: seq<int>, threw: bool)

  /** How a run ends. */
  datatype Exit =
    | QueryFailed     // the pending query was rejected
    | NothingToSend   // no pending contribution
    | NoChangeset     // createChangeset gave a falsy id
    | Aborted         // an awaited API call was rejected
    | NothingEdited   // no element was updated
    | MarkFailed      // the update of sent_to_osm was rejected
    | MarkedSent      // the edited contributions were marked sent

  /**
   * A run's effects: the API calls, the loop's verdicts and kept ids, the
   * list given to `setContributionsSent` if it was called, the table after.
   */
  datatype CycleOutcome = CycleOutcome(
    exit: Exit, calls: seq<Call>, verdicts: seq<Verdict>, edited: seq<int>,
    marking: Option<seq<int>>, table: map<int, Db.Row>)

  /** Whether the database rejects the pending query and the sent_to_osm update. */
  datatype DbFaults = DbFaults(queryFails: bool, markFails: bool)

  /** The value a text column holds once read into JavaScript. */
  function CellValue(c: Db.Cell): (v: JsValue)
    ensures v.Null? <==> c.None?
    ensures v.Str? ==> c == Some(v.s)
  {
    if c.Some? then Str(c.value) else Null
  }

  /**
   * The property `contrib[key]` of a row returned by the upload query: only
   * the selected columns are present, so `contrib.details` is `undefined`.
   * (The numeric `id` is read as `contrib.id`.)
   */
  function Field(contrib: Db.UploadRow, key: string): (v: JsValue)
    requires key in Db.Columns && key != "id"
    ensures key in {"name", "details", "geom", "sent_to_osm"} ==> v == Undefined
    ensures key == "details" ==> v == Undefined
    ensures key == "opening_hours" ==> v == CellValue(contrib.openingHours)
  {
    if key == "osmid" then CellValue(contrib.osmid)
    else if key == "status" then CellValue(contrib.status)
    else if key == "opening_hours" then CellValue(contrib.openingHours)
    else if key == "tags" then CellValue(contrib.tags)
    else Undefined
  }

  /**
   * The rules the run states for its `tags` map: trimmed non-empty details go
   * to `note:covid19`; an open place gets its hours (or "same") and a closed
   * one "off" under `opening_hours:covid19`. `details` must be a string or
   * falsy, since `.trim()` is called on it.
   */
  function CovidTags(details: JsValue, status: JsValue, openingHours: JsValue): (tags: map<string, JsValue>)
    requires details.Str? || !Truthy(details)
    ensures tags.Keys <= {NoteKey, HoursKey}
    ensures NoteKey in tags <==> details.Str? && |Trim(details.s)| > 0
    ensures NoteKey in tags ==> tags[NoteKey] == Str(Trim(details.s))
    ensures HoursKey in tags <==> status == Str("open") || status == Str("closed")
    ensures status == Str("open") ==> tags[HoursKey] == if Truthy(openingHours) then openingHours else Str("same")
    ensures status == Str("closed") ==> tags[HoursKey] == Str("off")
  {
    var note: map<string, JsValue> :=
      if Truthy(details) && |Trim(details.s)| > 0 then map[NoteKey := Str(Trim(details.s))] else map[];
    if status == Str("open") then note[HoursKey := if Truthy(openingHours) then openingHours else Str("same")]
    else if status == Str("closed") then note[HoursKey := Str("off")]
    else note
  }

  /** The `tags` object the run fills key by key (and then never uses). */
  method BuildCovidTags(details: JsValue, status: JsValue, openingHours: JsValue) returns (tags: map<string, JsValue>)
    requires details.Str? || !Truthy(details)
    ensures tags == CovidTags(details, status, openingHours)
  {
    tags := map[];
    if Truthy(details) {
      var trimmed := Trim(details.s);
      if |trimmed| > 0 {
        tags := tags[NoteKey := Str(trimmed)];
      }
    }
    ghost var note := tags;
    if status == Str("open") {
      tags := tags[HoursKey := if Truthy(openingHours) then openingHours else Str("same")];
    } else if status == Str("closed") {
      tags := tags[HoursKey := Str("off")];
    }
    assert tags == if status == Str("open") then note[HoursKey := if Truthy(openingHours) then openingHours else Str("same")]
      else if status == Str("closed") then note[HoursKey := Str("off")] else note;
  }

  /** The map actually handed to `setTags`: the raw hours column and the (absent) details. */
  function SetTagsArgument(contrib: Db.UploadRow): (arg: map<string, JsValue>)
    ensures arg.Keys == {NoteKey, HoursKey}
    ensures arg[NoteKey] == Undefined
    ensures arg[HoursKey] == CellValue(contrib.openingHours)
  {
    map[HoursKey := Field(contrib, "opening_hours"), NoteKey := Field(contrib, "details")]
  }

  /**
   * The computed tags and the map given to `setTags` never agree on the
   * note, and agree on the hours only when the raw column happens to hold
   * the computed value: a non-empty hours string for an open place, "off"
   * for a closed one.
   */
  lemma TagsDiscarded(contrib: Db.UploadRow)
    requires Db.IsPendingStatus(contrib.status)
    ensures var tags := CovidTags(Field(contrib, "details"), Field(contrib, "status"), Field(contrib, "opening_hours"));
      && NoteKey !in tags
      && SetTagsArgument(contrib)[NoteKey] == Undefined
      && (tags[HoursKey] == SetTagsArgument(contrib)[HoursKey] <==>
           (contrib.status == Some("open") && contrib.openingHours.Some? && contrib.openingHours.value != "")
           || (contrib.status == Some("closed") && contrib.openingHours == Some("off")))
  {
    var status := Field(contrib, "status");
    if contrib.status == Some("open") {
      assert status == Str("open");
    } else {
      assert status == Str("closed");
    }
  }

  /** One turn of the loop for `contrib`, the API's call counter standing at `base + |s.calls|`. */
  function Visit(a: Answers, base: nat, cs: JsValue, s: LoopState, contrib: Db.UploadRow): (r: LoopState)
    ensures r.threw ==> r.verdicts == s.verdicts && r.edited == s.edited
    ensures !r.threw ==> |r.verdicts| == |s.verdicts| + 1
  {
    var p := base + |s.calls|;
    var fetched := s.calls + [FetchElement(Field(contrib, "osmid"))];
    match a.Fetch(p)
    case Threw => LoopState(fetched, s.verdicts, s.edited, true)
    case Ok(None) => LoopState(fetched, s.verdicts + [Missing], s.edited, false)
    case Ok(Some(elem)) =>
      var sent := fetched + [SendElement(Stamped(Tagged(elem, SetTagsArgument(contrib))), cs)];
      match a.Send(p + 1)
      case Threw => LoopState(sent, s.verdicts, s.edited, true)
      case Ok(result) =>
        if Truthy(result) then LoopState(sent, s.verdicts + [Updated], s.edited + [contrib.id], false)
        else LoopState(sent, s.verdicts + [Refused], s.edited, false)
  }

  /** The loop over `contribs` in changeset `cs`; a rejected call stops it. */
  function Loop(a: Answers, base: nat, cs: JsValue, contribs: seq<Db.UploadRow>): (r: LoopState)
    decreases |contribs|
  {
    if contribs == [] then LoopState([], [], [], false)
    else
      var s := Loop(a, base, cs, contribs[..|contribs| - 1]);
      if s.threw then s else Visit(a, base, cs, s, contribs[|contribs| - 1])
  }

  /** The position, among the loop's calls, of the fetch for the k-th contribution. */
  function Offset(v: seq<Verdict>, k: nat): nat
    requires k <= |v|
  {
    if k == 0 then 0 else Offset(v, k - 1) + (if v[k - 1] == Missing then 1 else 2)
  }

  lemma {:induction false} OffsetPrefix(v: seq<Verdict>, w: Verdict, k: nat)
    requires k <= |v|
    ensures Offset(v + [w], k) == Offset(v, k)
  {
    if k > 0 {
      OffsetPrefix(v, w, k - 1);
    }
  }

  /** The ids, in input order, of the contributions whose verdict is `Updated`. */
  function UpdatedIds(contribs: seq<Db.UploadRow>, v: seq<Verdict>): seq<int>
    requires |v| <= |contribs|
  {
    if v == [] then []
    else UpdatedIds(contribs, v[..|v| - 1]) + (if v[|v| - 1] == Updated then [contribs[|v| - 1].id] else [])
  }

  lemma {:induction false} UpdatedIdsPrefix(contribs: seq<Db.UploadRow>, n: nat, v: seq<Verdict>)
    requires |v| <= n <= |contribs|
    ensures UpdatedIds(contribs[..n], v) == UpdatedIds(contribs, v)
  {
    if v != [] {
      UpdatedIdsPrefix(contribs, n, v[..|v| - 1]);
    }
  }

  /** An id is kept exactly when some contribution with that id was `Updated`. */
  lemma {:induction false} UpdatedIdsMembers(contribs: seq<Db.UploadRow>, v: seq<Verdict>)
    requires |v| <= |contribs|
    ensures |UpdatedIds(contribs, v)| <= |v|
    ensures forall id :: id in UpdatedIds(contribs, v) <==> exists k :: 0 <= k < |v| && v[k] == Updated && contribs[k].id == id
  {
    if v != [] {
      var n := |v| - 1;
      UpdatedIdsMembers(contribs, v[..n]);
      forall id | id in UpdatedIds(contribs, v)
        ensures exists k :: 0 <= k < |v| && v[k] == Updated && contribs[k].id == id
      {
        if id in UpdatedIds(contribs, v[..n]) {
          var k :| 0 <= k < n && v[..n][k] == Updated && contribs[k].id == id;
          assert v[k] == Updated;
        } else {
          assert v[n] == Updated && contribs[n].id == id;
        }
      }
      forall id | exists k :: 0 <= k < |v| && v[k] == Updated && contribs[k].id == id
        ensures id in UpdatedIds(contribs, v)
      {
        var k :| 0 <= k < |v| && v[k] == Updated && contribs[k].id == id;
        if k < n {
          assert v[..n][k] == Updated;
        }
      }
    }
  }

  /**
   * The turn of one contribution, starting at the loop's i-th call: it was
   * fetched; a falsy element ends the turn (Missing); otherwise the element,
   * with the raw setTags argument and a fresh timestamp, was sent in the
   * changeset, and the verdict is Updated exactly when the answer was truthy.
   */
  ghost predicate Turn(a: Answers, base: nat, cs: JsValue, calls: seq<Call>, i: nat, contrib: Db.UploadRow, w: Verdict)
  {
    var p := base + i;
    && i < |calls|
    && calls[i] == FetchElement(Field(contrib, "osmid"))
    && a.Fetch(p).Ok?
    && (w == Missing <==> a.Fetch(p).value.None?)
    && (w != Missing ==>
         && i + 1 < |calls|
         && calls[i + 1] == SendElement(Stamped(Tagged(a.Fetch(p).value.value, SetTagsArgument(contrib))), cs)
         && a.Send(p + 1).Ok?
         && (w == Updated <==> Truthy(a.Send(p + 1).value)))
  }

  /** The k-th contribution's turn, starting where the turns before it end. */
  ghost predicate TurnAt(a: Answers, base: nat, cs: JsValue, calls: seq<Call>, contribs: seq<Db.UploadRow>, v: seq<Verdict>, k: nat)
  {
    k < |v| <= |contribs| && Turn(a, base, cs, calls, Offset(v, k), contribs[k], v[k])
  }

  /**
   * The k-th contribution's turn within a whole run, whose first call
   * (the changeset creation) is the API's `base`-th.
   */
  ghost predicate RunTurnAt(a: Answers, base: nat, calls: seq<Call>, contribs: seq<Db.UploadRow>, v: seq<Verdict>, k: nat)
  {
    |calls| > 0 && TurnAt(a, base + 1, ChangesetOf(a, base), calls[1..], contribs, v, k)
  }

  /** Calls made inside the loop: element fetches and sends only. */
  ghost predicate OnlyFetchesAndSends(calls: seq<Call>)
  {
    forall i :: 0 <= i < |calls| ==> calls[i].FetchElement? || calls[i].SendElement?
  }

  /** The last call of `calls`, the loop's i-th call being the API's (base + i)-th, was rejected. */
  ghost predicate LastRejected(a: Answers, base: nat, calls: seq<Call>)
  {
    && |calls| > 0
    && var i := |calls| - 1;
    || (calls[i].FetchElement? && a.Fetch(base + i).Threw?)
    || (calls[i].SendElement? && a.Send(base + i).Threw?)
  }

  /** The effect of one turn on the loop's state. */
  lemma VisitEffect(a: Answers, base: nat, cs: JsValue, s0: LoopState, contrib: Db.UploadRow)
    requires !s0.threw
    ensures var s := Visit(a, base, cs, s0, contrib);
      var n := |s0.calls|;
      && n < |s.calls| <= n + 2
      && s.calls[..n] == s0.calls
      && (forall i :: n <= i < |s.calls| ==> s.calls[i].FetchElement? || s.calls[i].SendElement?)
      && (s.threw ==> s.verdicts == s0.verdicts && s.edited == s0.edited && LastRejected(a, base, s.calls))
      && (!s.threw ==>
           var w := s.verdicts[|s0.verdicts|];
           && s.verdicts == s0.verdicts + [w]
           && |s.calls| == n + (if w == Missing then 1 else 2)
           && Turn(a, base, cs, s.calls, n, contrib, w)
           && s.edited == s0.edited + (if w == Updated then [contrib.id] else []))
  {
  }

  /** A turn stays visible in any extension of the call list. */
  lemma TurnExtends(a: Answers, base: nat, cs: JsValue, calls: seq<Call>, calls': seq<Call>, i: nat, contrib: Db.UploadRow, w: Verdict)
    requires |calls| <= |calls'| && calls'[..|calls|] == calls
    requires Turn(a, base, cs, calls, i, contrib, w)
    ensures Turn(a, base, cs, calls', i, contrib, w)
  {
    assert calls'[i] == calls[i];
    if w != Missing {
      assert calls'[i + 1] == calls[i + 1];
    }
  }

  /**
   * The loop makes one fetch, and for a fetched element one send, per
   * contribution it visits; when it stops early, its last call is the
   * rejected one.
   */
  lemma {:induction false} LoopShape(a: Answers, base: nat, cs: JsValue, contribs: seq<Db.UploadRow>)
    ensures var s := Loop(a, base, cs, contribs);
      && |s.verdicts| <= |contribs|
      && (!s.threw ==> |s.verdicts| == |contribs| && |s.calls| == Offset(s.verdicts, |s.verdicts|))
      && (s.threw ==> |s.verdicts| < |contribs| && |s.calls| > Offset(s.verdicts, |s.verdicts|) && LastRejected(a, base, s.calls))
    decreases |contribs|
  {
    if contribs != [] {
      var n := |contribs| - 1;
      LoopShape(a, base, cs, contribs[..n]);
      var s0 := Loop(a, base, cs, contribs[..n]);
      if !s0.threw {
        VisitEffect(a, base, cs, s0, contribs[n]);
        var s := Visit(a, base, cs, s0, contribs[n]);
        assert Loop(a, base, cs, contribs) == s;
        if !s.threw {
          OffsetPrefix(s0.verdicts, s.verdicts[n], n);
        }
      } else {
        assert Loop(a, base, cs, contribs) == s0;
      }
    }
  }

  /** The loop itself makes only fetches and sends. */
  lemma {:induction false} LoopCallKinds(a: Answers, base: nat, cs: JsValue, contribs: seq<Db.UploadRow>)
    ensures OnlyFetchesAndSends(Loop(a, base, cs, contribs).calls)
    decreases |contribs|
  {
    if contribs != [] {
      var n := |contribs| - 1;
      LoopCallKinds(a, base, cs, contribs[..n]);
      var s0 := Loop(a, base, cs, contribs[..n]);
      if !s0.threw {
        VisitEffect(a, base, cs, s0, contribs[n]);
        var s := Visit(a, base, cs, s0, contribs[n]);
        assert Loop(a, base, cs, contribs) == s;
        forall i | 0 <= i < |s.calls|
          ensures s.calls[i].FetchElement? || s.calls[i].SendElement?
        {
          if i < |s0.calls| {
            assert s.calls[i] == s.calls[..|s0.calls|][i] == s0.calls[i];
          }
        }
      } else {
        assert Loop(a, base, cs, contribs) == s0;
      }
    }
  }

  /** The kept ids are exactly those of the `Updated` contributions, in input order. */
  lemma {:induction false} LoopEdited(a: Answers, base: nat, cs: JsValue, contribs: seq<Db.UploadRow>)
    ensures var s := Loop(a, base, cs, contribs);
      |s.verdicts| <= |contribs| && s.edited == UpdatedIds(contribs, s.verdicts)
    decreases |contribs|
  {
    LoopShape(a, base, cs, contribs);
    if contribs != [] {
      var n := |contribs| - 1;
      LoopEdited(a, base, cs, contribs[..n]);
      LoopShape(a, base, cs, contribs[..n]);
      var s0 := Loop(a, base, cs, contribs[..n]);
      UpdatedIdsPrefix(contribs, n, s0.verdicts);
      if !s0.threw {
        VisitEffect(a, base, cs, s0, contribs[n]);
        var s := Loop(a, base, cs, contribs);
        if !s.threw {
          assert s.verdicts[..n] == s0.verdicts;
        }
      }
    }
  }

  /** Appending one turn (or none) to the call list keeps every recorded turn. */
  lemma TurnsAppend(a: Answers, base: nat, cs: JsValue, contribs: seq<Db.UploadRow>,
                    calls0: seq<Call>, v0: seq<Verdict>, calls: seq<Call>, extra: seq<Verdict>)
    requires |v0| < |contribs| && |extra| <= 1
    requires |calls0| <= |calls| && calls[..|calls0|] == calls0
    requires |calls0| == Offset(v0, |v0|)
    requires extra != [] ==> Turn(a, base, cs, calls, |calls0|, contribs[|v0|], extra[0])
    requires forall k :: 0 <= k < |v0| ==> TurnAt(a, base, cs, calls0, contribs, v0, k)
    ensures forall k :: 0 <= k < |v0 + extra| ==> TurnAt(a, base, cs, calls, contribs, v0 + extra, k)
  {
    var v := v0 + extra;
    forall k | 0 <= k < |v|
      ensures TurnAt(a, base, cs, calls, contribs, v, k)
    {
      if k < |v0| {
        assert TurnAt(a, base, cs, calls0, contribs, v0, k);
        if extra != [] {
          assert v == v0 + [extra[0]];
          OffsetPrefix(v0, extra[0], k);
        } else {
          assert v == v0;
        }
        assert Offset(v, k) == Offset(v0, k) && v[k] == v0[k];
        TurnExtends(a, base, cs, calls0, calls, Offset(v0, k), contribs[k], v0[k]);
      } else {
        assert v == v0 + [extra[0]];
        OffsetPrefix(v0, extra[0], k);
        assert Offset(v, k) == |calls0| && v[k] == extra[0];
      }
    }
  }

  /** Every verdict matches the API's answers to that contribution's fetch and send. */
  lemma {:induction false} LoopTurns(a: Answers, base: nat, cs: JsValue, contribs: seq<Db.UploadRow>)
    ensures var s := Loop(a, base, cs, contribs);
      forall k :: 0 <= k < |s.verdicts| ==> TurnAt(a, base, cs, s.calls, contribs, s.verdicts, k)
    decreases |contribs|
  {
    LoopShape(a, base, cs, contribs);
    if contribs != [] {
      var n := |contribs| - 1;
      var init := contribs[..n];
      LoopTurns(a, base, cs, init);
      LoopShape(a, base, cs, init);
      var s0 := Loop(a, base, cs, init);
      if !s0.threw {
        LoopTurnsStep(a, base, cs, contribs, init, s0);
        LoopUnfold(a, base, cs, contribs, s0);
      } else {
        assert Loop(a, base, cs, contribs) == s0;
        forall k | 0 <= k < |s0.verdicts|
          ensures TurnAt(a, base, cs, s0.calls, contribs, s0.verdicts, k)
        {
          assert TurnAt(a, base, cs, s0.calls, init, s0.verdicts, k);
          assert init[k] == contribs[k];
        }
      }
    }
  }

  lemma LoopTurnsStep(a: Answers, base: nat, cs: JsValue, contribs: seq<Db.UploadRow>, init: seq<Db.UploadRow>, s0: LoopState)
    requires contribs != [] && init == contribs[..|contribs| - 1] && !s0.threw
    requires s0 == Loop(a, base, cs, init)
    requires |s0.verdicts| == |init| && |s0.calls| == Offset(s0.verdicts, |s0.verdicts|)
    requires forall k :: 0 <= k < |s0.verdicts| ==> TurnAt(a, base, cs, s0.calls, init, s0.verdicts, k)
    ensures var s := Visit(a, base, cs, s0, contribs[|contribs| - 1]);
      forall k :: 0 <= k < |s.verdicts| ==> TurnAt(a, base, cs, s.calls, contribs, s.verdicts, k)
  {
    TurnsOfPrefix(a, base, cs, s0.calls, contribs, init, s0.verdicts);
    VisitTurns(a, base, cs, contribs, s0);
  }

  /** The loop over a non-empty list is one more turn after the loop over its prefix. */
  lemma LoopUnfold(a: Answers, base: nat, cs: JsValue, contribs: seq<Db.UploadRow>, s0: LoopState)
    requires contribs != [] && s0 == Loop(a, base, cs, contribs[..|contribs| - 1]) && !s0.threw
    ensures Loop(a, base, cs, contribs) == Visit(a, base, cs, s0, contribs[|contribs| - 1])
  {
  }

  /** Turns recorded against a prefix of the contributions hold against the whole list. */
  lemma TurnsOfPrefix(a: Answers, base: nat, cs: JsValue, calls: seq<Call>, contribs: seq<Db.UploadRow>, init: seq<Db.UploadRow>, v: seq<Verdict>)
    requires |init| <= |contribs| && init == contribs[..|init|]
    requires forall k :: 0 <= k < |v| ==> TurnAt(a, base, cs, calls, init, v, k)
    ensures forall k :: 0 <= k < |v| ==> TurnAt(a, base, cs, calls, contribs, v, k)
  {
    forall k | 0 <= k < |v|
      ensures TurnAt(a, base, cs, calls, contribs, v, k)
    {
      assert TurnAt(a, base, cs, calls, init, v, k);
      assert init[k] == contribs[k];
    }
  }

  /** The turn of the last contribution extends the turns of those before it. */
  lemma VisitTurns(a: Answers, base: nat, cs: JsValue, contribs: seq<Db.UploadRow>, s0: LoopState)
    requires contribs != [] && !s0.threw
    requires |s0.verdicts| == |contribs| - 1 && |s0.calls| == Offset(s0.verdicts, |s0.verdicts|)
    requires forall k :: 0 <= k < |s0.verdicts| ==> TurnAt(a, base, cs, s0.calls, contribs, s0.verdicts, k)
    ensures var s := Visit(a, base, cs, s0, contribs[|contribs| - 1]);
      forall k :: 0 <= k < |s.verdicts| ==> TurnAt(a, base, cs, s.calls, contribs, s.verdicts, k)
  {
    var n := |contribs| - 1;
    var s := Visit(a, base, cs, s0, contribs[n]);
    VisitEffect(a, base, cs, s0, contribs[n]);
    var extra := s.verdicts[n..];
    assert s.verdicts == s0.verdicts + extra;
    TurnsAppend(a, base, cs, contribs, s0.calls, s0.verdicts, s.calls, extra);
  }

  /** Once a call is rejected, the rest of the contributions are never visited. */
  lemma {:induction false} LoopThrewStays(a: Answers, base: nat, cs: JsValue, contribs: seq<Db.UploadRow>, j: nat)
    requires j <= |contribs|
    requires Loop(a, base, cs, contribs[..j]).threw
    ensures Loop(a, base, cs, contribs) == Loop(a, base, cs, contribs[..j])
    decreases |contribs|
  {
    if j < |contribs| {
      var init := contribs[..|contribs| - 1];
      assert init[..j] == contribs[..j];
      LoopThrewStays(a, base, cs, init, j);
    } else {
      assert contribs[..j] == contribs;
    }
  }

  /** A whole run of `sendDataToOSM` on table `t`, the API having received `base` calls before it. */
  function Cycle(t: map<int, Db.Row>, base: nat, a: Answers, query: Reply<seq<Db.UploadRow>>, markFails: bool): (r: CycleOutcome)
    ensures r.exit == QueryFailed <==> query.Threw?
    ensures r.exit == NothingToSend <==> query == Ok([])
    ensures r.exit == MarkedSent ==> !markFails && r.edited != []
    ensures r.marking.Some? ==> r.marking.value == r.edited
    ensures r.table == (if r.exit == MarkedSent then Db.MarkSent(t, r.edited) else t)
  {
    match query
    case Threw => CycleOutcome(QueryFailed, [], [], [], None, t)
    case Ok(contribs) =>
      if |contribs| == 0 then CycleOutcome(NothingToSend, [], [], [], None, t)
      else
        var start := [CreateChangeset(Editor, Comment)];
        match a.Changeset(base)
        case Threw => CycleOutcome(Aborted, start, [], [], None, t)
        case Ok(cs) =>
          if !Truthy(cs) then CycleOutcome(NoChangeset, start, [], [], None, t)
          else
            var s := Loop(a, base + 1, cs, contribs);
            if s.threw then CycleOutcome(Aborted, start + s.calls, s.verdicts, s.edited, None, t)
            else
              var calls := start + s.calls + [CloseChangeset(cs)];
              if |s.edited| == 0 then CycleOutcome(NothingEdited, calls, s.verdicts, s.edited, None, t)
              else if markFails then CycleOutcome(MarkFailed, calls, s.verdicts, s.edited, Some(s.edited), t)
              else CycleOutcome(MarkedSent, calls, s.verdicts, s.edited, Some(s.edited), Db.MarkSent(t, s.edited))
  }

  /** The runs that went through the whole loop and closed their changeset. */
  predicate Completed(e: Exit)
  {
    e == NothingEdited || e == MarkFailed || e == MarkedSent
  }

  /** The changeset id a run would use, `Undefined` when none was created. */
  function ChangesetOf(a: Answers, base: nat): JsValue
  {
    if a.Changeset(base).Ok? then a.Changeset(base).value else Undefined
  }

  /**
   * The calls of a run: nothing unless there is something to send; then the
   * changeset is created first and only once, and it is closed, as the very
   * last call, exactly when the run went through every contribution.
   */
  lemma CycleCalls(t: map<int, Db.Row>, base: nat, a: Answers, query: Reply<seq<Db.UploadRow>>, markFails: bool)
    ensures var o := Cycle(t, base, a, query, markFails);
      && (o.calls == [] <==> o.exit == QueryFailed || o.exit == NothingToSend)
      && (o.exit == QueryFailed <==> query.Threw?)
      && (o.exit == NothingToSend <==> query == Ok([]))
      && (o.calls != [] ==> o.calls[0] == CreateChangeset(Editor, Comment))
      && (forall i :: 1 <= i < |o.calls| ==> !o.calls[i].CreateChangeset?)
      && (forall i :: 0 <= i < |o.calls| - 1 ==> !o.calls[i].CloseChangeset?)
      && (o.calls != [] && o.calls[|o.calls| - 1].CloseChangeset? <==> Completed(o.exit))
      && (Completed(o.exit) ==> o.calls[|o.calls| - 1] == CloseChangeset(ChangesetOf(a, base)) && Truthy(ChangesetOf(a, base)))
      && (Completed(o.exit) ==> |o.verdicts| == |query.value|)
  {
    if query.Ok? && |query.value| > 0 && a.Changeset(base).Ok? && Truthy(a.Changeset(base).value) {
      var cs := a.Changeset(base).value;
      var s := Loop(a, base + 1, cs, query.value);
      LoopShape(a, base + 1, cs, query.value);
      LoopCallKinds(a, base + 1, cs, query.value);
      CycleOpened(t, base, a, query.value, markFails);
      FramedCalls(s.calls, cs, s.threw, Cycle(t, base, a, query, markFails).calls);
    }
  }

  /** The loop's calls framed by the changeset creation and, unless it stopped, the close. */
  lemma FramedCalls(inner: seq<Call>, cs: JsValue, threw: bool, calls: seq<Call>)
    requires OnlyFetchesAndSends(inner)
    requires calls == [CreateChangeset(Editor, Comment)] + inner + (if threw then [] else [CloseChangeset(cs)])
    ensures calls[0] == CreateChangeset(Editor, Comment)
    ensures forall i :: 1 <= i < |calls| ==> !calls[i].CreateChangeset?
    ensures forall i :: 0 <= i < |calls| - 1 ==> !calls[i].CloseChangeset?
    ensures calls[|calls| - 1].CloseChangeset? <==> !threw
    ensures !threw ==> calls[|calls| - 1] == CloseChangeset(cs)
  {
    forall i | 1 <= i < |calls| - (if threw then 0 else 1)
      ensures calls[i].FetchElement? || calls[i].SendElement?
    {
      assert calls[i] == inner[i - 1];
    }
  }

  /** A run whose changeset opened is the loop's calls between the creation and, on a full pass, the close. */
  lemma CycleOpened(t: map<int, Db.Row>, base: nat, a: Answers, contribs: seq<Db.UploadRow>, markFails: bool)
    requires |contribs| > 0 && a.Changeset(base).Ok? && Truthy(a.Changeset(base).value)
    ensures var cs := a.Changeset(base).value;
      var s := Loop(a, base + 1, cs, contribs);
      var o := Cycle(t, base, a, Ok(contribs), markFails);
      && o.calls == [CreateChangeset(Editor, Comment)] + s.calls + (if s.threw then [] else [CloseChangeset(cs)])
      && o.verdicts == s.verdicts && o.edited == s.edited
      && (o.exit == Aborted <==> s.threw)
      && (Completed(o.exit) <==> !s.threw)
  {
  }

  /**
   * Without a usable changeset (the creation was rejected, or its id is
   * falsy) no element is fetched or sent, nothing is marked and the table
   * is unchanged; the run ends quietly exactly when the id was falsy.
   */
  lemma CycleNoChangeset(t: map<int, Db.Row>, base: nat, a: Answers, query: Reply<seq<Db.UploadRow>>, markFails: bool)
    requires query.Ok? && |query.value| > 0
    requires !(a.Changeset(base).Ok? && Truthy(a.Changeset(base).value))
    ensures var o := Cycle(t, base, a, query, markFails);
      && o.calls == [CreateChangeset(Editor, Comment)]
      && o.verdicts == [] && o.edited == [] && o.marking == None && o.table == t
      && (o.exit == NoChangeset <==> a.Changeset(base).Ok?)
      && (o.exit == Aborted <==> a.Changeset(base).Threw?)
  {
  }

  /**
   * A run stops at the first rejected call: an abort means that the last
   * call made (the changeset creation, a fetch or a send) was rejected.
   */
  lemma CycleAbort(t: map<int, Db.Row>, base: nat, a: Answers, query: Reply<seq<Db.UploadRow>>, markFails: bool)
    ensures var o := Cycle(t, base, a, query, markFails);
      o.exit == Aborted <==>
        && query.Ok? && |query.value| > 0
        && ((o.calls == [CreateChangeset(Editor, Comment)] && a.Changeset(base).Threw?) || (|o.calls| > 1 && LastRejected(a, base, o.calls)))
  {
    var o := Cycle(t, base, a, query, markFails);
    if query.Ok? && |query.value| > 0 && a.Changeset(base).Ok? && Truthy(a.Changeset(base).value) {
      var cs := a.Changeset(base).value;
      var s := Loop(a, base + 1, cs, query.value);
      LoopShape(a, base + 1, cs, query.value);
      var start := [CreateChangeset(Editor, Comment)];
      if s.threw {
        assert o.calls == start + s.calls;
        LastRejectedShift(a, base, start[0], s.calls);
      } else {
        assert o.calls == start + s.calls + [CloseChangeset(cs)];
        assert o.calls[|o.calls| - 1].CloseChangeset?;
      }
    }
  }

  /** A rejection seen by the loop is still the last call once the changeset creation is put in front. */
  lemma LastRejectedShift(a: Answers, base: nat, first: Call, calls: seq<Call>)
    requires LastRejected(a, base + 1, calls)
    ensures LastRejected(a, base, [first] + calls)
  {
    var all := [first] + calls;
    assert all[|all| - 1] == calls[|calls| - 1];
  }

  /**
   * Each pending contribution gets a verdict in input order until the run
   * stops, and each verdict matches what the API answered to that
   * contribution's fetch (and send) among the calls after the changeset
   * creation.
   */
  lemma CycleTurns(t: map<int, Db.Row>, base: nat, a: Answers, contribs: seq<Db.UploadRow>, markFails: bool)
    ensures var o := Cycle(t, base, a, Ok(contribs), markFails);
      && |o.verdicts| <= |contribs|
      && (o.verdicts != [] ==> Truthy(ChangesetOf(a, base)) && o.calls[0] == CreateChangeset(Editor, Comment))
      && forall k :: 0 <= k < |o.verdicts| ==> RunTurnAt(a, base, o.calls, contribs, o.verdicts, k)
  {
    var o := Cycle(t, base, a, Ok(contribs), markFails);
    if |contribs| > 0 && a.Changeset(base).Ok? && Truthy(a.Changeset(base).value) {
      var cs := a.Changeset(base).value;
      var s := Loop(a, base + 1, cs, contribs);
      LoopShape(a, base + 1, cs, contribs);
      LoopTurns(a, base + 1, cs, contribs);
      var tail := if s.threw then [] else [CloseChangeset(cs)];
      CycleOpened(t, base, a, contribs, markFails);
      var after := o.calls[1..];
      assert after == s.calls + tail;
      assert after[..|s.calls|] == s.calls;
      forall k | 0 <= k < |o.verdicts|
        ensures RunTurnAt(a, base, o.calls, contribs, o.verdicts, k)
      {
        assert TurnAt(a, base + 1, cs, s.calls, contribs, s.verdicts, k);
        TurnExtends(a, base + 1, cs, s.calls, after, Offset(s.verdicts, k), contribs[k], s.verdicts[k]);
      }
    }
  }

  /**
   * `setContributionsSent` is called, with the ids of the updated
   * contributions in input order, exactly when the run completed and
   * updated at least one element; the table changes only when that call
   * succeeds, and then only in the rows of those ids.
   */
  lemma CycleMarking(t: map<int, Db.Row>, base: nat, a: Answers, query: Reply<seq<Db.UploadRow>>, markFails: bool)
    ensures var o := Cycle(t, base, a, query, markFails);
      && (query.Ok? ==> |o.verdicts| <= |query.value| && o.edited == UpdatedIds(query.value, o.verdicts))
      && (o.marking.Some? <==> Completed(o.exit) && o.edited != [])
      && (o.marking.Some? ==> o.marking.value == o.edited)
      && (o.exit == MarkFailed <==> o.marking.Some? && markFails)
      && o.table == (if o.exit == MarkedSent then Db.MarkSent(t, o.edited) else t)
  {
    if query.Ok? && |query.value| > 0 && a.Changeset(base).Ok? && Truthy(a.Changeset(base).value) {
      LoopEdited(a, base + 1, a.Changeset(base).value, query.value);
    }
  }

  /**
   * After a successful marking, the updated contributions are no longer
   * pending for either query, and every other pending one still is: the
   * missing and refused ones stay pending.
   */
  lemma CycleUpdatedNotPending(t: map<int, Db.Row>, base: nat, a: Answers, query: Reply<seq<Db.UploadRow>>, markFails: bool, q: Db.Query)
    ensures var o := Cycle(t, base, a, query, markFails);
      && Db.PendingSet(o.table, q) == Db.PendingSet(t, q) - (set id | id in o.edited && o.exit == MarkedSent)
      && (o.exit == MarkedSent ==> forall id :: id in o.edited ==> id !in Db.PendingSet(o.table, q))
  {
    var o := Cycle(t, base, a, query, markFails);
    if o.exit == MarkedSent {
      Db.MarkSentLeavesPending(t, o.edited, q);
    } else {
      assert (set id | id in o.edited && o.exit == MarkedSent) == {};
    }
  }

  /**
   * An abort after an accepted send loses that update's bookkeeping: here
   * the first element is changed on OSM, the second fetch is rejected, the
   * changeset is left open and the first contribution stays unsent.
   */
  lemma AbortAfterUpdate(t: map<int, Db.Row>, base: nat, r1: Db.UploadRow, r2: Db.UploadRow)
    ensures var a := Answers(map[base := Ok(Num("1"))], map[base + 1 := Ok(Some(Remote(0)))], map[base + 2 := Ok(Bool(true))]);
      var o := Cycle(t, base, a, Ok([r1, r2]), false);
      && o.exit == Aborted
      && o.verdicts == [Updated]
      && o.edited == [r1.id]
      && |o.calls| == 4
      && o.calls[2] == SendElement(Stamped(Tagged(Remote(0), SetTagsArgument(r1))), Num("1"))
      && (forall i :: 0 <= i < |o.calls| ==> !o.calls[i].CloseChangeset?)
      && o.marking == None
      && o.table == t
  {
    var a := Answers(map[base := Ok(Num("1"))], map[base + 1 := Ok(Some(Remote(0)))], map[base + 2 := Ok(Bool(true))]);
    var cs := Num("1");
    assert Truthy(cs);
    var contribs := [r1, r2];
    assert contribs[..1] == [r1];
    assert [r1][..0] == [];
    var s0 := Loop(a, base + 1, cs, []);
    assert s0 == LoopState([], [], [], false);
    assert a.Fetch(base + 1) == Ok(Some(Remote(0))) && a.Send(base + 2) == Ok(Bool(true));
    var s1 := Loop(a, base + 1, cs, [r1]);
    assert s1 == Visit(a, base + 1, cs, s0, r1);
    assert s1.calls == [FetchElement(Field(r1, "osmid")), SendElement(Stamped(Tagged(Remote(0), SetTagsArgument(r1))), cs)];
    assert s1 == LoopState(s1.calls, [Updated], [r1.id], false);
    assert a.Fetch(base + 3) == Threw;
    var s := Loop(a, base + 1, cs, contribs);
    assert s == LoopState(s1.calls + [FetchElement(Field(r2, "osmid"))], [Updated], [r1.id], true);
  }

  /**
   * The `osm-request` client as the run sees it: it records every call and
   * answers the n-th one it receives from its fixed `answers`.
   */
  class Gateway {
    const answers: Answers
    var calls: seq<Call>

    constructor (answers: Answers)
      ensures this.answers == answers && calls == []
    {
      this.answers := answers;
      calls := [];
    }

    /** `osmApi.createChangeset(editor, comment)`. */
    method CreateChangeset(editor: string, comment: string) returns (r: Reply<JsValue>)
      modifies this
      ensures calls == old(calls) + [Call.CreateChangeset(editor, comment)]
      ensures r == answers.Changeset(|old(calls)|)
    {
      r := answers.Changeset(|calls|);
      calls := calls + [Call.CreateChangeset(editor, comment)];
    }

    /** `osmApi.fetchElement(osmid)`. */
    method FetchElement(osmid: JsValue) returns (r: Reply<Option<Element>>)
      modifies this
      ensures calls == old(calls) + [Call.FetchElement(osmid)]
      ensures r == answers.Fetch(|old(calls)|)
    {
      r := answers.Fetch(|calls|);
      calls := calls + [Call.FetchElement(osmid)];
    }

    /** `osmApi.sendElement(elem, changesetId)`. */
    method SendElement(elem: Element, changeset: JsValue) returns (r: Reply<JsValue>)
      modifies this
      ensures calls == old(calls) + [Call.SendElement(elem, changeset)]
      ensures r == answers.Send(|old(calls)|)
    {
      r := answers.Send(|calls|);
      calls := calls + [Call.SendElement(elem, changeset)];
    }

    /** `osmApi.closeChangeset(changesetId)`: not awaited, so its answer is never looked at. */
    method CloseChangeset(changeset: JsValue)
      modifies this
      ensures calls == old(calls) + [Call.CloseChangeset(changeset)]
    {
      calls := calls + [Call.CloseChangeset(changeset)];
    }
  }

  /** The upload job: the database, the OSM client, and the runs scheduled with `setTimeout`. */
  class Uploader {
    const db: Db.Table
    const gateway: Gateway
    var timers: nat

    constructor (db: Db.Table, gateway: Gateway)
      ensures this.db == db && this.gateway == gateway && timers == 0
    {
      this.db := db;
      this.gateway := gateway;
      timers := 0;
    }

    /**
     * One turn of the loop for `contrib`: fetch its element, and if there is
     * one, build the tags, set the raw ones, stamp it and send it.
     */
    method VisitOne(ghost base: nat, contrib: Db.UploadRow, cs: JsValue, verdicts: seq<Verdict>, editedElemIds: seq<int>)
      returns (verdicts': seq<Verdict>, editedElemIds': seq<int>, threw: bool)
      requires base <= |gateway.calls|
      modifies gateway
      ensures |gateway.calls| >= |old(gateway.calls)| && gateway.calls[..|old(gateway.calls)|] == old(gateway.calls)
      ensures Visit(gateway.answers, base, cs, LoopState(old(gateway.calls)[base..], verdicts, editedElemIds, false), contrib)
        == LoopState(gateway.calls[base..], verdicts', editedElemIds', threw)
    {
      ghost var before := gateway.calls;
      verdicts', editedElemIds', threw := verdicts, editedElemIds, false;
      var fetched := gateway.FetchElement(Field(contrib, "osmid"));
      assert gateway.calls[base..] == before[base..] + [FetchElement(Field(contrib, "osmid"))];
      if fetched.Threw? {
        threw := true;
      } else if fetched.value.Some? {
        var tags := BuildCovidTags(Field(contrib, "details"), Field(contrib, "status"), Field(contrib, "opening_hours"));
        var elem := Stamped(Tagged(fetched.value.value, SetTagsArgument(contrib)));
        ghost var middle := gateway.calls;
        var result := gateway.SendElement(elem, cs);
        assert gateway.calls[base..] == middle[base..] + [SendElement(elem, cs)];
        assert gateway.calls[..|before|] == before by {
          assert gateway.calls[..|middle|] == middle;
        }
        if result.Threw? {
          threw := true;
        } else if Truthy(result.value) {
          editedElemIds' := editedElemIds + [contrib.id];
          verdicts' := verdicts + [Updated];
        } else {
          verdicts' := verdicts + [Refused];
        }
      } else {
        verdicts' := verdicts + [Missing];
      }
    }

    /**
     * The `for (let contrib of contribs)` loop in changeset `cs`: it stops at
     * the first rejected call, and otherwise keeps the ids of the contributions
     * whose element the API accepted.
     */
    method SendAll(contribs: seq<Db.UploadRow>, cs: JsValue) returns (verdicts: seq<Verdict>, editedElemIds: seq<int>, threw: bool)
      modifies gateway
      ensures |gateway.calls| >= |old(gateway.calls)| && gateway.calls[..|old(gateway.calls)|] == old(gateway.calls)
      ensures Loop(gateway.answers, |old(gateway.calls)|, cs, contribs) == LoopState(gateway.calls[|old(gateway.calls)|..], verdicts, editedElemIds, threw)
    {
      var base := |gateway.calls|;
      ghost var before := gateway.calls;
      ghost var a := gateway.answers;
      editedElemIds := [];
      verdicts := [];
      threw := false;
      var i := 0;
      while i < |contribs|
        invariant 0 <= i <= |contribs|
        invariant |gateway.calls| >= base && gateway.calls[..base] == before
        invariant Loop(a, base, cs, contribs[..i]) == LoopState(gateway.calls[base..], verdicts, editedElemIds, false)
      {
        assert contribs[..i + 1][..i] == contribs[..i];
        ghost var mid := gateway.calls;
        verdicts, editedElemIds, threw := VisitOne(base, contribs[i], cs, verdicts, editedElemIds);
        assert gateway.calls[..base] == before by {
          assert gateway.calls[..|mid|][..base] == mid[..base];
        }
        if threw {
          LoopThrewStays(a, base, cs, contribs, i + 1);
          return;
        }
        i := i + 1;
      }
      assert contribs[..i] == contribs;
    }

    /**
     * The callback run on a non-empty list of pending contributions: open a
     * changeset and, when its id is truthy, upload in it.
     */
    method UploadContributions(contribs: seq<Db.UploadRow>, markFails: bool) returns (outcome: CycleOutcome)
      requires |contribs| > 0
      requires db.Valid()
      modifies this, db, gateway
      ensures outcome == Cycle(old(db.rows), |old(gateway.calls)|, gateway.answers, Ok(contribs), markFails)
      ensures db.rows == outcome.table && db.nextId == old(db.nextId) && db.Valid()
      ensures gateway.calls == old(gateway.calls) + outcome.calls
      ensures timers == old(timers) + 1
    {
      var t := db.rows;
      var base := |gateway.calls|;
      var start := [Call.CreateChangeset(Editor, Comment)];
      var created := gateway.CreateChangeset(Editor, Comment);
      if created.Threw? {
        timers := timers + 1;
        return CycleOutcome(Aborted, start, [], [], None, t);
      }
      var cs := created.value;
      if !Truthy(cs) {
        timers := timers + 1;
        return CycleOutcome(NoChangeset, start, [], [], None, t);
      }
      assert gateway.calls[..base] == old(gateway.calls);
      outcome := SendInChangeset(contribs, cs, markFails, base);
    }

    /**
     * The rest of a run once changeset `cs` (created by the API's call number
     * `base`) has a truthy id: the loop, the close, and the marking.
     */
    method SendInChangeset(contribs: seq<Db.UploadRow>, cs: JsValue, markFails: bool, base: nat) returns (outcome: CycleOutcome)
      requires |contribs| > 0 && Truthy(cs) && gateway.answers.Changeset(base) == Ok(cs)
      requires |gateway.calls| == base + 1 && gateway.calls[base] == Call.CreateChangeset(Editor, Comment)
      requires db.Valid()
      modifies this, db, gateway
      ensures outcome == Cycle(old(db.rows), base, gateway.answers, Ok(contribs), markFails)
      ensures db.rows == outcome.table && db.nextId == old(db.nextId) && db.Valid()
      ensures gateway.calls == old(gateway.calls)[..base] + outcome.calls
      ensures timers == old(timers) + 1
    {
      var t := db.rows;
      var start := [Call.CreateChangeset(Editor, Comment)];
      ghost var s := Loop(gateway.answers, base + 1, cs, contribs);
      var verdicts, editedElemIds, threw := SendAll(contribs, cs);
      assert gateway.calls[..base + 1] == old(gateway.calls)[..base] + start;
      if threw {
        assert gateway.calls[base..] == start + s.calls;
        timers := timers + 1;
        return CycleOutcome(Aborted, gateway.calls[base..], verdicts, editedElemIds, None, t);
      }
      gateway.CloseChangeset(cs);
      var calls := gateway.calls[base..];
      assert calls == start + s.calls + [Call.CloseChangeset(cs)];
      if |editedElemIds| == 0 {
        outcome := CycleOutcome(NothingEdited, calls, verdicts, editedElemIds, None, t);
        timers := timers + 1;
      } else if markFails {
        outcome := CycleOutcome(MarkFailed, calls, verdicts, editedElemIds, Some(editedElemIds), t);
        timers := timers + 1;
      } else {
        db.SetContributionsSent(editedElemIds);
        outcome := CycleOutcome(MarkedSent, calls, verdicts, editedElemIds, Some(editedElemIds), db.rows);
        timers := timers + 1;
      }
    }

    /**
     * `sendDataToOSM()`: one run, as `Cycle` describes it, on the table and
     * the API as they stand; whichever way it ends, it schedules exactly one
     * further run.
     */
    method SendDataToOsm(faults: DbFaults) returns (query: Reply<seq<Db.UploadRow>>, outcome: CycleOutcome)
      requires db.Valid()
      modifies this, db, gateway
      ensures query.Threw? <==> faults.queryFails
      ensures query.Ok? ==> Db.IsUploadSelection(old(db.rows), query.value)
      ensures outcome == Cycle(old(db.rows), |old(gateway.calls)|, gateway.answers, query, faults.markFails)
      ensures db.rows == outcome.table && db.nextId == old(db.nextId) && db.Valid()
      ensures gateway.calls == old(gateway.calls) + outcome.calls
      ensures timers == old(timers) + 1
    {
      if faults.queryFails {
        query := Threw;
        outcome := CycleOutcome(QueryFailed, [], [], [], None, db.rows);
        timers := timers + 1;
      } else {
        var contribs := db.GetContributionsForUpload();
        query := Ok(contribs);
        if |contribs| == 0 {
          outcome := CycleOutcome(NothingToSend, [], [], [], None, db.rows);
          timers := timers + 1;
        } else {
          outcome := UploadContributions(contribs, faults.markFails);
        }
      }
    }
  }
}
