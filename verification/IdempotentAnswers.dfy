/** Where the answers come from: every reservation was made by an insert, every stored answer was
    recorded by a handler, and a replay is that recorded answer, status and body. */
module IdempotentAnswers {
  import opened Options
  import opened Idempotency
  import PyText

  // ----- Steps of a run -----

  lemma {:induction false} RequestsStay(s: State, steps: seq<Step>, id: Id)
    requires Run(s, steps).Some?
    ensures var t := Run(s, steps).value;
            && (id in t.requests <==> id in s.requests)
            && (id in s.requests ==> t.requests[id].(phase := Fresh) == s.requests[id].(phase := Fresh))
    decreases |steps|
  {
    if steps != [] {
      RequestsStay(Next(s, steps[0]).value, steps[1..], id);
    }
  }

  /** The state the `i`th step of a run is taken in. */
  function Before(s: State, steps: seq<Step>, i: nat): Option<State>
    requires i <= |steps|
  {
    Run(s, steps[..i])
  }

  lemma BeforeOneStepLater(s: State, steps: seq<Step>, i: nat)
    requires steps != [] && i < |steps| && Next(s, steps[0]).Some?
    ensures Before(s, steps, i + 1) == Before(Next(s, steps[0]).value, steps[1..], i)
  {
    assert steps[..i + 1][0] == steps[0] && steps[..i + 1][1..] == steps[1..][..i];
  }

  // ----- Who made a reservation -----

  /** The `i`th step reserved the key, free until then, for what this request asks. */
  ghost predicate ReservedAt(s: State, steps: seq<Step>, slot: Slot, fingerprint: Fingerprint, i: nat) {
    && i < |steps| && steps[i].Do? && steps[i].action.Insert?
    && Before(s, steps, i).Some? && slot !in Before(s, steps, i).value.rows
    && steps[i].id in s.requests && s.requests[steps[i].id].At(slot)
    && s.requests[steps[i].id].fingerprint == fingerprint
  }

  /** In every run, a key that is spent was reserved by a request that goes by it, and spent on what that
      request asked for. */
  lemma {:induction false} EveryRowWasReserved(s: State, steps: seq<Step>, slot: Slot)
    requires Run(s, steps).Some? && slot in Run(s, steps).value.rows
    requires slot in s.rows ==> s.rows[slot].fingerprint != Run(s, steps).value.rows[slot].fingerprint
    ensures exists i :: ReservedAt(s, steps, slot, Run(s, steps).value.rows[slot].fingerprint, i)
    decreases |steps|
  {
    var t, last := Next(s, steps[0]).value, Run(s, steps).value.rows[slot];
    if slot in t.rows && t.rows[slot].fingerprint == last.fingerprint {
      assert Before(s, steps, 0) == Some(s) by { assert steps[..0] == []; }
      assert slot == Slot(s.requests[steps[0].id].tenant, s.requests[steps[0].id].key.value);
      assert ReservedAt(s, steps, slot, last.fingerprint, 0);
    } else {
      EveryRowWasReserved(t, steps[1..], slot);
      var i: nat :| ReservedAt(t, steps[1..], slot, last.fingerprint, i);
      BeforeOneStepLater(s, steps, i);
      RequestsStay(s, [steps[0]], steps[i + 1].id);
      assert ReservedAt(s, steps, slot, last.fingerprint, i + 1);
    }
  }

  // ----- Who recorded an answer -----

  /** The `i`th step is a handler recording this answer for its key, in flight until then. */
  ghost predicate RecordedAt(s: State, steps: seq<Step>, slot: Slot, response: Response, i: nat) {
    && i < |steps| && steps[i].Do? && steps[i].action == Record(response)
    && Before(s, steps, i).Some? && OpenAt(Before(s, steps, i).value.rows, slot)
    && steps[i].id in s.requests && s.requests[steps[i].id].At(slot)
    && steps[i].id in Before(s, steps, i).value.requests
    && Before(s, steps, i).value.requests[steps[i].id].Claimed()
  }

  /** In every run, an answer that the table comes to hold is, status and body, what one of the run's
      steps recorded for that key. */
  lemma {:induction false} EveryAnswerWasRecorded(s: State, steps: seq<Step>, slot: Slot)
    requires Run(s, steps).Some? && !Answered(s.rows, slot) && Answered(Run(s, steps).value.rows, slot)
    ensures exists i :: RecordedAt(s, steps, slot, Run(s, steps).value.rows[slot].response.value, i)
    decreases |steps|
  {
    var t, last := Next(s, steps[0]).value, Run(s, steps).value.rows[slot].response.value;
    if Answered(t.rows, slot) {
      AnswersAreForGood(t, steps[1..], slot);
      assert Before(s, steps, 0) == Some(s) by { assert steps[..0] == []; }
      assert slot == Slot(s.requests[steps[0].id].tenant, s.requests[steps[0].id].key.value);
      assert RecordedAt(s, steps, slot, last, 0);
    } else {
      EveryAnswerWasRecorded(t, steps[1..], slot);
      var i: nat :| RecordedAt(t, steps[1..], slot, last, i);
      BeforeOneStepLater(s, steps, i);
      RequestsStay(s, [steps[0]], steps[i + 1].id);
      assert RecordedAt(s, steps, slot, last, i + 1);
    }
  }

  /** In every run from an empty table, whoever is replayed an answer gets exactly the response, status
      and body, that a handler holding that tenant's key recorded in an earlier step of the run; and the
      key had been reserved for that very request, by the method, path, workspace and body it has. */
  lemma EveryReplayWasRecorded(s: State, steps: seq<Step>, id: Id)
    requires Initial(s) && Run(s, steps).Some? && id in Run(s, steps).value.requests
    requires IsReplay(Run(s, steps).value.requests[id])
    ensures var q := Run(s, steps).value.requests[id];
            && q.key.Some?
            && (exists i :: RecordedAt(s, steps, Slot(q.tenant, q.key.value), q.phase.outcome.response, i))
            && (exists i :: ReservedAt(s, steps, Slot(q.tenant, q.key.value), q.fingerprint, i))
  {
    var t := Run(s, steps).value;
    var q := t.requests[id];
    EveryReplayIsTheStoredResponse(s, steps);
    RequestsStay(s, steps, id);
    OnlyKeysAreReplayed(s, steps, id);
    var slot := Slot(q.tenant, q.key.value);
    assert q.At(slot) && Stores(t.rows, slot, q);
    EveryAnswerWasRecorded(s, steps, slot);
    EveryRowWasReserved(s, steps, slot);
  }

  lemma {:induction false} OnlyKeysAreReplayed(s: State, steps: seq<Step>, id: Id)
    requires Run(s, steps).Some? && id in s.requests && (IsReplay(s.requests[id]) ==> s.requests[id].key.Some?)
    ensures id in Run(s, steps).value.requests
    ensures IsReplay(Run(s, steps).value.requests[id]) ==> Run(s, steps).value.requests[id].key.Some?
    decreases |steps|
  {
    if steps != [] {
      OnlyKeysAreReplayed(Next(s, steps[0]).value, steps[1..], id);
    }
  }

  // ----- And what is recorded is what is replayed -----

  /** From the moment a handler that holds its key records an answer, the key gives that answer, status
      and body, to every later comer who asks the same thing, and a conflict to every other. */
  lemma RecordedIsReplayed(s: State, writer: Id, response: Response, between: seq<Step>, slot: Slot, id: Id, stamp: int)
    requires writer in s.requests && s.requests[writer].At(slot) && s.requests[writer].Claimed() && OpenAt(s.rows, slot)
    requires Run(s, [Do(writer, Record(response))] + between).Some?
    requires var t := Run(s, [Do(writer, Record(response))] + between).value;
             && id in t.requests && t.requests[id].At(slot) && stamp <= t.now
             && MayClaim(t.requests[id].form, t.requests[id].phase)
    ensures var t := Run(s, [Do(writer, Record(response))] + between).value;
            var u := Run(t, [Do(id, Insert(stamp)), Do(id, Look)]);
            && u.Some? && u.value.rows == t.rows && id in u.value.requests
            && u.value.requests[id].phase ==
               if t.requests[id].fingerprint == s.rows[slot].fingerprint then Ended(Replayed(response))
               else Ended(Conflicting)
  {
    var steps := [Do(writer, Record(response))] + between;
    assert steps[0] == Do(writer, Record(response)) && steps[1..] == between;
    var recorded := Next(s, steps[0]).value;
    assert slot == Slot(s.requests[writer].tenant, s.requests[writer].key.value);
    assert Answered(recorded.rows, slot) && recorded.rows[slot].response == Some(response);
    AnswersAreForGood(recorded, between, slot);
    TakenKeyIsLookedUp(Run(s, steps).value, id, slot, stamp);
  }

  lemma TakenKeyIsLookedUp(t: State, id: Id, slot: Slot, stamp: int)
    requires Answered(t.rows, slot) && id in t.requests && t.requests[id].At(slot) && stamp <= t.now
    requires MayClaim(t.requests[id].form, t.requests[id].phase)
    ensures var u := Run(t, [Do(id, Insert(stamp)), Do(id, Look)]);
            && u.Some? && u.value.rows == t.rows && id in u.value.requests
            && u.value.requests[id].phase ==
               if t.requests[id].fingerprint == t.rows[slot].fingerprint
               then Ended(Replayed(t.rows[slot].response.value))
               else Ended(Conflicting)
  {
    var steps := [Do(id, Insert(stamp)), Do(id, Look)];
    assert slot == Slot(t.requests[id].tenant, t.requests[id].key.value);
    assert steps[..0] == [] && Run(t, []) == Some(t);
    RunOnce(t, [], steps[0]);
    assert steps[..1] == [] + [steps[0]];
    RunOnce(t, steps[..1], steps[1]);
    assert steps == steps[..1] + [steps[1]];
  }

  // ----- One request undisturbed -----

  /** What a claim comes to, by what the table holds under the key: nothing there, and it is reserved for
      this request; another request there, and it is a conflict; an answer there, and that is the replay; a
      reservation there, and it is taken over once five minutes old by the clock, and busy until then. */
  lemma ClaimDecides(rows: Rows, at: Moments, id: Id, slot: Slot, fingerprint: Fingerprint)
    ensures var e := ClaimAlone(rows, at, id, slot, fingerprint);
            if slot !in rows then
              && e.phase == Running(true, false, at.inserted)
              && e.rows == rows[slot := Row(fingerprint, None, at.inserted, id, None)]
            else if rows[slot].fingerprint != fingerprint then
              e.phase == Ended(Conflicting) && e.rows == rows
            else if rows[slot].response.Some? then
              e.phase == Ended(Replayed(rows[slot].response.value)) && e.rows == rows
            else if rows[slot].createdAt + 5 * 60 <= at.read then
              && e.phase == Running(true, false, at.taken)
              && e.rows == rows[slot := Row(fingerprint, None, at.taken, id, rows[slot].writer)]
            else
              e.phase == Ended(Busy) && e.rows == rows
  {
  }

  // ----- The header -----

  /** No header or one of whitespace alone is no key; a header is refused if and only if what it holds between
      whitespace is longer than 255 characters. */
  lemma HeaderDecides(text: string)
    ensures KeyOf(None) == Key(None)
    ensures KeyOf(Some(text)) == Key(None) <==> PyText.AllSpaces(text)
    ensures KeyOf(Some(text)) == Header.Refused <==>
              exists before, key, after :: text == before + (key + after) && |key| > 255 && PyText.IsStripped(key)
                  && PyText.AllSpaces(before) && PyText.AllSpaces(after)
  {
    assert PyText.Strip("") == "";
    PyText.StripParts(text);
    PyText.StripLeavesStripped(text);
    if PyText.AllSpaces(text) {
      assert PyText.Leading(text) == |text|;
    }
    if before, key, after :| text == before + (key + after) && |key| > 255 && PyText.IsStripped(key)
                             && PyText.AllSpaces(before) && PyText.AllSpaces(after) {
      PyText.StripOf(before, key, after);
    }
  }
}
