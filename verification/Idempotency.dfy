/** The `Idempotency-Key` header: the table of spent keys, one request's hold on a key, and many
    requests racing for it. */
module Idempotency {
  import opened Options
  import PyText

  // ----- The header -----

  const MaxKeyLength := 255

  datatype Header = Refused | Key(key: Option<string>)

  function KeyOf(header: Option<string>): Header {
    var key := PyText.Strip(if header.Some? then header.value else "");
    if |key| > MaxKeyLength then Refused else Key(if key == "" then None else Some(key))
  }

  /** Keys are never cut: a header means a key exactly when it is that key between whitespace. */
  lemma KeyMeansWhole(text: string, key: string)
    ensures KeyOf(Some(text)) == Key(Some(key)) <==>
              && 0 < |key| <= MaxKeyLength && PyText.IsStripped(key)
              && exists before, after :: text == before + (key + after) && PyText.AllSpaces(before)
                  && PyText.AllSpaces(after)
  {
    PyText.StripLeavesStripped(text);
    PyText.StripParts(text);
    if before, after :| text == before + (key + after) && PyText.AllSpaces(before) && PyText.AllSpaces(after)
                        && key != "" && PyText.IsStripped(key) {
      PyText.StripOf(before, key, after);
    }
  }

  // ----- The table -----

  /** A key belongs to a tenant. */
  datatype Slot = Slot(tenant: string, key: string)

  /** The request a key answers for. Two requests differ if any of these does. */
  datatype Fingerprint = Fingerprint(httpMethod: string, target: string, workspace: string, bodyHash: string)

  datatype Response = Response(status: int, body: string)

  type Id = nat

  /** A row: what was spent and what it gave, none while in flight. The table does not say whose
      the reservation is, nor who wrote the response: `holder` and `writer` are the model's. */
  datatype Row = Row(fingerprint: Fingerprint, response: Option<Response>, createdAt: int, holder: Id,
        writer: Option<Id>) {
    predicate Open() { response.None? }
  }

  type Rows = map<Slot, Row>

  /** Seconds a reservation may be in flight before it may be taken over. */
  const StaleReservation := 300

  predicate OpenAt(rows: Rows, slot: Slot) { slot in rows && rows[slot].Open() }

  function Inserted(rows: Rows, slot: Slot, fingerprint: Fingerprint, id: Id, stamp: int): Rows {
    if slot in rows then rows else rows[slot := Row(fingerprint, None, stamp, id, None)]
  }

  predicate Takeable(rows: Rows, slot: Slot, olderThan: int) {
    OpenAt(rows, slot) && rows[slot].createdAt <= olderThan
  }

  function TakenOver(rows: Rows, slot: Slot, olderThan: int, id: Id, stamp: int): Rows {
    if Takeable(rows, slot, olderThan) then rows[slot := rows[slot].(createdAt := stamp, holder := id)] else rows
  }

  function Completed(rows: Rows, slot: Slot, response: Response, id: Id): Rows {
    if OpenAt(rows, slot) then rows[slot := rows[slot].(response := Some(response), writer := Some(id))] else rows
  }

  function Released(rows: Rows, slot: Slot): Rows {
    if OpenAt(rows, slot) then rows - {slot} else rows
  }

  // ----- Requests -----

  datatype Outcome = Replayed(response: Response) | Conflicting | Busy | Missing | Finished

  /** Reserving is an insert and, when that finds the key taken, a look. If the look finds the same
      request still in flight, the clock is read, and what is older than five minutes by then is
      taken over in a third statement. `Missing` is a look at a row released in between. When it
      looked, and the stamp its work began with, are the model's to remember. */
  datatype Phase =
    | Fresh
    | Looking
    | Comparing(lookedAt: int)
    | Waiting(lookedAt: int, olderThan: int)
    | Running(claimed: bool, recorded: bool, since: int)
    | Killed
    | Ended(outcome: Outcome)

  /** `key` is absent when the client sent none. A `form` request is one whose handler claims the
      key itself, once it has parsed the form. */
  datatype Request = Request(tenant: string, key: Option<string>, fingerprint: Fingerprint, form: bool, phase: Phase) {
    predicate At(slot: Slot) { key == Some(slot.key) && tenant == slot.tenant }

    predicate Claimed() { phase.Running? && phase.claimed }

    /** It has the key to give back: it claimed it and has not recorded an answer. */
    predicate AtWork() { Claimed() && !phase.recorded }

    predicate Holds(slot: Slot) { At(slot) && AtWork() }

    predicate HasRecorded(slot: Slot) { At(slot) && Claimed() && phase.recorded }
  }

  /** Claiming comes before the handler runs, or out of it when it is a form's. */
  predicate MayClaim(form: bool, phase: Phase) {
    if form then phase.Running? && !phase.claimed else phase.Fresh?
  }

  /** `Begin` is a form's handler starting with its key unclaimed. A stamp is the start of the
      transaction that writes it, so it may lie before the write. */
  datatype Action =
    | Begin | Insert(stamp: int) | Look | ReadClock | TakeOver(stamp: int) | Record(response: Response) | Exit | Kill

  datatype Effect = Effect(rows: Rows, phase: Phase)

  /** What one action of request `id` does, or nothing when it is not its turn. */
  function Act(rows: Rows, now: int, id: Id, q: Request, action: Action): Option<Effect> {
    if q.phase.Ended? || q.phase.Killed? then None
    else if action.Kill? then Some(Effect(rows, Killed))
    else if action.Begin? then
      if q.form && q.phase.Fresh? then Some(Effect(rows, Running(false, false, now))) else None
    else if q.key.None? then ActInert(rows, now, q.form, q.phase, action)
    else ActKeyed(rows, now, id, Slot(q.tenant, q.key.value), q.fingerprint, q.form, q.phase, action)
  }

  function ActInert(rows: Rows, now: int, form: bool, phase: Phase, action: Action): Option<Effect> {
    match action
    case Insert(_) => if MayClaim(form, phase) then Some(Effect(rows, Running(false, false, now))) else None
    case Record(_) => if phase.Running? then Some(Effect(rows, phase)) else None
    case Exit => if phase.Running? then Some(Effect(rows, Ended(Finished))) else None
    case _ => None
  }

  function ActKeyed(rows: Rows, now: int, id: Id, slot: Slot, fingerprint: Fingerprint, form: bool, phase: Phase,
        action: Action): Option<Effect> {
    match action
    case Insert(stamp) =>
      if !MayClaim(form, phase) || stamp > now then None
      else
        var won := slot !in rows;
        Some(Effect(Inserted(rows, slot, fingerprint, id, stamp), if won then Running(true, false, stamp) else Looking))
    case Look =>
      if !phase.Looking? then None
      else Some(Effect(rows, Seen(rows, now, slot, fingerprint)))
    case ReadClock =>
      if !phase.Comparing? then None
      else Some(Effect(rows, Waiting(phase.lookedAt, now - StaleReservation)))
    case TakeOver(stamp) =>
      if !phase.Waiting? || stamp > now then None
      else
        var won := Takeable(rows, slot, phase.olderThan);
        Some(Effect(TakenOver(rows, slot, phase.olderThan, id, stamp),
                    if won then Running(true, false, stamp) else Ended(Busy)))
    case Record(response) =>
      if !phase.Running? then None
      else if !phase.claimed then Some(Effect(rows, phase))
      else Some(Effect(Completed(rows, slot, response, id), phase.(recorded := true)))
    case Exit =>
      if !phase.Running? then None
      else Some(Effect(if phase.claimed && !phase.recorded then Released(rows, slot) else rows, Ended(Finished)))
    case _ => None
  }

  function Seen(rows: Rows, now: int, slot: Slot, fingerprint: Fingerprint): Phase {
    if slot !in rows then Ended(Missing)
    else if rows[slot].fingerprint != fingerprint then Ended(Conflicting)
    else if rows[slot].response.Some? then Ended(Replayed(rows[slot].response.value))
    else Comparing(now)
  }

  // ----- Many requests -----

  datatype State = State(rows: Rows, requests: map<Id, Request>, now: int)

  datatype Step = Tick(to: int) | Do(id: Id, action: Action)

  function Next(s: State, step: Step): Option<State> {
    match step
    case Tick(to) => if to < s.now then None else Some(s.(now := to))
    case Do(id, action) =>
      if id !in s.requests then None
      else
        var q := s.requests[id];
        var e := Act(s.rows, s.now, id, q, action);
        if e.None? then None
        else Some(s.(rows := e.value.rows, requests := s.requests[id := q.(phase := e.value.phase)]))
  }

  function Run(s: State, steps: seq<Step>): Option<State>
    decreases |steps|
  {
    if steps == [] then Some(s)
    else
      var t := Next(s, steps[0]);
      if t.None? then None else Run(t.value, steps[1..])
  }

  /** No key is spent and no request has begun. */
  predicate Initial(s: State) {
    s.rows == map[] && forall id | id in s.requests :: s.requests[id].phase.Fresh?
  }

  // ----- A stored response is for good -----

  predicate Answered(rows: Rows, slot: Slot) { slot in rows && !rows[slot].Open() }

  lemma StepKeepsAnswers(s: State, step: Step, slot: Slot)
    requires Next(s, step).Some? && Answered(s.rows, slot)
    ensures var t := Next(s, step).value; slot in t.rows && t.rows[slot] == s.rows[slot]
  {}

  /** Whatever happens next, a stored response stays as it is, and so does what it answers. */
  lemma {:induction false} AnswersAreForGood(s: State, steps: seq<Step>, slot: Slot)
    requires Run(s, steps).Some? && Answered(s.rows, slot)
    ensures var t := Run(s, steps).value; slot in t.rows && t.rows[slot] == s.rows[slot]
    decreases |steps|
  {
    if steps != [] {
      StepKeepsAnswers(s, steps[0], slot);
      AnswersAreForGood(Next(s, steps[0]).value, steps[1..], slot);
    }
  }

  predicate IsReplay(q: Request) { q.phase.Ended? && q.phase.outcome.Replayed? }

  /** The replay is what the table stores for that key and that request. */
  predicate Stores(rows: Rows, slot: Slot, q: Request)
    requires IsReplay(q)
  {
    && slot in rows && rows[slot].fingerprint == q.fingerprint
    && rows[slot].response == Some(q.phase.outcome.response)
  }

  /** Every replay is. */
  ghost predicate ReplaysStored(s: State) {
    forall id, slot | id in s.requests && s.requests[id].At(slot) && IsReplay(s.requests[id]) ::
      Stores(s.rows, slot, s.requests[id])
  }

  lemma StepReplaysStored(s: State, step: Step)
    requires Next(s, step).Some? && ReplaysStored(s)
    ensures ReplaysStored(Next(s, step).value)
  {
    var t := Next(s, step).value;
    forall id, slot | id in t.requests && t.requests[id].At(slot) && IsReplay(t.requests[id])
      ensures Stores(t.rows, slot, t.requests[id])
    {
      if s.requests[id].phase.Ended? {
        assert Stores(s.rows, slot, s.requests[id]);
        StepKeepsAnswers(s, step, slot);
      } else {
        assert slot == Slot(s.requests[id].tenant, s.requests[id].key.value);
      }
    }
  }

  /** In every run, whoever is answered from the table is answered with the one response stored
      for that key, and the key was spent on that very request. */
  lemma {:induction false} EveryReplayIsTheStoredResponse(s: State, steps: seq<Step>)
    requires ReplaysStored(s) && Run(s, steps).Some?
    ensures ReplaysStored(Run(s, steps).value)
    decreases |steps|
  {
    if steps != [] {
      StepReplaysStored(s, steps[0]);
      EveryReplayIsTheStoredResponse(Next(s, steps[0]).value, steps[1..]);
    }
  }

  /** Its handler is at work: past claiming, for a form's. */
  predicate Begun(s: State, id: Id) {
    && id in s.requests && s.requests[id].phase.Running?
    && (s.requests[id].phase.claimed || !s.requests[id].form)
  }

  /** Once a key has its answer, no handler starts on it again, and no form's gets past claiming. */
  lemma {:induction false} NoHandlerStartsOnceAnswered(s: State, steps: seq<Step>, slot: Slot, id: Id)
    requires Run(s, steps).Some? && Answered(s.rows, slot)
    requires id in s.requests && s.requests[id].At(slot) && !Begun(s, id)
    ensures !Begun(Run(s, steps).value, id)
    decreases |steps|
  {
    if steps != [] {
      var t := Next(s, steps[0]).value;
      StepKeepsAnswers(s, steps[0], slot);
      NoHandlerStartsOnceAnswered(t, steps[1..], slot, id);
    }
  }

  /** No request acting in the run goes by this tenant and key. */
  predicate Elsewhere(s: State, steps: seq<Step>, slot: Slot) {
    forall i | 0 <= i < |steps| && steps[i].Do? && steps[i].id in s.requests :: !s.requests[steps[i].id].At(slot)
  }

  /** Tenants never meet, and neither do keys: what others do leaves a key's row as it is. */
  lemma {:induction false} OtherKeysAreLeftAlone(s: State, steps: seq<Step>, slot: Slot)
    requires Run(s, steps).Some? && Elsewhere(s, steps, slot)
    ensures var t := Run(s, steps).value;
            (slot in t.rows <==> slot in s.rows) && (slot in s.rows ==> t.rows[slot] == s.rows[slot])
    decreases |steps|
  {
    if steps != [] {
      var t := Next(s, steps[0]).value;
      StepElsewhere(s, steps[0], slot);
      forall i | 0 <= i < |steps[1..]| && steps[1..][i].Do? && steps[1..][i].id in t.requests
        ensures !t.requests[steps[1..][i].id].At(slot)
      {
        assert steps[i + 1] == steps[1..][i];
      }
      OtherKeysAreLeftAlone(t, steps[1..], slot);
    }
  }

  lemma StepElsewhere(s: State, step: Step, slot: Slot)
    requires Next(s, step).Some? && Elsewhere(s, [step], slot)
    ensures var t := Next(s, step).value;
            && (slot in t.rows <==> slot in s.rows) && (slot in s.rows ==> t.rows[slot] == s.rows[slot])
            && t.requests.Keys == s.requests.Keys
            && forall id | id in s.requests :: t.requests[id].At(slot) == s.requests[id].At(slot)
  {
    assert [step][0] == step;
  }

  // ----- A key is not left reserved -----

  /** Every open reservation is some request's to give back: one that still holds it, or one that
      was killed while it did. */
  predicate Held(s: State, slot: Slot)
    requires slot in s.rows
  {
    var id := s.rows[slot].holder;
    id in s.requests && (s.requests[id].Holds(slot) || (s.requests[id].At(slot) && s.requests[id].phase.Killed?))
  }

  ghost predicate OpenMeansHeld(s: State) {
    forall slot | OpenAt(s.rows, slot) :: Held(s, slot)
  }

  /** A request's own slot, the only one its actions bear on. */
  lemma OthersStay(s: State, step: Step, slot: Slot)
    requires Next(s, step).Some?
    requires step.Do? && step.id in s.requests ==> !s.requests[step.id].At(slot)
    ensures var t := Next(s, step).value;
            (slot in t.rows <==> slot in s.rows) && (slot in s.rows ==> t.rows[slot] == s.rows[slot])
  {}

  lemma StepOpenMeansHeld(s: State, step: Step)
    requires Next(s, step).Some? && OpenMeansHeld(s)
    ensures OpenMeansHeld(Next(s, step).value)
  {
    var t := Next(s, step).value;
    forall slot | OpenAt(t.rows, slot)
      ensures Held(t, slot)
    {
      if step.Tick? || !s.requests[step.id].At(slot) {
        OthersStay(s, step, slot);
        assert OpenAt(s.rows, slot) && Held(s, slot);
      } else {
        assert slot == Slot(s.requests[step.id].tenant, s.requests[step.id].key.value);
        assert OpenAt(s.rows, slot) ==> Held(s, slot);
      }
    }
  }

  lemma {:induction false} RunOpenMeansHeld(s: State, steps: seq<Step>)
    requires OpenMeansHeld(s) && Run(s, steps).Some?
    ensures OpenMeansHeld(Run(s, steps).value)
    decreases |steps|
  {
    if steps != [] {
      StepOpenMeansHeld(s, steps[0]);
      RunOpenMeansHeld(Next(s, steps[0]).value, steps[1..]);
    }
  }

  predicate AllEnded(s: State) { forall id | id in s.requests :: s.requests[id].phase.Ended? }

  /** Once every request has ended, no key is left reserved: each is free or has its answer. */
  lemma NothingIsLeftReserved(s: State, steps: seq<Step>, slot: Slot)
    requires Initial(s) && Run(s, steps).Some? && AllEnded(Run(s, steps).value)
    ensures !OpenAt(Run(s, steps).value.rows, slot)
  {
    RunOpenMeansHeld(s, steps);
  }

  // ----- Whose reservation it is -----

  /** A request that holds a key holds the reservation it made, and one that has recorded its
      answer finds the key answered. */
  ghost predicate Owned(s: State) {
    && (forall id, slot | id in s.requests && s.requests[id].Holds(slot) ::
          OpenAt(s.rows, slot) && s.rows[slot].holder == id)
    && (forall id, slot | id in s.requests && s.requests[id].HasRecorded(slot) ::
          Answered(s.rows, slot))
  }

  /** The step takes a stale reservation from a request that is still at work on it. */
  predicate TakesFromTheLiving(s: State, step: Step) {
    && step.Do? && step.action.TakeOver? && step.id in s.requests
    && s.requests[step.id].key.Some? && s.requests[step.id].phase.Waiting?
    && var slot := Slot(s.requests[step.id].tenant, s.requests[step.id].key.value);
    && Takeable(s.rows, slot, s.requests[step.id].phase.olderThan)
    && s.rows[slot].holder in s.requests && s.requests[s.rows[slot].holder].Holds(slot)
  }

  lemma KeepsOwned(s: State, step: Step)
    requires Next(s, step).Some? && Owned(s) && OpenMeansHeld(s) && !TakesFromTheLiving(s, step)
    ensures Owned(Next(s, step).value)
  {
    var t := Next(s, step).value;
    forall id, slot | id in t.requests && t.requests[id].HasRecorded(slot)
      ensures Answered(t.rows, slot)
    {
      if s.requests[id].HasRecorded(slot) {
        StepKeepsAnswers(s, step, slot);
      } else {
        assert s.requests[id].Holds(slot) && step.Do? && step.id == id;
        assert slot == Slot(s.requests[id].tenant, s.requests[id].key.value);
      }
    }
    forall id, slot | id in t.requests && t.requests[id].Holds(slot)
      ensures OpenAt(t.rows, slot) && t.rows[slot].holder == id
    {
      if s.requests[id].Holds(slot) {
        assert OpenAt(s.rows, slot) && s.rows[slot].holder == id;
        if step.Do? && step.id != id && s.requests[step.id].key.Some? {
          var other := Slot(s.requests[step.id].tenant, s.requests[step.id].key.value);
          assert s.requests[step.id].At(other);
          assert s.requests[step.id].AtWork() ==> s.requests[step.id].Holds(other);
          assert s.requests[step.id].HasRecorded(other) ==> Answered(s.rows, other);
        }
      } else {
        assert step.Do? && step.id == id;
        assert slot == Slot(s.requests[id].tenant, s.requests[id].key.value);
      }
    }
  }

  predicate NeverTakesFromTheLiving(s: State, steps: seq<Step>)
    requires Run(s, steps).Some?
    decreases |steps|
  {
    steps == [] || (!TakesFromTheLiving(s, steps[0]) && NeverTakesFromTheLiving(Next(s, steps[0]).value, steps[1..]))
  }

  /** `p` holds of every state of the run. */
  ghost predicate Throughout(s: State, steps: seq<Step>, p: State -> bool)
    requires Run(s, steps).Some?
    decreases |steps|
  {
    p(s) && (steps == [] || Throughout(Next(s, steps[0]).value, steps[1..], p))
  }

  // ----- What a request completes or releases -----

  /** What recording or ending would do to a row. */
  predicate Touches(s: State, id: Id, action: Action, slot: Slot)
    requires Next(s, Do(id, action)).Some? && slot in s.rows
  {
    var rows := Next(s, Do(id, action)).value.rows;
    slot !in rows || rows[slot] != s.rows[slot]
  }

  /** Whatever any request could record or end with now completes or releases only a reservation
      it made itself. */
  ghost predicate Harmless(s: State) {
    forall id, action: Action, slot
      | (action.Record? || action.Exit?) && Next(s, Do(id, action)).Some? && slot in s.rows ::
      Touches(s, id, action, slot) ==> s.rows[slot].Open() && s.rows[slot].holder == id
  }

  /** No two requests are at work on one key. */
  ghost predicate OneHolder(s: State) {
    forall a, b, slot
      | a in s.requests && b in s.requests && s.requests[a].Holds(slot) && s.requests[b].Holds(slot) :: a == b
  }

  /** A request that has not claimed its key, as a form's handler has not at first, leaves the
      table as it is, whatever it records and however it ends. */
  lemma UnclaimedTouchesNothing(s: State, id: Id, action: Action)
    requires Next(s, Do(id, action)).Some? && id in s.requests && (action.Record? || action.Exit?)
    requires s.requests[id].phase.Running? && !s.requests[id].phase.claimed
    ensures Next(s, Do(id, action)).value.rows == s.rows
  {}

  /** Where holders own, a request completes or releases only the reservation it made. */
  lemma OnlyItsOwn(s: State, id: Id, action: Action, slot: Slot)
    requires Owned(s) && Next(s, Do(id, action)).Some? && (action.Record? || action.Exit?) && slot in s.rows
    ensures Touches(s, id, action, slot) ==> s.rows[slot].Open() && s.rows[slot].holder == id
  {
    var q := s.requests[id];
    if q.phase.Running? && !q.phase.claimed {
      UnclaimedTouchesNothing(s, id, action);
    } else if q.key.Some? {
      var own := Slot(q.tenant, q.key.value);
      assert q.At(own);
      assert q.AtWork() ==> q.Holds(own);
      assert q.HasRecorded(own) ==> Answered(s.rows, own);
    }
  }

  lemma OwnedIsSafe(s: State)
    requires Owned(s)
    ensures Harmless(s) && OneHolder(s)
  {
    forall id, action: Action, slot
      | (action.Record? || action.Exit?) && Next(s, Do(id, action)).Some? && slot in s.rows
      ensures Touches(s, id, action, slot) ==> s.rows[slot].Open() && s.rows[slot].holder == id
    {
      OnlyItsOwn(s, id, action, slot);
    }
    forall a, b, slot | a in s.requests && b in s.requests && s.requests[a].Holds(slot) && s.requests[b].Holds(slot)
      ensures a == b
    {
      assert OpenAt(s.rows, slot) && s.rows[slot].holder == a;
      assert s.rows[slot].holder == b;
    }
  }

  /** The moment a reservation is taken from a request at work, that request could release the
      taker's, and both are at work. */
  lemma TakenIsUnsafe(s: State, step: Step)
    requires Next(s, step).Some? && TakesFromTheLiving(s, step)
    ensures !Harmless(Next(s, step).value) && !OneHolder(Next(s, step).value)
  {
    var t := Next(s, step).value;
    var slot := Slot(s.requests[step.id].tenant, s.requests[step.id].key.value);
    var loser := s.rows[slot].holder;
    assert loser != step.id;
    assert t.requests[loser].Holds(slot) && t.requests[step.id].Holds(slot);
    assert slot == Slot(t.requests[loser].tenant, t.requests[loser].key.value);
    assert Next(t, Do(loser, Exit)).Some? && Touches(t, loser, Exit, slot);
    assert t.rows[slot].holder == step.id;
  }

  /** A step leaves every holder its own reservation exactly when it does not take one over from
      a request still at work. */
  lemma OwnedUnlessTakenFromTheLiving(s: State, step: Step)
    requires Next(s, step).Some? && Owned(s) && OpenMeansHeld(s)
    ensures Owned(Next(s, step).value) <==> !TakesFromTheLiving(s, step)
  {
    if TakesFromTheLiving(s, step) {
      TakenIsUnsafe(s, step);
      if Owned(Next(s, step).value) {
        OwnedIsSafe(Next(s, step).value);
      }
    } else {
      KeepsOwned(s, step);
    }
  }

  lemma {:induction false} SafeFrom(s: State, steps: seq<Step>)
    requires Run(s, steps).Some? && Owned(s) && OpenMeansHeld(s)
    ensures Throughout(s, steps, Harmless) <==> NeverTakesFromTheLiving(s, steps)
    ensures Throughout(s, steps, OneHolder) <==> NeverTakesFromTheLiving(s, steps)
    ensures Throughout(s, steps, Owned) <==> NeverTakesFromTheLiving(s, steps)
    decreases |steps|
  {
    OwnedIsSafe(s);
    if steps != [] {
      OwnedUnlessTakenFromTheLiving(s, steps[0]);
      if TakesFromTheLiving(s, steps[0]) {
        TakenIsUnsafe(s, steps[0]);
      } else {
        StepOpenMeansHeld(s, steps[0]);
        SafeFrom(Next(s, steps[0]).value, steps[1..]);
      }
    }
  }

  /** In every state of a run, whatever any request may record or end with touches only the
      reservation it made, exactly when no takeover in the run takes from a request at work. */
  lemma HarmlessExactlyWhenNoneIsTakenFromTheLiving(s: State, steps: seq<Step>)
    requires Initial(s) && Run(s, steps).Some?
    ensures Throughout(s, steps, Harmless) <==> NeverTakesFromTheLiving(s, steps)
  {
    SafeFrom(s, steps);
  }

  /** Exactly then every holder has its own reservation throughout. */
  lemma OwnedExactlyWhenNoneIsTakenFromTheLiving(s: State, steps: seq<Step>)
    requires Initial(s) && Run(s, steps).Some?
    ensures Throughout(s, steps, Owned) <==> NeverTakesFromTheLiving(s, steps)
  {
    SafeFrom(s, steps);
  }

  /** Exactly then, too, no two requests are ever at work on one key. */
  lemma OneHolderExactlyWhenNoneIsTakenFromTheLiving(s: State, steps: seq<Step>)
    requires Initial(s) && Run(s, steps).Some?
    ensures Throughout(s, steps, OneHolder) <==> NeverTakesFromTheLiving(s, steps)
  {
    SafeFrom(s, steps);
  }

  // ----- Whose answer it is -----

  /** What `q` may fill, it asked for. */
  predicate FitsAt(s: State, q: Request, slot: Slot) {
    OpenAt(s.rows, slot) ==> s.rows[slot].fingerprint == q.fingerprint
  }

  /** Every request past claiming has an open reservation of its key to fill only if that was spent
      on what it asks. */
  ghost predicate Fits(s: State) {
    forall id, slot | id in s.requests && s.requests[id].At(slot) && s.requests[id].Claimed() ::
      FitsAt(s, s.requests[id], slot)
  }

  /** Recording now would answer the key. */
  predicate Answers(s: State, id: Id, response: Response, slot: Slot) {
    var t := Next(s, Do(id, Record(response)));
    t.Some? && OpenAt(s.rows, slot) && Answered(t.value.rows, slot)
  }

  /** Said of the acts: whatever any request could record now answers the request it was made for. */
  lemma FitsMeansRecordsFit(s: State)
    ensures Fits(s) <==>
              forall id, response, slot | Answers(s, id, response, slot) ::
                s.rows[slot].fingerprint == s.requests[id].fingerprint
  {
    if forall id, response, slot | Answers(s, id, response, slot) ::
         s.rows[slot].fingerprint == s.requests[id].fingerprint {
      forall id, slot | id in s.requests && s.requests[id].At(slot) && s.requests[id].Claimed()
        ensures FitsAt(s, s.requests[id], slot)
      {
        assert slot == Slot(s.requests[id].tenant, s.requests[id].key.value);
        assert OpenAt(s.rows, slot) ==> Answers(s, id, Response(200, ""), slot);
      }
    }
    if Fits(s) {
      forall id, response, slot | Answers(s, id, response, slot)
        ensures s.rows[slot].fingerprint == s.requests[id].fingerprint
      {
        assert s.requests[id].At(slot) && s.requests[id].Claimed();
        assert FitsAt(s, s.requests[id], slot);
      }
    }
  }

  /** The step wins a free key under a request at it that asked for something else, or takes over a
      reservation spent on something else. */
  predicate Mixes(s: State, step: Step) {
    && step.Do? && step.id in s.requests && s.requests[step.id].key.Some?
    && var q := s.requests[step.id];
    && var slot := Slot(q.tenant, q.key.value);
    || (step.action.Insert? && slot !in s.rows
        && exists id :: id in s.requests && s.requests[id].At(slot) && s.requests[id].Claimed()
                        && s.requests[id].fingerprint != q.fingerprint)
    || (step.action.TakeOver? && q.phase.Waiting? && Takeable(s.rows, slot, q.phase.olderThan)
        && s.rows[slot].fingerprint != q.fingerprint)
  }

  lemma MixedDoesNotFit(s: State, step: Step)
    requires Next(s, step).Some? && Mixes(s, step)
    ensures !Fits(Next(s, step).value)
  {
    var t, q := Next(s, step).value, s.requests[step.id];
    var slot := Slot(q.tenant, q.key.value);
    if step.action.Insert? {
      var id :| id in s.requests && s.requests[id].At(slot) && s.requests[id].Claimed()
                && s.requests[id].fingerprint != q.fingerprint;
      assert t.requests[id] == s.requests[id] && !FitsAt(t, t.requests[id], slot);
    } else {
      assert t.requests[step.id].At(slot) && t.requests[step.id].Claimed();
      assert !FitsAt(t, t.requests[step.id], slot);
    }
  }

  lemma UnmixedFits(s: State, step: Step)
    requires Next(s, step).Some? && Fits(s) && !Mixes(s, step)
    ensures Fits(Next(s, step).value)
  {
    var t := Next(s, step).value;
    forall id, slot | id in t.requests && t.requests[id].At(slot) && t.requests[id].Claimed()
      ensures FitsAt(t, t.requests[id], slot)
    {
      if step.Tick? || !s.requests[step.id].At(slot) {
        OthersStay(s, step, slot);
        assert FitsAt(s, s.requests[id], slot);
      } else {
        assert slot == Slot(s.requests[step.id].tenant, s.requests[step.id].key.value);
        assert s.requests[id].Claimed() ==> FitsAt(s, s.requests[id], slot);
      }
    }
  }

  /** A step keeps every answer fitting exactly when it does not mix two requests on one key. */
  lemma FitsUnlessMixed(s: State, step: Step)
    requires Next(s, step).Some? && Fits(s)
    ensures Fits(Next(s, step).value) <==> !Mixes(s, step)
  {
    if Mixes(s, step) {
      MixedDoesNotFit(s, step);
    } else {
      UnmixedFits(s, step);
    }
  }

  predicate NeverMixes(s: State, steps: seq<Step>)
    requires Run(s, steps).Some?
    decreases |steps|
  {
    steps == [] || (!Mixes(s, steps[0]) && NeverMixes(Next(s, steps[0]).value, steps[1..]))
  }

  lemma {:induction false} FitsFrom(s: State, steps: seq<Step>)
    requires Run(s, steps).Some? && Fits(s)
    ensures Throughout(s, steps, Fits) <==> NeverMixes(s, steps)
    decreases |steps|
  {
    if steps != [] {
      FitsUnlessMixed(s, steps[0]);
      if !Mixes(s, steps[0]) {
        FitsFrom(Next(s, steps[0]).value, steps[1..]);
      }
    }
  }

  /** In every state of a run, whatever any request could record answers what it was asked, exactly
      when no step of the run mixes two requests on one key. */
  lemma AnswersFitExactlyWhenNothingIsMixed(s: State, steps: seq<Step>)
    requires Initial(s) && Run(s, steps).Some?
    ensures Throughout(s, steps, Fits) <==> NeverMixes(s, steps)
  {
    FitsFrom(s, steps);
  }

  /** The answer was written by a request for what the key was spent on. */
  predicate WriterFits(s: State, slot: Slot)
    requires slot in s.rows
  {
    && s.rows[slot].writer.Some?
    && var writer := s.rows[slot].writer.value;
    && writer in s.requests && s.requests[writer].At(slot)
    && s.requests[writer].fingerprint == s.rows[slot].fingerprint
  }

  ghost predicate WritersFit(s: State) {
    forall slot | Answered(s.rows, slot) :: WriterFits(s, slot)
  }

  lemma StepWritersFit(s: State, step: Step)
    requires Next(s, step).Some? && WritersFit(s) && Fits(s)
    ensures WritersFit(Next(s, step).value)
  {
    var t := Next(s, step).value;
    forall slot | Answered(t.rows, slot)
      ensures WriterFits(t, slot)
    {
      if Answered(s.rows, slot) {
        StepKeepsAnswers(s, step, slot);
        assert WriterFits(s, slot);
      } else {
        assert step.Do? && step.action.Record? && s.requests[step.id].At(slot) && s.requests[step.id].Claimed();
        assert FitsAt(s, s.requests[step.id], slot);
      }
    }
  }

  lemma {:induction false} AnswersMatchFrom(s: State, steps: seq<Step>)
    requires Run(s, steps).Some? && Throughout(s, steps, Fits) && WritersFit(s) && ReplaysStored(s)
    ensures var t := Run(s, steps).value; WritersFit(t) && ReplaysStored(t)
    decreases |steps|
  {
    if steps != [] {
      StepWritersFit(s, steps[0]);
      StepReplaysStored(s, steps[0]);
      AnswersMatchFrom(Next(s, steps[0]).value, steps[1..]);
    }
  }

  /** The response a request is replayed was recorded by a request like it: same key, same
      tenant, same method, target, workspace and body. */
  ghost predicate AnsweredByItsLike(s: State, id: Id)
    requires id in s.requests
  {
    var q := s.requests[id];
    q.key.Some? &&
    var slot := Slot(q.tenant, q.key.value);
    slot in s.rows && s.rows[slot].writer.Some? &&
    var writer := s.rows[slot].writer.value;
    writer in s.requests && s.requests[writer].At(slot) && s.requests[writer].fingerprint == q.fingerprint
  }

  predicate IsReplayed(s: State, id: Id) {
    id in s.requests && s.requests[id].key.Some? && IsReplay(s.requests[id])
  }

  /** In a run that mixes nothing, every replay is the answer to the same request. */
  lemma EveryReplayAnswersTheSameRequest(s: State, steps: seq<Step>, id: Id)
    requires Initial(s) && Run(s, steps).Some? && NeverMixes(s, steps)
    requires IsReplayed(Run(s, steps).value, id)
    ensures AnsweredByItsLike(Run(s, steps).value, id)
  {
    AnswersFitExactlyWhenNothingIsMixed(s, steps);
    AnswersMatchFrom(s, steps);
    var t := Run(s, steps).value;
    var slot := Slot(t.requests[id].tenant, t.requests[id].key.value);
    assert t.requests[id].At(slot) && Stores(t.rows, slot, t.requests[id]);
    assert WriterFits(t, slot);
  }

  /** A replay of another request's answer takes two requests mixed on one key. */
  lemma WrongAnswersComeFromMixing(s: State, steps: seq<Step>, id: Id)
    requires Initial(s) && Run(s, steps).Some?
    requires IsReplayed(Run(s, steps).value, id) && !AnsweredByItsLike(Run(s, steps).value, id)
    ensures !NeverMixes(s, steps)
  {
    if NeverMixes(s, steps) {
      EveryReplayAnswersTheSameRequest(s, steps, id);
    }
  }

  // ----- What a deployment can see to -----

  /** Nobody is at work on its key five minutes after the stamp it began with: each has recorded,
      ended or died before. */
  ghost predicate Prompt(s: State) {
    forall id | id in s.requests && s.requests[id].AtWork() :: s.now < s.requests[id].phase.since + StaleReservation
  }

  /** Whoever read the clock to take over read it less than five minutes, less `lag`, after its look. */
  ghost predicate Quick(s: State, lag: nat) {
    forall id | id in s.requests && s.requests[id].phase.Waiting? ::
      s.requests[id].phase.olderThan + lag < s.requests[id].phase.lookedAt
  }

  /** No stamp is older than `lag` when it is written. */
  predicate StampsWithin(s: State, steps: seq<Step>, lag: nat)
    requires Run(s, steps).Some?
    decreases |steps|
  {
    steps == [] || (FreshStamp(s, steps[0], lag) && StampsWithin(Next(s, steps[0]).value, steps[1..], lag))
  }

  predicate FreshStamp(s: State, step: Step, lag: nat) {
    step.Do? && (step.action.Insert? || step.action.TakeOver?) ==> s.now <= step.action.stamp + lag
  }

  /** The reservation bears the stamp its holder began with. */
  predicate StampedAt(s: State, q: Request, slot: Slot)
    requires q.phase.Running?
  {
    slot in s.rows && s.rows[slot].createdAt == q.phase.since
  }

  ghost predicate Stamped(s: State) {
    forall id, slot | id in s.requests && s.requests[id].Holds(slot) :: StampedAt(s, s.requests[id], slot)
  }

  lemma HolderKeepsStamp(s: State, step: Step, slot: Slot)
    requires Next(s, step).Some? && OpenAt(s.rows, slot) && OpenAt(Next(s, step).value.rows, slot)
    requires Next(s, step).value.rows[slot].holder == s.rows[slot].holder
    requires s.rows[slot].holder in s.requests && s.requests[s.rows[slot].holder].Holds(slot)
    ensures Next(s, step).value.rows[slot].createdAt == s.rows[slot].createdAt
  {}

  lemma StepStamped(s: State, step: Step)
    requires Next(s, step).Some? && Stamped(s) && Owned(s) && OpenMeansHeld(s) && !TakesFromTheLiving(s, step)
    ensures Stamped(Next(s, step).value)
  {
    var t := Next(s, step).value;
    KeepsOwned(s, step);
    forall id, slot | id in t.requests && t.requests[id].Holds(slot)
      ensures StampedAt(t, t.requests[id], slot)
    {
      assert OpenAt(t.rows, slot) && t.rows[slot].holder == id;
      if s.requests[id].Holds(slot) {
        assert OpenAt(s.rows, slot) && s.rows[slot].holder == id;
        assert StampedAt(s, s.requests[id], slot);
        HolderKeepsStamp(s, step, slot);
      } else {
        assert step.Do? && step.id == id;
        assert slot == Slot(s.requests[id].tenant, s.requests[id].key.value);
      }
    }
  }

  /** What a waiting request may take over is at least five minutes old. */
  ghost predicate WaitersAreLate(s: State) {
    forall id | id in s.requests && s.requests[id].phase.Waiting? ::
      s.requests[id].phase.olderThan + StaleReservation <= s.now
  }

  lemma StepWaitersAreLate(s: State, step: Step)
    requires Next(s, step).Some? && WaitersAreLate(s)
    ensures WaitersAreLate(Next(s, step).value)
  {}

  lemma PromptIsNotTaken(s: State, step: Step)
    requires Next(s, step).Some? && WaitersAreLate(s) && Stamped(s) && Prompt(s)
    ensures !TakesFromTheLiving(s, step)
  {
    if step.Do? && s.requests[step.id].key.Some? && s.requests[step.id].phase.Waiting? {
      var slot := Slot(s.requests[step.id].tenant, s.requests[step.id].key.value);
      if slot in s.rows && s.rows[slot].holder in s.requests && s.requests[s.rows[slot].holder].Holds(slot) {
        assert StampedAt(s, s.requests[s.rows[slot].holder], slot);
      }
    }
  }

  lemma {:induction false} PromptFrom(s: State, steps: seq<Step>)
    requires Run(s, steps).Some? && Owned(s) && OpenMeansHeld(s) && WaitersAreLate(s) && Stamped(s)
    requires Throughout(s, steps, Prompt)
    ensures NeverTakesFromTheLiving(s, steps)
    decreases |steps|
  {
    if steps != [] {
      PromptIsNotTaken(s, steps[0]);
      KeepsOwned(s, steps[0]);
      StepOpenMeansHeld(s, steps[0]);
      StepWaitersAreLate(s, steps[0]);
      StepStamped(s, steps[0]);
      PromptFrom(Next(s, steps[0]).value, steps[1..]);
    }
  }

  /** If every handler that claims its key records, ends or dies within five minutes of its stamp,
      no takeover takes from a request at work. */
  lemma PromptHandlersKeepTheirKeys(s: State, steps: seq<Step>)
    requires Initial(s) && Run(s, steps).Some? && Throughout(s, steps, Prompt)
    ensures NeverTakesFromTheLiving(s, steps)
  {
    PromptFrom(s, steps);
  }

  /** It has looked, and found its own request in flight. */
  predicate HasLooked(q: Request) { q.phase.Comparing? || q.phase.Waiting? }

  /** Whatever stands at the key from before the look was spent on this request. */
  predicate Knows(s: State, q: Request, slot: Slot, lag: nat)
    requires HasLooked(q)
  {
    && q.phase.lookedAt <= s.now
    && (slot in s.rows && s.rows[slot].createdAt + lag < q.phase.lookedAt
        ==> s.rows[slot].fingerprint == q.fingerprint)
  }

  ghost predicate LookersKnow(s: State, lag: nat) {
    forall id, slot | id in s.requests && s.requests[id].At(slot) && HasLooked(s.requests[id]) ::
      Knows(s, s.requests[id], slot, lag)
  }

  lemma StampedNowOrBefore(s: State, step: Step, slot: Slot, lag: nat)
    requires Next(s, step).Some? && FreshStamp(s, step, lag) && slot in Next(s, step).value.rows
    ensures var row := Next(s, step).value.rows[slot];
            || s.now <= row.createdAt + lag
            || (slot in s.rows && row.createdAt == s.rows[slot].createdAt
                && row.fingerprint == s.rows[slot].fingerprint)
  {}

  lemma StepLookersKnow(s: State, step: Step, lag: nat)
    requires Next(s, step).Some? && LookersKnow(s, lag) && FreshStamp(s, step, lag)
    ensures LookersKnow(Next(s, step).value, lag)
  {
    var t := Next(s, step).value;
    forall id, slot | id in t.requests && t.requests[id].At(slot) && HasLooked(t.requests[id])
      ensures Knows(t, t.requests[id], slot, lag)
    {
      assert s.requests[id].At(slot);
      if HasLooked(s.requests[id]) {
        assert Knows(s, s.requests[id], slot, lag);
        if slot in t.rows {
          StampedNowOrBefore(s, step, slot, lag);
        }
      } else {
        assert slot == Slot(s.requests[id].tenant, s.requests[id].key.value);
      }
    }
  }

  /** Where holders own, a quick reader's takeover mixes nothing, and neither does a free key. */
  lemma QuickMixesNothing(s: State, step: Step, lag: nat)
    requires Next(s, step).Some? && Owned(s) && LookersKnow(s, lag) && Quick(s, lag)
    ensures !Mixes(s, step)
  {
    if step.Do? && s.requests[step.id].key.Some? {
      var q := s.requests[step.id];
      var slot := Slot(q.tenant, q.key.value);
      assert q.At(slot);
      if q.phase.Waiting? {
        assert Knows(s, q, slot, lag);
      }
      forall id | id in s.requests && s.requests[id].At(slot) && s.requests[id].Claimed()
        ensures slot in s.rows
      {
        assert s.requests[id].Holds(slot) ==> OpenAt(s.rows, slot);
        assert s.requests[id].HasRecorded(slot) ==> Answered(s.rows, slot);
      }
    }
  }

  lemma {:induction false} QuickFrom(s: State, steps: seq<Step>, lag: nat)
    requires Run(s, steps).Some? && Owned(s) && OpenMeansHeld(s) && LookersKnow(s, lag)
    requires NeverTakesFromTheLiving(s, steps) && StampsWithin(s, steps, lag)
    requires Throughout(s, steps, (u: State) => Quick(u, lag))
    ensures NeverMixes(s, steps)
    decreases |steps|
  {
    if steps != [] {
      QuickMixesNothing(s, steps[0], lag);
      KeepsOwned(s, steps[0]);
      StepOpenMeansHeld(s, steps[0]);
      StepLookersKnow(s, steps[0], lag);
      QuickFrom(Next(s, steps[0]).value, steps[1..], lag);
    }
  }

  /** If besides every takeover's clock is read soon enough after its look, no run mixes requests. */
  lemma QuickReadersMixNothing(s: State, steps: seq<Step>, lag: nat)
    requires Initial(s) && Run(s, steps).Some? && NeverTakesFromTheLiving(s, steps)
    requires StampsWithin(s, steps, lag) && Throughout(s, steps, (u: State) => Quick(u, lag))
    ensures NeverMixes(s, steps)
  {
    QuickFrom(s, steps, lag);
  }

  /** Where handlers are prompt and readers quick, every replay is the answer to the same request. */
  lemma TimelyRunsReplayRightly(s: State, steps: seq<Step>, lag: nat, id: Id)
    requires Initial(s) && Run(s, steps).Some? && StampsWithin(s, steps, lag)
    requires Throughout(s, steps, Prompt) && Throughout(s, steps, (u: State) => Quick(u, lag))
    requires IsReplayed(Run(s, steps).value, id)
    ensures AnsweredByItsLike(Run(s, steps).value, id)
  {
    PromptHandlersKeepTheirKeys(s, steps);
    QuickReadersMixNothing(s, steps, lag);
    EveryReplayAnswersTheSameRequest(s, steps, id);
  }

  lemma {:induction false} RunAppend(s: State, a: seq<Step>, b: seq<Step>)
    ensures Run(s, a + b) == if Run(s, a).None? then None else Run(Run(s, a).value, b)
    decreases |a|
  {
    if a == [] {
      assert a + b == b;
    } else {
      assert (a + b)[1..] == a[1..] + b;
      if Next(s, a[0]).Some? {
        RunAppend(Next(s, a[0]).value, a[1..], b);
      }
    }
  }

  lemma RunOnce(s: State, a: seq<Step>, step: Step)
    requires Run(s, a).Some? && Next(Run(s, a).value, step).Some?
    ensures Run(s, a + [step]) == Next(Run(s, a).value, step)
  {
    RunAppend(s, a, [step]);
    assert [step][1..] == [];
    assert Run(Next(Run(s, a).value, step).value, []) == Some(Next(Run(s, a).value, step).value);
  }

  // ----- Two runs that go wrong -----

  const CaseSlot := Slot("tenant", "key")
  const CaseA := Fingerprint("POST", "/a", "w", "x")
  const CaseB := Fingerprint("POST", "/b", "w", "y")
  const CaseAnswer := Response(200, "a")

  const NotBegun := [Fresh, Fresh, Fresh, Fresh, Fresh]

  /** Five requests under one key: the first `likeA` ask for one thing, the others for another. */
  function Print(likeA: nat, id: Id): Fingerprint { if id < likeA then CaseA else CaseB }

  function Player(likeA: nat, id: Id, phase: Phase): Request {
    Request("tenant", Some("key"), Print(likeA, id), false, phase)
  }

  function Staged(likeA: nat, rows: Rows, now: int, phases: seq<Phase>): State {
    State(rows, map id: nat | id < |phases| :: Player(likeA, id, phases[id]), now)
  }

  /** One row, at the key. */
  function Sole(fingerprint: Fingerprint, stamp: int, holder: Id): Rows {
    map[CaseSlot := Row(fingerprint, None, stamp, holder, None)]
  }

  function AnsweredBy(fingerprint: Fingerprint, stamp: int, holder: Id, writer: Id): Rows {
    map[CaseSlot := Row(fingerprint, Some(CaseAnswer), stamp, holder, Some(writer))]
  }

  /** The run takes from nobody living, its handlers are prompt and its stamps exact. */
  ghost predicate Calm(s: State, steps: seq<Step>)
    requires Run(s, steps).Some?
  {
    NeverTakesFromTheLiving(s, steps) && Throughout(s, steps, Prompt) && StampsWithin(s, steps, 0)
  }

  /** The run's readers are quick and its stamps exact. */
  ghost predicate Brisk(s: State, steps: seq<Step>)
    requires Run(s, steps).Some?
  {
    Throughout(s, steps, (u: State) => Quick(u, 0)) && StampsWithin(s, steps, 0)
  }

  ghost predicate Reaches(calm: bool, s: State, steps: seq<Step>, t: State) {
    Run(s, steps) == Some(t) && if calm then Calm(s, steps) else Brisk(s, steps)
  }

  lemma {:induction false} ReachesOn(calm: bool, s: State, a: seq<Step>, t: State, step: Step, u: State)
    requires Reaches(calm, s, a, t) && Next(t, step) == Some(u) && FreshStamp(t, step, 0)
    requires if calm then !TakesFromTheLiving(t, step) && Prompt(u) else Quick(u, 0)
    ensures Reaches(calm, s, a + [step], u)
    decreases |a|
  {
    RunOnce(s, a, step);
    var all := a + [step];
    if a == [] {
      assert all == [step] && all[1..] == [];
    } else {
      assert all[0] == a[0] && all[1..] == a[1..] + [step];
      ReachesOn(calm, Next(s, a[0]).value, a[1..], t, step, u);
    }
  }

  /** The five, from the start, can come to this, calmly or else briskly. */
  ghost predicate Attainable(calm: bool, likeA: nat, rows: Rows, now: int, phases: seq<Phase>) {
    exists steps :: Reaches(calm, Staged(likeA, map[], 0, NotBegun), steps, Staged(likeA, rows, now, phases))
  }

  predicate PromptPhases(phases: seq<Phase>, now: int) {
    forall i | 0 <= i < |phases| && phases[i].Running? :: now < phases[i].since + StaleReservation
  }

  predicate InOrder(calm: bool, phases: seq<Phase>, now: int) {
    if calm then PromptPhases(phases, now)
    else forall i | 0 <= i < |phases| && phases[i].Waiting? :: phases[i].olderThan < phases[i].lookedAt
  }

  lemma Begins(calm: bool, likeA: nat)
    ensures Attainable(calm, likeA, map[], 0, NotBegun)
  {
    var s := Staged(likeA, map[], 0, NotBegun);
    assert Reaches(calm, s, [], s);
  }

  lemma Passes(calm: bool, likeA: nat, rows: Rows, now: int, phases: seq<Phase>, to: int)
    requires Attainable(calm, likeA, rows, now, phases) && now <= to && InOrder(calm, phases, to)
    ensures Attainable(calm, likeA, rows, to, phases)
  {
    var s, t, u := Staged(likeA, map[], 0, NotBegun), Staged(likeA, rows, now, phases), Staged(likeA, rows, to, phases);
    var steps :| Reaches(calm, s, steps, t);
    ReachesOn(calm, s, steps, t, Tick(to), u);
    assert Reaches(calm, s, steps + [Tick(to)], u);
  }

  /** One action of one of them: what it does to the table and to its own phase. */
  lemma Acts(calm: bool, likeA: nat, rows: Rows, now: int, phases: seq<Phase>, id: Id, action: Action,
             rows': Rows, phase: Phase)
    requires Attainable(calm, likeA, rows, now, phases)
    requires id < |phases| && Act(rows, now, id, Player(likeA, id, phases[id]), action) == Some(Effect(rows', phase))
    requires calm && action.TakeOver? && CaseSlot in rows && rows[CaseSlot].holder < |phases|
             ==> !phases[rows[CaseSlot].holder].Running?
    requires action.Insert? || action.TakeOver? ==> action.stamp == now
    requires InOrder(calm, phases[id := phase], now)
    ensures Attainable(calm, likeA, rows', now, phases[id := phase])
  {
    var s, t := Staged(likeA, map[], 0, NotBegun), Staged(likeA, rows, now, phases);
    var u, step := Staged(likeA, rows', now, phases[id := phase]), Do(id, action);
    var steps :| Reaches(calm, s, steps, t);
    assert t.requests[id := Player(likeA, id, phase)] == u.requests;
    assert Next(t, step) == Some(u);
    ReachesOn(calm, s, steps, t, step, u);
    assert Reaches(calm, s, steps + [step], u);
  }

  lemma Wins(calm: bool, likeA: nat, now: int, phases: seq<Phase>, id: Id)
    requires Attainable(calm, likeA, map[], now, phases) && id < |phases| && phases[id].Fresh?
    requires InOrder(calm, phases, now)
    ensures Attainable(calm, likeA, Sole(Print(likeA, id), now, id), now, phases[id := Running(true, false, now)])
  {
    var rows := Sole(Print(likeA, id), now, id);
    assert Inserted(map[], CaseSlot, Print(likeA, id), id, now) == rows;
    Acts(calm, likeA, map[], now, phases, id, Action.Insert(now), rows, Running(true, false, now));
  }

  /** Too late to insert: it looks, and finds its like in flight or the answer. */
  lemma Looks(calm: bool, likeA: nat, rows: Rows, now: int, phases: seq<Phase>, id: Id)
    requires Attainable(calm, likeA, rows, now, phases) && id < |phases| && phases[id].Fresh?
    requires CaseSlot in rows && InOrder(calm, phases, now)
    ensures Attainable(calm, likeA, rows, now, phases[id := Seen(rows, now, CaseSlot, Print(likeA, id))])
  {
    Acts(calm, likeA, rows, now, phases, id, Action.Insert(now), rows, Looking);
    var looking := phases[id := Looking];
    var seen := Seen(rows, now, CaseSlot, Print(likeA, id));
    assert looking[id := seen] == phases[id := seen];
    Acts(calm, likeA, rows, now, looking, id, Look, rows, seen);
  }

  /** It reads the clock and takes over what is old enough. */
  lemma Takes(calm: bool, likeA: nat, fingerprint: Fingerprint, stamp: int, holder: Id, now: int, phases: seq<Phase>,
              id: Id)
    requires Attainable(calm, likeA, Sole(fingerprint, stamp, holder), now, phases)
    requires id < |phases| && phases[id].Comparing? && stamp + StaleReservation <= now
    requires InOrder(calm, phases, now)
    requires if calm then holder < |phases| && !phases[holder].Running? && holder != id
             else now < phases[id].lookedAt + StaleReservation
    ensures Attainable(calm, likeA, Sole(fingerprint, now, id), now, phases[id := Running(true, false, now)])
  {
    var rows, waiting := Sole(fingerprint, stamp, holder), Waiting(phases[id].lookedAt, now - StaleReservation);
    Acts(calm, likeA, rows, now, phases, id, ReadClock, rows, waiting);
    var late, working := phases[id := waiting], Running(true, false, now);
    assert late[id := working] == phases[id := working];
    assert TakenOver(rows, CaseSlot, now - StaleReservation, id, now) == Sole(fingerprint, now, id);
    Acts(calm, likeA, rows, now, late, id, Action.TakeOver(now), Sole(fingerprint, now, id), working);
  }

  lemma Records(calm: bool, likeA: nat, fingerprint: Fingerprint, stamp: int, holder: Id, now: int, phases: seq<Phase>,
                id: Id)
    requires Attainable(calm, likeA, Sole(fingerprint, stamp, holder), now, phases)
    requires id < |phases| && phases[id].Running? && phases[id].claimed && InOrder(calm, phases, now)
    ensures Attainable(calm, likeA, AnsweredBy(fingerprint, stamp, holder, id), now,
                       phases[id := phases[id].(recorded := true)])
  {
    var rows, after := Sole(fingerprint, stamp, holder), AnsweredBy(fingerprint, stamp, holder, id);
    assert Completed(rows, CaseSlot, CaseAnswer, id) == after;
    Acts(calm, likeA, rows, now, phases, id, Record(CaseAnswer), after, phases[id].(recorded := true));
  }

  lemma Exits(calm: bool, likeA: nat, fingerprint: Fingerprint, stamp: int, holder: Id, now: int, phases: seq<Phase>,
              id: Id)
    requires Attainable(calm, likeA, Sole(fingerprint, stamp, holder), now, phases)
    requires id < |phases| && phases[id].Running? && phases[id].claimed && !phases[id].recorded
    requires InOrder(calm, phases, now)
    ensures Attainable(calm, likeA, map[], now, phases[id := Ended(Finished)])
  {
    var rows := Sole(fingerprint, stamp, holder);
    assert Released(rows, CaseSlot) == map[];
    Acts(calm, likeA, rows, now, phases, id, Exit, map[], Ended(Finished));
  }

  lemma Dies(calm: bool, likeA: nat, rows: Rows, now: int, phases: seq<Phase>, id: Id)
    requires Attainable(calm, likeA, rows, now, phases)
    requires id < |phases| && phases[id].Running? && InOrder(calm, phases, now)
    ensures Attainable(calm, likeA, rows, now, phases[id := Killed])
  {
    Acts(calm, likeA, rows, now, phases, id, Kill, rows, Killed);
  }

  /** A request dies; five minutes on, two like it look, one takes its row over and ends, and the
      other stalls. */
  lemma LookedAndStalled()
    ensures Attainable(true, 3, map[], 300, [Killed, Comparing(300), Ended(Finished), Fresh, Fresh])
  {
    var working := Running(true, false, 300);
    Begins(true, 3);
    Wins(true, 3, 0, NotBegun, 0);
    var p := NotBegun[0 := Running(true, false, 0)];
    Dies(true, 3, Sole(CaseA, 0, 0), 0, p, 0);
    p := p[0 := Killed];
    Passes(true, 3, Sole(CaseA, 0, 0), 0, p, 300);
    Looks(true, 3, Sole(CaseA, 0, 0), 300, p, 1);
    p := p[1 := Comparing(300)];
    Looks(true, 3, Sole(CaseA, 0, 0), 300, p, 2);
    p := p[2 := Comparing(300)];
    Takes(true, 3, CaseA, 0, 0, 300, p, 2);
    p := p[2 := working];
    Exits(true, 3, CaseA, 300, 2, 300, p, 2);
    assert p[2 := Ended(Finished)] == [Killed, Comparing(300), Ended(Finished), Fresh, Fresh];
  }

  /** A different request reserves the key and dies; five minutes on, the stalled one reads the clock,
      takes that row over and records in it, and a retry of the different one is replayed that. */
  lemma AnsweredLate()
    ensures Attainable(true, 3, AnsweredBy(CaseB, 600, 1, 1), 600,
                       [Killed, Running(true, true, 600), Ended(Finished), Killed, Ended(Replayed(CaseAnswer))])
  {
    LookedAndStalled();
    var p := [Killed, Comparing(300), Ended(Finished), Fresh, Fresh];
    Wins(true, 3, 300, p, 3);
    p := p[3 := Running(true, false, 300)];
    Dies(true, 3, Sole(CaseB, 300, 3), 300, p, 3);
    p := p[3 := Killed];
    Passes(true, 3, Sole(CaseB, 300, 3), 300, p, 600);
    Takes(true, 3, CaseB, 300, 3, 600, p, 1);
    p := p[1 := Running(true, false, 600)];
    Records(true, 3, CaseB, 600, 1, 600, p, 1);
    p := p[1 := Running(true, true, 600)];
    Looks(true, 3, AnsweredBy(CaseB, 600, 1, 1), 600, p, 4);
    assert p[4 := Ended(Replayed(CaseAnswer))]
        == [Killed, Running(true, true, 600), Ended(Finished), Killed, Ended(Replayed(CaseAnswer))];
  }

  /** A retry takes the key while the first request is still at work, ends and frees it; a different
      one reserves it, and the first one's answer lands there and is replayed to its retry. */
  lemma AnswerLandsElsewhere()
    ensures Attainable(false, 2, AnsweredBy(CaseB, 300, 2, 0), 300,
                       [Running(true, true, 0), Ended(Finished), Running(true, false, 300), Ended(Replayed(CaseAnswer)),
                        Fresh])
  {
    var first, later := Running(true, false, 0), Running(true, false, 300);
    Begins(false, 2);
    Wins(false, 2, 0, NotBegun, 0);
    var p := NotBegun[0 := first];
    Passes(false, 2, Sole(CaseA, 0, 0), 0, p, 300);
    Looks(false, 2, Sole(CaseA, 0, 0), 300, p, 1);
    p := p[1 := Comparing(300)];
    Takes(false, 2, CaseA, 0, 0, 300, p, 1);
    p := p[1 := later];
    Exits(false, 2, CaseA, 300, 1, 300, p, 1);
    p := p[1 := Ended(Finished)];
    Wins(false, 2, 300, p, 2);
    p := p[2 := later];
    Records(false, 2, CaseB, 300, 2, 300, p, 0);
    p := p[0 := Running(true, true, 0)];
    Looks(false, 2, AnsweredBy(CaseB, 300, 2, 0), 300, p, 3);
    assert p[3 := Ended(Replayed(CaseAnswer))]
        == [Running(true, true, 0), Ended(Finished), later, Ended(Replayed(CaseAnswer)), Fresh];
  }

  /** The run replays `id` an answer to a request it never made. */
  ghost predicate ReplaysWrongly(s: State, steps: seq<Step>, id: Id) {
    && Initial(s) && Run(s, steps).Some?
    && IsReplayed(Run(s, steps).value, id) && !AnsweredByItsLike(Run(s, steps).value, id)
  }

  lemma WrongAtTheEnd(calm: bool, likeA: nat, stamp: int, holder: Id, writer: Id, now: int, phases: seq<Phase>, id: Id)
    requires Attainable(calm, likeA, AnsweredBy(CaseB, stamp, holder, writer), now, phases)
    requires writer < likeA <= id < |phases| && phases[id] == Ended(Replayed(CaseAnswer))
    ensures exists s, steps ::
              ReplaysWrongly(s, steps, id) && !NeverMixes(s, steps) && if calm then Calm(s, steps) else Brisk(s, steps)
  {
    var s := Staged(likeA, map[], 0, NotBegun);
    var t := Staged(likeA, AnsweredBy(CaseB, stamp, holder, writer), now, phases);
    var steps :| Reaches(calm, s, steps, t);
    assert t.requests[id] == Player(likeA, id, phases[id]) && t.requests[writer].fingerprint == CaseA;
    assert CaseA.target != CaseB.target;
    assert ReplaysWrongly(s, steps, id);
    WrongAnswersComeFromMixing(s, steps, id);
  }

  /** A handler that outlives its reservation can answer another request under the same key, however
      quick the readers. */
  lemma AReusedKeyAnswersTheWrongRequest()
    ensures exists s, steps, id ::
              && ReplaysWrongly(s, steps, id) && !NeverMixes(s, steps)
              && Brisk(s, steps) && !NeverTakesFromTheLiving(s, steps)
  {
    AnswerLandsElsewhere();
    WrongAtTheEnd(false, 2, 300, 2, 0, 300,
                  [Running(true, true, 0), Ended(Finished), Running(true, false, 300), Ended(Replayed(CaseAnswer)),
                   Fresh], 3);
    var s, steps :| ReplaysWrongly(s, steps, 3) && !NeverMixes(s, steps) && Brisk(s, steps);
    if NeverTakesFromTheLiving(s, steps) {
      QuickReadersMixNothing(s, steps, 0);
    }
  }

  /** And prompt handlers are not enough: a reader that dawdles between its look and the clock can
      take over, and answer, what a different request reserved, with nobody's key taken at work. */
  lemma ADawdlingReaderAnswersTheWrongRequest()
    ensures exists s, steps, id :: ReplaysWrongly(s, steps, id) && !NeverMixes(s, steps) && Calm(s, steps)
  {
    AnsweredLate();
    WrongAtTheEnd(true, 3, 600, 1, 1, 600,
                  [Killed, Running(true, true, 600), Ended(Finished), Killed, Ended(Replayed(CaseAnswer))], 4);
  }

  // ----- A killed request's key -----

  /** A reservation older than five minutes is never stuck: a request for the same thing that comes
      for it, undisturbed, takes it over. */
  lemma StaleKeysRecover(s: State, id: Id, slot: Slot)
    requires id in s.requests && s.requests[id].At(slot) && MayClaim(s.requests[id].form, s.requests[id].phase)
    requires OpenAt(s.rows, slot) && s.rows[slot].fingerprint == s.requests[id].fingerprint
    ensures var t := Run(s, [Do(id, Insert(s.now)), Do(id, Look), Do(id, ReadClock), Do(id, TakeOver(s.now))]);
            && t.Some? && id in t.value.requests
            && (t.value.requests[id].Holds(slot) <==> s.rows[slot].createdAt <= s.now - StaleReservation)
  {
    var steps := [Do(id, Insert(s.now)), Do(id, Look), Do(id, ReadClock), Do(id, TakeOver(s.now))];
    assert slot == Slot(s.requests[id].tenant, s.requests[id].key.value);
    assert steps[..0] == [] && Run(s, []) == Some(s);
    RunOnce(s, [], steps[0]);
    assert steps[..1] == [] + [steps[0]];
    RunOnce(s, steps[..1], steps[1]);
    assert steps[..2] == steps[..1] + [steps[1]];
    RunOnce(s, steps[..2], steps[2]);
    assert steps[..3] == steps[..2] + [steps[2]];
    RunOnce(s, steps[..3], steps[3]);
    assert steps == steps[..3] + [steps[3]];
  }

  // ----- The code -----

  /** The table of spent keys. Each method is one statement, committed on its own. */
  class KeyTable {
    var rows: Rows

    method Insert(slot: Slot, fingerprint: Fingerprint, id: Id, stamp: int) returns (won: bool)
      modifies this
      ensures won == (slot !in old(rows))
      ensures rows == Inserted(old(rows), slot, fingerprint, id, stamp)
    {
      won := slot !in rows;
      if won {
        rows := rows[slot := Row(fingerprint, None, stamp, id, None)];
      }
    }

    method TakeOver(slot: Slot, olderThan: int, id: Id, stamp: int) returns (won: bool)
      modifies this
      ensures won == Takeable(old(rows), slot, olderThan)
      ensures rows == TakenOver(old(rows), slot, olderThan, id, stamp)
    {
      won := slot in rows && rows[slot].response.None? && rows[slot].createdAt <= olderThan;
      if won {
        rows := rows[slot := rows[slot].(createdAt := stamp, holder := id)];
      }
    }

    method Complete(slot: Slot, response: Response, id: Id)
      modifies this
      ensures rows == Completed(old(rows), slot, response, id)
    {
      if slot in rows && rows[slot].response.None? {
        rows := rows[slot := rows[slot].(response := Some(response), writer := Some(id))];
      }
    }

    method Release(slot: Slot)
      modifies this
      ensures rows == Released(old(rows), slot)
    {
      if slot in rows && rows[slot].response.None? {
        rows := rows - {slot};
      }
    }
  }

  /** When a claim's statements and its clock reading happen. */
  datatype Moments = Moments(inserted: int, looked: int, read: int, taken: int)

  /** What reserving, looking, reading the clock and taking over come to when nothing else runs in
      between. */
  function ClaimAlone(rows: Rows, at: Moments, id: Id, slot: Slot, fingerprint: Fingerprint): Effect {
    var first := ActKeyed(rows, at.inserted, id, slot, fingerprint, false, Fresh, Action.Insert(at.inserted)).value;
    if first.phase.Running? then first
    else
      var second := ActKeyed(first.rows, at.looked, id, slot, fingerprint, false, Looking, Look).value;
      if second.phase.Ended? then second
      else
        var third := ActKeyed(second.rows, at.read, id, slot, fingerprint, false, second.phase, ReadClock).value;
        ActKeyed(third.rows, at.taken, id, slot, fingerprint, false, third.phase, Action.TakeOver(at.taken)).value
  }

  /** One request's dealings with its key. Without a key it does nothing. */
  class IdempotentOperation {
    const table: KeyTable
    const slot: Option<Slot>
    const id: Id
    var claimed: bool
    var recorded: bool

    /** Only a key can be claimed. */
    predicate Valid()
      reads this
    {
      claimed ==> slot.Some?
    }

    constructor (table: KeyTable, slot: Option<Slot>, id: Id)
      ensures Valid()
      ensures this.table == table && this.slot == slot && this.id == id && !claimed && !recorded
    {
      this.table, this.slot, this.id := table, slot, id;
      claimed, recorded := false, false;
    }

    /** `Some` is the answer or the refusal raised past the handler. */
    method Claim(fingerprint: Fingerprint, at: Moments) returns (raised: Option<Outcome>)
      requires Valid()
      modifies this, table
      ensures Valid() && recorded == old(recorded)
      ensures slot.None? ==> raised == None && !claimed && table.rows == old(table.rows)
      ensures slot.Some? ==>
                var e := ClaimAlone(old(table.rows), at, id, slot.value, fingerprint);
                && table.rows == e.rows
                && claimed == (old(claimed) || e.phase.Running?)
                && raised == if e.phase.Ended? then Some(e.phase.outcome) else None
    {
      if slot.None? {
        return None;
      }
      var won := table.Insert(slot.value, fingerprint, id, at.inserted);
      if !won {
        var row := table.rows[slot.value];
        if row.fingerprint != fingerprint {
          return Some(Conflicting);
        }
        if row.response.Some? {
          return Some(Replayed(row.response.value));
        }
        won := table.TakeOver(slot.value, at.read - StaleReservation, id, at.taken);
        if !won {
          return Some(Busy);
        }
      }
      claimed := true;
      return None;
    }

    method Store(response: Response)
      requires Valid()
      modifies this, table
      ensures Valid() && claimed == old(claimed) && recorded == (old(recorded) || claimed)
      ensures table.rows == if claimed then Completed(old(table.rows), slot.value, response, id) else old(table.rows)
      ensures claimed && OpenAt(old(table.rows), slot.value) ==>
                && slot.value in table.rows && table.rows[slot.value].response == Some(response)
                && table.rows[slot.value].fingerprint == old(table.rows)[slot.value].fingerprint
                && table.rows - {slot.value} == old(table.rows) - {slot.value}
      ensures !claimed || !OpenAt(old(table.rows), slot.value) ==> table.rows == old(table.rows)
    {
      if !claimed {
        return;
      }
      table.Complete(slot.value, response, id);
      recorded := true;
    }

    method AbandonUnlessRecorded()
      requires Valid()
      modifies table
      ensures Valid()
      ensures table.rows == if claimed && !recorded then Released(old(table.rows), slot.value) else old(table.rows)
      ensures table.rows == if claimed && !recorded && OpenAt(old(table.rows), slot.value)
                            then old(table.rows) - {slot.value} else old(table.rows)
    {
      if !claimed || recorded {
        return;
      }
      table.Release(slot.value);
    }
  }
}
