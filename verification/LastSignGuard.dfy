/** The last-sign guard: a persisted high-water mark over (height, round, step) that refuses to
    sign twice at one place, across restarts. SHA-256 is taken to be free of collisions, so the
    stored digest is modelled by the payload it stands for. */
module LastSignGuard {
  import opened BftTypes

  datatype VoteStep = StepProposal | StepPrevote | StepPrecommit | StepOther

  function Ordinal(s: VoteStep): nat {
    match s case StepProposal => 0 case StepPrevote => 1 case StepPrecommit => 2 case StepOther => 99
  }

  /** A place to sign at. */
  datatype Place = Place(height: nat, round: u32, step: nat)

  predicate Below(p: Place, q: Place) {
    p.height < q.height || (p.height == q.height && (p.round < q.round || (p.round == q.round && p.step < q.step)))
  }

  predicate AtMost(p: Place, q: Place) {
    p == q || Below(p, q)
  }

  /** The last place signed at, and what was signed there (`None` when no bytes were recorded). */
  datatype SignState = SignState(place: Place, digest: Option<Bytes>)

  datatype Request = Request(height: nat, round: u32, step: VoteStep, payload: Bytes)

  function PlaceOf(q: Request): Place {
    Place(q.height, q.round, Ordinal(q.step))
  }

  function DigestOf(payload: Bytes): Option<Bytes> {
    if payload == [] then None else Some(payload)
  }

  const FRESH_STATE: SignState := SignState(Place(0, 0, 0), None)

  /** The guard: its memory, absent until it is initialised, and the file behind it. */
  datatype Guard = Guard(memory: Option<SignState>, file: Option<SignState>)

  /** Start-up: load the file, or create it. `writes` says whether the disk cooperates. */
  function Init(g: Guard, writes: bool): (Guard, bool) {
    if g.memory.Some? then (g, true)
    else if g.file.Some? then (Guard(g.file, g.file), true)
    else if writes then (Guard(Some(FRESH_STATE), Some(FRESH_STATE)), true)
    else (g, false)
  }

  /** A rebroadcast of exactly what was last signed. */
  predicate IsReplay(s: SignState, q: Request) {
    PlaceOf(q) == s.place && q.payload != [] && s.digest == Some(q.payload)
  }

  /** The check and, on success, the record. Memory is advanced before the write, and stays
      advanced when the write fails. */
  function Check(g: Guard, q: Request, persists: bool): (Guard, bool) {
    if g.memory.None? || q.step == StepOther then (g, true)
    else if IsReplay(g.memory.value, q) then (g, true)
    else if !Below(g.memory.value.place, PlaceOf(q)) then (g, false)
    else
      var next := Some(SignState(PlaceOf(q), DigestOf(q.payload)));
      if persists then (Guard(next, next), true) else (Guard(next, g.file), false)
  }

  /** The guard as the process holds it. */
  class LastSignGuard {
    var memory: Option<SignState>
    var file: Option<SignState>

    ghost function View(): Guard
      reads this
    {
      Guard(memory, file)
    }

    /** A process start: nothing in memory, the file as the last process left it. */
    constructor (file: Option<SignState>)
      ensures View() == Guard(None, file)
    {
      this.memory, this.file := None, file;
    }

    method Initialise(writes: bool) returns (ok: bool)
      modifies this
      ensures (View(), ok) == Init(old(View()), writes)
    {
      if memory.Some? {
        return true;
      }
      if file.Some? {
        memory := file;
        return true;
      }
      if !writes {
        return false;
      }
      file := Some(FRESH_STATE);
      memory := Some(FRESH_STATE);
      return true;
    }

    method CheckAndRecordWithBytes(q: Request, persists: bool) returns (ok: bool)
      modifies this
      ensures (View(), ok) == Check(old(View()), q, persists)
    {
      if memory.None? {
        return true;
      }
      if q.step == StepOther {
        return true;
      }
      var current, attempted := memory.value.place, PlaceOf(q);
      if attempted == current && q.payload != [] {
        if memory.value.digest.Some? && memory.value.digest.value == q.payload {
          return true;
        }
        return false;
      }
      if AtMost(attempted, current) {
        return false;
      }
      memory := Some(SignState(attempted, DigestOf(q.payload)));
      if !persists {
        return false;
      }
      file := memory;
      return true;
    }

    method CurrentState() returns (s: Option<SignState>)
      ensures s == memory
    {
      s := memory;
    }
  }

  // ---- runs of signing, crashing and restarting ----

  datatype GuardEvent = Sign(q: Request, persists: bool) | Restart(writes: bool)

  /** The guard with its history: every consensus request it ever granted, and in order those
      that were not rebroadcasts. */
  datatype History = History(guard: Guard, granted: set<Request>, recorded: seq<Request>)

  function Extend(t: History, ev: GuardEvent): History {
    match ev
    case Restart(writes) => t.(guard := Init(Guard(None, t.guard.file), writes).0)
    case Sign(q, persists) =>
      var (g, ok) := Check(t.guard, q, persists);
      if ok && t.guard.memory.Some? && q.step != StepOther
      then History(g, t.granted + {q}, if IsReplay(t.guard.memory.value, q) then t.recorded else t.recorded + [q])
      else t.(guard := g)
  }

  function Run(t: History, evs: seq<GuardEvent>): History
    decreases |evs|
  {
    if evs == [] then t else Run(Extend(t, evs[0]), evs[1..])
  }

  /** A rebroadcast request for something memory holds and the file does not. */
  predicate UnsavedReplay(g: Guard, q: Request) {
    g.memory.Some? && g.memory != g.file && q.step != StepOther && IsReplay(g.memory.value, q)
  }

  /** The guard is in use, and no unsaved vote is rebroadcast; a process that stops at its first
      failed persist never does that. */
  predicate Careful(g: Guard, ev: GuardEvent) {
    ev.Sign? ==> !UnsavedReplay(g, ev.q)
  }

  predicate CarefulRun(t: History, evs: seq<GuardEvent>)
    decreases |evs|
  {
    evs == [] || (Careful(t.guard, evs[0]) && CarefulRun(Extend(t, evs[0]), evs[1..]))
  }

  /** What was granted at `q` is remembered, or lies below what is. */
  predicate Covered(s: SignState, q: Request) {
    Below(PlaceOf(q), s.place) || (PlaceOf(q) == s.place && s.digest == DigestOf(q.payload))
  }

  /** The file covers every grant, and memory is never behind the file. */
  ghost predicate FileCovers(t: History) {
    && (t.granted != {} || t.guard.memory.Some? ==> t.guard.file.Some?)
    && (t.guard.memory.Some? && t.guard.file.Some? ==>
          t.guard.memory == t.guard.file || Below(t.guard.file.value.place, t.guard.memory.value.place))
    && (forall q :: q in t.granted ==> q.step != StepOther && t.guard.file.Some? && Covered(t.guard.file.value, q))
    && (forall x, y :: x in t.granted && y in t.granted && PlaceOf(x) == PlaceOf(y) ==> x == y)
    && (forall i :: 0 <= i < |t.recorded| ==> t.recorded[i] in t.granted)
    && (forall i, j :: 0 <= i < j < |t.recorded| ==> Below(PlaceOf(t.recorded[i]), PlaceOf(t.recorded[j])))
  }

  lemma SamePlaceSameStep(x: Request, y: Request)
    requires PlaceOf(x) == PlaceOf(y)
    ensures x.step == y.step && x.height == y.height && x.round == y.round
  {
  }

  /** A grant that is not a rebroadcast is above everything granted before. */
  lemma FreshGrant(t: History, q: Request)
    requires FileCovers(t) && t.guard.memory.Some? && q.step != StepOther && Below(t.guard.memory.value.place, PlaceOf(q))
    ensures FileCovers(Extend(t, Sign(q, true)))
  {
    var t' := Extend(t, Sign(q, true));
    forall x | x in t.granted ensures Below(PlaceOf(x), PlaceOf(q)) {
      assert Covered(t.guard.file.value, x);
    }
    assert t'.recorded == t.recorded + [q];
  }

  lemma ReplayGrant(t: History, q: Request)
    requires FileCovers(t) && t.guard.memory.Some? && t.guard.memory == t.guard.file && q.step != StepOther
    requires IsReplay(t.guard.memory.value, q)
    ensures forall x :: x in t.granted && PlaceOf(x) == PlaceOf(q) ==> x == q
    ensures FileCovers(Extend(t, Sign(q, true))) && FileCovers(Extend(t, Sign(q, false)))
  {
    forall x | x in t.granted && PlaceOf(x) == PlaceOf(q) ensures x == q {
      assert Covered(t.guard.file.value, x);
      SamePlaceSameStep(x, q);
    }
  }

  lemma StepCovers(t: History, ev: GuardEvent)
    requires FileCovers(t) && Careful(t.guard, ev)
    ensures FileCovers(Extend(t, ev))
  {
    match ev {
      case Restart(writes) =>
      case Sign(q, persists) =>
        if t.guard.memory.Some? && q.step != StepOther {
          if IsReplay(t.guard.memory.value, q) {
            ReplayGrant(t, q);
          } else if Below(t.guard.memory.value.place, PlaceOf(q)) && persists {
            FreshGrant(t, q);
          }
        }
    }
  }

  lemma {:induction false} RunCovers(t: History, evs: seq<GuardEvent>)
    requires FileCovers(t) && CarefulRun(t, evs)
    ensures FileCovers(Run(t, evs))
    decreases |evs|
  {
    if evs != [] {
      StepCovers(t, evs[0]);
      RunCovers(Extend(t, evs[0]), evs[1..]);
    }
  }

  ghost predicate DoubleGrant(t: History) {
    exists x, y :: x in t.granted && y in t.granted && PlaceOf(x) == PlaceOf(y) && x.payload != y.payload
  }

  /** Guard safety over every careful run of signatures, failed writes, crashes and restarts, from
      whatever file the first process found: no place is granted for two payloads, and the grants
      that are not rebroadcasts strictly increase. */
  lemma NeverSignsTwice(file: Option<SignState>, evs: seq<GuardEvent>)
    requires CarefulRun(History(Guard(None, file), {}, []), evs)
    ensures var t := Run(History(Guard(None, file), {}, []), evs);
            !DoubleGrant(t) && forall i, j :: 0 <= i < j < |t.recorded| ==> Below(PlaceOf(t.recorded[i]), PlaceOf(t.recorded[j]))
  {
    RunCovers(History(Guard(None, file), {}, []), evs);
  }

  ghost predicate CanDoubleGrant(t: History) {
    exists evs :: CarefulRun(t, evs) && DoubleGrant(Run(t, evs))
  }

  /** The premise is exact: one signing call exposes the validator to a double signature if and only
      if it rebroadcasts a vote that memory holds but the file does not. */
  lemma CallSafeIff(t: History, q: Request, persists: bool)
    requires FileCovers(t) && t.guard.memory.Some? && q.step != StepOther
    ensures CanDoubleGrant(Extend(t, Sign(q, persists))) <==> UnsavedReplay(t.guard, q)
  {
    var t' := Extend(t, Sign(q, persists));
    if UnsavedReplay(t.guard, q) {
      var evs := Expose(t, q, persists);
      assert CarefulRun(t', evs) && DoubleGrant(Run(t', evs));
    } else {
      StepCovers(t, Sign(q, persists));
      forall evs | CarefulRun(t', evs) ensures !DoubleGrant(Run(t', evs)) {
        RunCovers(t', evs);
      }
    }
  }

  /** After the rebroadcast of an unsaved vote, a restart forgets it. */
  lemma Expose(t: History, q: Request, persists: bool) returns (evs: seq<GuardEvent>)
    requires FileCovers(t) && UnsavedReplay(t.guard, q)
    ensures CarefulRun(Extend(t, Sign(q, persists)), evs)
    ensures DoubleGrant(Run(Extend(t, Sign(q, persists)), evs))
  {
    var t0 := Extend(t, Sign(q, persists));
    var other := q.(payload := q.payload + [0]);
    evs := [Restart(true), Sign(other, true)];
    var t1 := Extend(t0, evs[0]);
    var t2 := Extend(t1, evs[1]);
    assert evs[1..] == [evs[1]] && evs[1..][1..] == [];
    assert Run(t0, evs) == Run(t1, evs[1..]) == Run(t2, []) == t2;
    assert t1.guard == Guard(t.guard.file, t.guard.file);
    assert PlaceOf(other) == PlaceOf(q) && Below(t1.guard.memory.value.place, PlaceOf(other));
    assert q in t2.granted && other in t2.granted && q.payload != other.payload;
    assert CarefulRun(t1, evs[1..]) by { assert CarefulRun(t2, []); }
  }

  /** A guard started without a file grants every consensus request but one: the proposal of round 0
      at height 0, whose place is the initial mark itself. */
  lemma FirstRequest(q: Request)
    requires q.step != StepOther
    ensures var g := Init(Guard(None, None), true).0;
            Check(g, q, true).1 <==> !(q.height == 0 && q.round == 0 && q.step == StepProposal)
  {
  }

  // ---- what is granted ----

  predicate AllSaved(evs: seq<GuardEvent>) {
    forall i :: 0 <= i < |evs| ==> evs[i].Sign? ==> evs[i].persists
  }

  /** The last thing recorded, or what the guard started with. */
  function LastRecorded(start: SignState, recorded: seq<Request>): SignState {
    if recorded == [] then start
    else
      var q := recorded[|recorded| - 1];
      SignState(PlaceOf(q), DigestOf(q.payload))
  }

  ghost predicate AtMark(start: SignState, t: History) {
    t.guard == Guard(Some(LastRecorded(start, t.recorded)), Some(LastRecorded(start, t.recorded)))
  }

  lemma {:induction false} SavedMark(start: SignState, t: History, evs: seq<GuardEvent>)
    requires AtMark(start, t) && AllSaved(evs)
    ensures AtMark(start, Run(t, evs))
    decreases |evs|
  {
    if evs != [] {
      assert evs[0].Sign? ==> evs[0].persists;
      assert AtMark(start, Extend(t, evs[0]));
      SavedMark(start, Extend(t, evs[0]), evs[1..]);
    }
  }

  /** While every write succeeds, over any signatures and restarts: a request is granted if and only if
      it lies above the last one recorded, or is that one again, bytes and all; a step outside the
      protocol is always let through and never recorded. */
  lemma GrantedIff(start: SignState, evs: seq<GuardEvent>, q: Request)
    requires AllSaved(evs)
    ensures var t := Run(History(Guard(Some(start), Some(start)), {}, []), evs);
            var last := LastRecorded(start, t.recorded);
            && (Check(t.guard, q, true).1
                <==> || q.step == StepOther || Below(last.place, PlaceOf(q))
                     || (PlaceOf(q) == last.place && q.payload != [] && last.digest == Some(q.payload)))
            && (q.step == StepOther ==> Extend(t, Sign(q, true)) == t)
  {
    SavedMark(start, History(Guard(Some(start), Some(start)), {}, []), evs);
  }

  /** Initialising again changes nothing. */
  lemma InitOnce(g: Guard, writes: bool, again: bool)
    requires Init(g, writes).1
    ensures Init(Init(g, writes).0, again) == (Init(g, writes).0, true) && Init(g, writes).0.memory.Some?
  {
  }

  /** Before it is initialised the guard lets everything through and remembers nothing. */
  lemma UnarmedGrantsAll(file: Option<SignState>, q: Request, persists: bool)
    ensures Check(Guard(None, file), q, persists) == (Guard(None, file), true)
  {
  }
}
