/** Write-once bucket evidence (bucket_evidence.py): a check followed by a write, made
    safe by an expiring claim (coordination.py).  Claim, clock and bucket are shared by any
    number of calls, whose requests interleave one at a time.  A write that was sent lands
    at some later moment or never, whatever its caller does meanwhile. */
module EvidenceLease {
  import opened Common

  type Bytes = string

  const LEASE_SECONDS := 3600

  /** The claim record of one evidence path. */
  datatype Owner = Owner(writer: nat, expiresAt: int)

  datatype Outcome = Wrote | Adopted | Conflict | Unavailable | Failed

  /** Where one `write_immutable` call stands: about to acquire, to look the path up, to
      write after finding nothing, waiting for the answer, or about to release; or over. */
  datatype Phase = Prepared | Holding | Absent | Sent | Releasing(outcome: Outcome) | Ended(outcome: Outcome)

  datatype Flight = NotSent | Flying | Landed

  /** `holds` from the acquisition of the claim to its release. */
  datatype Call = Call(content: Bytes, expiresAt: int, phase: Phase, holds: bool, flight: Flight)

  datatype World = World(now: int, claim: Option<Owner>, stored: Option<Bytes>, calls: map<nat, Call>)

  /** One request, answered or not, or the passing of time.  Each call has a writer ID of
      its own.  `Fail` is any exception, a timeout included, after which the claim is to be
      released; `Quit` is the end of a call without a release. */
  datatype Act =
    | Tick(seconds: nat)
    | Begin(writer: nat, content: Bytes)
    | Acquire(writer: nat)
    | AcquireUnanswered(writer: nat)
    | Check(writer: nat)
    | Send(writer: nat)
    | Land(writer: nat)
    | Answer(writer: nat)
    | Fail(writer: nat)
    | Release(writer: nat)
    | Quit(writer: nat)

  /** `_claim_expired` and `HubClaimStore.acquire`: a claim can be taken when there is none
      or the one that is there has expired. */
  predicate Available(claim: Option<Owner>, now: int) {
    claim.None? || claim.value.expiresAt <= now
  }

  /** The premise: the write lands before its lease expires and before its call releases. */
  predicate Timely(s: World, w: nat)
    requires w in s.calls
  {
    s.calls[w].holds && s.now < s.calls[w].expiresAt
  }

  function Enter(s: World, w: nat, phase: Phase): World
    requires w in s.calls
  {
    s.(calls := s.calls[w := s.calls[w].(phase := phase)])
  }

  /** The call owns the claim. */
  function Take(s: World, w: nat, phase: Phase): World
    requires w in s.calls
  {
    s.(claim := Some(Owner(w, s.calls[w].expiresAt)), calls := s.calls[w := s.calls[w].(phase := phase, holds := true)])
  }

  /** The world after one act; an act that the call is not ready for changes nothing, and
      with `timely` a write lands only within the premise. */
  function Next(s: World, a: Act, timely: bool): World {
    if a.Tick? then s.(now := s.now + a.seconds)
    else if a.Begin? then
      if a.writer in s.calls then s
      else s.(calls := s.calls[a.writer := Call(a.content, s.now + LEASE_SECONDS, Prepared, false, NotSent)])
    else if a.writer !in s.calls then s
    else CallStep(s, a, a.writer, timely)
  }

  function CallStep(s: World, a: Act, w: nat, timely: bool): World
    requires !a.Tick? && !a.Begin? && w in s.calls
  {
    var call := s.calls[w];
    match a
    case Acquire(_) =>
      if call.phase != Prepared then s
      else if Available(s.claim, s.now) then Take(s, w, Holding)
      else Enter(s, w, Ended(Unavailable))
    case AcquireUnanswered(_) =>
      if call.phase == Prepared && Available(s.claim, s.now) then Take(s, w, Ended(Failed)) else s
    case Check(_) =>
      if call.phase != Holding then s
      else if s.stored.None? then Enter(s, w, Absent)
      else Enter(s, w, Releasing(if s.stored.value == call.content then Adopted else Conflict))
    case Send(_) =>
      if call.phase == Absent then s.(calls := s.calls[w := call.(phase := Sent, flight := Flying)]) else s
    case Land(_) =>
      if call.flight == Flying && (timely ==> Timely(s, w)) then
        s.(stored := Some(call.content), calls := s.calls[w := call.(flight := Landed)])
      else s
    case Answer(_) =>
      if call.phase == Sent && call.flight == Landed then Enter(s, w, Releasing(Wrote)) else s
    case Fail(_) =>
      if call.phase in {Holding, Absent, Sent} then Enter(s, w, Releasing(Failed)) else s
    case Release(_) =>
      if !call.phase.Releasing? then s
      else
        World(s.now, if s.claim == Some(Owner(w, call.expiresAt)) then None else s.claim, s.stored,
              s.calls[w := call.(phase := Ended(call.phase.outcome), holds := false)])
    case Quit(_) =>
      if call.phase.Ended? then s
      else Enter(s, w, Ended(if call.phase.Releasing? then call.phase.outcome else Failed))
  }

  function Run(s: World, acts: seq<Act>, timely: bool): World {
    if acts == [] then s else Next(Run(s, acts[..|acts| - 1], timely), acts[|acts| - 1], timely)
  }

  predicate Succeeded(c: Call) {
    (c.phase.Releasing? || c.phase.Ended?) && c.phase.outcome in {Wrote, Adopted}
  }

  /** What a call may rely on: its phase and flight go together, and what it reported or
      landed is what is stored. */
  predicate Consistent(s: World, c: Call) {
    && (c.phase in {Holding, Absent, Sent} || c.phase.Releasing? ==> c.holds)
    && (c.phase in {Prepared, Holding, Absent} ==> c.flight == NotSent)
    && (Succeeded(c) || c.flight == Landed ==> s.stored == Some(c.content))
  }

  /** A call inside its lease owns the claim, so what it found absent is still absent; and
      whoever reported success carried the bytes that are there. */
  ghost predicate Exclusive(s: World) {
    && (forall w | w in s.calls && Timely(s, w) :: s.claim == Some(Owner(w, s.calls[w].expiresAt)))
    && (forall w | w in s.calls && Timely(s, w) && (s.calls[w].phase == Absent || s.calls[w].flight == Flying) :: s.stored.None?)
    && (forall w | w in s.calls :: Consistent(s, s.calls[w]))
  }

  ghost predicate Initial(s: World) {
    s.claim.None? && s.calls == map[]
  }

  lemma NextKeeps(s: World, a: Act)
    requires Exclusive(s)
    ensures Exclusive(Next(s, a, true))
    ensures s.stored.Some? ==> Next(s, a, true).stored == s.stored
  {
    if !a.Tick? && !a.Begin? && a.writer in s.calls {
      StepKeeps(s, a, a.writer);
    }
  }

  lemma StepKeeps(s: World, a: Act, w: nat)
    requires Exclusive(s) && !a.Tick? && !a.Begin? && w in s.calls
    ensures Exclusive(CallStep(s, a, w, true))
    ensures s.stored.Some? ==> CallStep(s, a, w, true).stored == s.stored
  {
    if a.Land? {
      LandKeeps(s, a, w);
    } else if a.Acquire? || a.AcquireUnanswered? {
      AcquireKeeps(s, a, w);
    } else if a.Release? {
      ReleaseKeeps(s, a, w);
    } else {
      OwnStepKeeps(s, a, w);
    }
  }

  lemma LandKeeps(s: World, a: Act, w: nat)
    requires Exclusive(s) && a.Land? && w in s.calls
    ensures Exclusive(CallStep(s, a, w, true))
    ensures s.stored.Some? ==> CallStep(s, a, w, true).stored == s.stored
  {
    var t := CallStep(s, a, w, true);
    forall v | v in t.calls && v != w ensures v in s.calls && t.calls[v] == s.calls[v] {}
  }

  lemma AcquireKeeps(s: World, a: Act, w: nat)
    requires Exclusive(s) && (a.Acquire? || a.AcquireUnanswered?) && w in s.calls
    ensures Exclusive(CallStep(s, a, w, true)) && CallStep(s, a, w, true).stored == s.stored
  {
    var t := CallStep(s, a, w, true);
    forall v | v in t.calls && v != w ensures v in s.calls && t.calls[v] == s.calls[v] {}
  }

  lemma ReleaseKeeps(s: World, a: Act, w: nat)
    requires Exclusive(s) && a.Release? && w in s.calls
    ensures Exclusive(CallStep(s, a, w, true)) && CallStep(s, a, w, true).stored == s.stored
  {
    var t := CallStep(s, a, w, true);
    forall v | v in t.calls && v != w ensures v in s.calls && t.calls[v] == s.calls[v] {}
  }

  /** Any other step is the call's own affair. */
  lemma OwnStepKeeps(s: World, a: Act, w: nat)
    requires Exclusive(s) && w in s.calls && (a.Check? || a.Send? || a.Answer? || a.Fail? || a.Quit?)
    ensures Exclusive(CallStep(s, a, w, true)) && CallStep(s, a, w, true).stored == s.stored
  {
    var t := CallStep(s, a, w, true);
    OwnStep(s, a, w);
    forall v | v in t.calls && v != w ensures v in s.calls && t.calls[v] == s.calls[v] {}
  }

  lemma OwnStep(s: World, a: Act, w: nat)
    requires Exclusive(s) && w in s.calls && (a.Check? || a.Send? || a.Answer? || a.Fail? || a.Quit?)
    ensures var t := CallStep(s, a, w, true);
            && t.now == s.now && t.claim == s.claim && t.stored == s.stored
            && t.calls == s.calls[w := t.calls[w]] && t.calls[w].holds == s.calls[w].holds && t.calls[w].expiresAt == s.calls[w].expiresAt
            && Consistent(t, t.calls[w])
            && (Timely(t, w) && (t.calls[w].phase == Absent || t.calls[w].flight == Flying) ==> t.stored.None?)
  {
  }

  lemma {:induction false} RunIsExclusive(s: World, acts: seq<Act>)
    requires Initial(s)
    ensures Exclusive(Run(s, acts, true))
  {
    if acts != [] {
      RunIsExclusive(s, acts[..|acts| - 1]);
      NextKeeps(Run(s, acts[..|acts| - 1], true), acts[|acts| - 1]);
    }
  }

  /** In every interleaving, with any crashes, timeouts and lost responses, the bytes of an
      evidence object never change once they are there. */
  lemma {:induction false} EvidenceIsWriteOnce(s: World, acts: seq<Act>, i: nat)
    requires Initial(s) && i <= |acts|
    ensures Run(s, acts[..i], true).stored.Some? ==> Run(s, acts, true).stored == Run(s, acts[..i], true).stored
  {
    if i == |acts| {
      assert acts[..i] == acts;
    } else {
      var front := acts[..|acts| - 1];
      EvidenceIsWriteOnce(s, front, i);
      assert front[..i] == acts[..i];
      RunIsExclusive(s, front);
      NextKeeps(Run(s, front, true), acts[|acts| - 1]);
    }
  }

  /** Any two calls that succeeded carried equal bytes: those of the object. */
  lemma SuccessfulCallsAgree(s: World, acts: seq<Act>, v: nat, w: nat)
    requires Initial(s)
    requires var t := Run(s, acts, true); v in t.calls && w in t.calls && Succeeded(t.calls[v]) && Succeeded(t.calls[w])
    ensures var t := Run(s, acts, true); t.calls[v].content == t.calls[w].content && t.stored == Some(t.calls[v].content)
  {
    RunIsExclusive(s, acts);
  }

  // ---- the premise is needed, for each write in flight and to the letter ----

  lemma {:induction false} RunKeepsBytes(s: World, acts: seq<Act>)
    requires Exclusive(s)
    ensures Exclusive(Run(s, acts, true))
    ensures s.stored.Some? ==> Run(s, acts, true).stored == s.stored
  {
    if acts != [] {
      RunKeepsBytes(s, acts[..|acts| - 1]);
      NextKeeps(Run(s, acts[..|acts| - 1], true), acts[|acts| - 1]);
    }
  }

  lemma {:induction false} RunKeepsContent(s: World, acts: seq<Act>, w: nat)
    requires w in s.calls
    ensures w in Run(s, acts, true).calls && Run(s, acts, true).calls[w].content == s.calls[w].content
  {
    if acts != [] { RunKeepsContent(s, acts[..|acts| - 1], w); }
  }

  /** A write that lands now, outside the premise, replaces other bytes. */
  predicate LandsOverOthers(s: World, w: nat) {
    && w in s.calls && s.calls[w].flight == Flying && !Timely(s, w)
    && s.stored.Some? && s.stored.value != s.calls[w].content
    && Next(s, Land(w), false).stored == Some(s.calls[w].content)
  }

  /** After these acts, other writes landing within the premise, that is possible. */
  predicate LetsLand(s: World, more: seq<Act>, w: nat) {
    LandsOverOthers(Run(s, more, true), w)
  }

  /** What a second writer does that begins after `n` seconds and meets no obstacle. */
  function SecondWriter(v: nat, content: Bytes, n: nat): seq<Act> {
    [Tick(n), Begin(v, content), Acquire(v), Check(v), Send(v), Land(v)]
  }

  lemma {:induction false} RunInTwo(s: World, a: seq<Act>, b: seq<Act>, timely: bool)
    ensures Run(s, a + b, timely) == Run(Run(s, a, timely), b, timely)
  {
    if b == [] {
      assert a + b == a;
    } else {
      assert (a + b)[..|a + b| - 1] == a + b[..|b| - 1];
      RunInTwo(s, a, b[..|b| - 1], timely);
    }
  }

  lemma RunThree(s: World, a: Act, b: Act, c: Act, timely: bool)
    ensures Run(s, [a, b, c], timely) == Next(Next(Next(s, a, timely), b, timely), c, timely)
  {
    assert [a][..0] == [] && [a, b][..1] == [a] && [a, b, c][..2] == [a, b];
    assert Run(s, [a], timely) == Next(s, a, timely);
    assert Run(s, [a, b], timely) == Next(Run(s, [a], timely), b, timely);
  }

  /** The second writer gets the claim that has run out, finds nothing and stores its bytes. */
  lemma SecondWriterStores(s: World, v: nat, content: Bytes, n: nat)
    requires v !in s.calls && s.stored.None? && Available(s.claim, s.now + n)
    ensures var t := Run(s, SecondWriter(v, content, n), true);
            t.stored == Some(content) && t.now == s.now + n && forall w | w in s.calls :: w in t.calls && t.calls[w] == s.calls[w]
  {
    var held := SecondHolds(s, v, content, n);
    RunInTwo(s, [Tick(n), Begin(v, content), Acquire(v)], [Check(v), Send(v), Land(v)], true);
    assert SecondWriter(v, content, n) == [Tick(n), Begin(v, content), Acquire(v)] + [Check(v), Send(v), Land(v)];
    HolderStores(held, v);
  }

  lemma SecondHolds(s: World, v: nat, content: Bytes, n: nat) returns (held: World)
    requires v !in s.calls && Available(s.claim, s.now + n)
    ensures held == Run(s, [Tick(n), Begin(v, content), Acquire(v)], true)
    ensures var expiresAt := s.now + n + LEASE_SECONDS;
            held == World(s.now + n, Some(Owner(v, expiresAt)), s.stored, s.calls[v := Call(content, expiresAt, Holding, true, NotSent)])
  {
    RunThree(s, Tick(n), Begin(v, content), Acquire(v), true);
    var expiresAt := s.now + n + LEASE_SECONDS;
    held := World(s.now + n, Some(Owner(v, expiresAt)), s.stored, s.calls[v := Call(content, expiresAt, Holding, true, NotSent)]);
  }

  lemma HolderStores(s: World, v: nat)
    requires v in s.calls && s.calls[v].phase == Holding && Timely(s, v) && s.stored.None?
    ensures var t := Run(s, [Check(v), Send(v), Land(v)], true);
            t == World(s.now, s.claim, Some(s.calls[v].content), s.calls[v := s.calls[v].(phase := Sent, flight := Landed)])
  {
    RunThree(s, Check(v), Send(v), Land(v), true);
    var absent := Next(s, Check(v), true);
    var sent := Next(absent, Send(v), true);
    assert sent.calls[v] == s.calls[v].(phase := Sent, flight := Flying);
  }

  lemma {:induction false} FreshWriter(calls: map<nat, Call>) returns (v: nat)
    ensures v !in calls && forall w | w in calls :: w < v
    decreases |calls|
  {
    if calls == map[] {
      v := 0;
    } else {
      var w :| w in calls;
      var fewer := map u | u in calls && u != w :: calls[u];
      assert fewer.Keys == calls.Keys - {w};
      v := FreshWriter(fewer);
      v := if v <= w then w + 1 else v;
      forall u | u in calls && u != w ensures u < v { assert u in fewer; }
    }
  }

  /** In every reachable world, a write in flight can be let land outside the premise over
      other bytes, all other writes landing within it, if and only if its own bytes are not
      the stored ones already. */
  lemma PremiseIsExact(s: World, acts: seq<Act>, w: nat)
    requires Initial(s) && w in Run(s, acts, true).calls && Run(s, acts, true).calls[w].flight == Flying
    ensures var t := Run(s, acts, true);
            t.stored != Some(t.calls[w].content) <==> exists more :: LetsLand(t, more, w)
  {
    RunIsExclusive(s, acts);
    var t := Run(s, acts, true);
    if t.stored == Some(t.calls[w].content) {
      forall more ensures !LetsLand(t, more, w) {
        RunKeepsBytes(t, more);
        RunKeepsContent(t, more, w);
      }
    } else if t.stored.Some? {
      assert Run(t, [], true) == t;
      assert LetsLand(t, [], w);
    } else {
      var more := OtherBytesFirst(t, w);
      assert LetsLand(t, more, w);
    }
  }

  lemma OtherBytesFirst(t: World, w: nat) returns (more: seq<Act>)
    requires w in t.calls && t.calls[w].flight == Flying && t.stored.None?
    ensures LetsLand(t, more, w)
  {
    var v := FreshWriter(t.calls);
    var call := t.calls[w];
    var wait := if t.claim.Some? && t.claim.value.expiresAt > t.now then t.claim.value.expiresAt - t.now else 0;
    var n := if call.expiresAt - t.now > wait then call.expiresAt - t.now else wait;
    SecondWriterStores(t, v, call.content + "!", n);
    more := SecondWriter(v, call.content + "!", n);
  }

  // Two ways out of the premise: the write lands after the lease, or after a release that
  // followed a timeout, when no time has passed at all.

  const START := World(0, None, None, map[])
  const SENT := World(0, Some(Owner(1, 3600)), None, map[1 := Call("a", 3600, Sent, true, Flying)])
  const RELEASED := World(0, None, None, map[1 := Call("a", 3600, Ended(Failed), false, Flying)])
  const SENDING := [Begin(1, "a"), Acquire(1), Check(1)] + [Send(1)]
  const GIVING_UP := [Fail(1), Release(1)]

  lemma FirstWriterSends()
    ensures Run(START, SENDING, true) == SENT && Run(SENT, GIVING_UP, true) == RELEASED
  {
    RunThree(START, Begin(1, "a"), Acquire(1), Check(1), true);
    assert SENDING[..3] == [Begin(1, "a"), Acquire(1), Check(1)];
    assert GIVING_UP[..1][..0] == [];
    assert Run(SENT, GIVING_UP[..1], true) == Next(SENT, Fail(1), true);
  }

  /** A call that nothing gets in the way of succeeds. */
  lemma FirstCallSucceeds()
    ensures Run(START, SENDING + [Land(1), Answer(1), Release(1)], true) == DONE && Succeeded(DONE.calls[1])
  {
    FirstWriterSends();
    RunInTwo(START, SENDING, [Land(1), Answer(1), Release(1)], true);
    RunThree(SENT, Land(1), Answer(1), Release(1), true);
  }

  /** So does one after it with the same bytes, and one with others meets a conflict. */
  lemma NextCallAdopts(content: Bytes)
    ensures var t := Run(DONE, [Begin(2, content), Acquire(2), Check(2)], true);
            && t.stored == Some("a") && 2 in t.calls && t.calls[2].phase == Releasing(if content == "a" then Adopted else Conflict)
            && (Succeeded(t.calls[2]) <==> content == "a")
  {
    RunThree(DONE, Begin(2, content), Acquire(2), Check(2), true);
  }

  const DONE := World(0, None, Some("a"), map[1 := Call("a", 3600, Ended(Wrote), false, Landed)])

  /** A write sent in time that lands after its lease replaces the second writer's bytes. */
  lemma LateLandingOverwrites()
    ensures Initial(START)
    ensures var t := Run(START, SENDING + SecondWriter(2, "b", LEASE_SECONDS), true);
            t.stored == Some("b") && Next(t, Land(1), false).stored == Some("a")
  {
    FirstWriterSends();
    RunInTwo(START, SENDING, SecondWriter(2, "b", LEASE_SECONDS), true);
    SecondWriterStores(SENT, 2, "b", LEASE_SECONDS);
  }

  /** So does one that lands within its lease, once its call has timed out and released. */
  lemma LandingAfterReleaseOverwrites()
    ensures Initial(START)
    ensures var t := Run(START, SENDING + GIVING_UP + SecondWriter(2, "b", 0), true);
            t.stored == Some("b") && t.now == 0 && Next(t, Land(1), false).stored == Some("a")
  {
    FirstWriterSends();
    RunInTwo(START, SENDING, GIVING_UP, true);
    RunInTwo(START, SENDING + GIVING_UP, SecondWriter(2, "b", 0), true);
    SecondWriterStores(RELEASED, 2, "b", 0);
  }
}
