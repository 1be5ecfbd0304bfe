/**
 Runs of the server, one request after the other: when every context is the prompt, when slots stay behind, and
 instances of what fails.
*/
module SessionRuns {
  import opened Options
  import opened PageClaims
  import opened SessionWorker
  import opened Sessions
  import opened SessionCache
  import opened SessionRequests

  /** A request as it comes in, with the identifier, clock and sizes that a save of its session would use. */
  datatype Ask = Ask(request: nat, prompt: seq<nat>, media: int, turn: Turn, freshId: nat, clock: nat, cutoff: int, now: int,
                     bytes: nat)

  predicate Different(asks: seq<Ask>) { forall i, j :: 0 <= i < j < |asks| ==> asks[i].request != asks[j].request }

  /** From some point on, requests that are not active yet. */
  predicate NewFrom(asks: seq<Ask>, from: nat, active: map<nat, seq<nat>>, ids: set<nat>) {
    forall i :: from <= i < |asks| ==> asks[i].request !in active && asks[i].request !in ids
  }

  predicate ClocksRise(asks: seq<Ask>) { forall i, j :: 0 <= i < j < |asks| ==> asks[i].clock < asks[j].clock }

  lemma Later(asks: seq<Ask>, from: nat, active: map<nat, seq<nat>>, ids: set<nat>, after: map<nat, seq<nat>>, idsAfter: set<nat>)
    requires from < |asks| && Different(asks) && NewFrom(asks, from, active, ids)
    requires OthersStay(asks[from].request, active, ids, after, idsAfter)
    ensures NewFrom(asks, from + 1, after, idsAfter)
  {
    forall i | from < i < |asks|
      ensures asks[i].request !in after
    {
      OthersAreOld(asks[from].request, asks[i].request, active, ids, after, idsAfter);
    }
  }

  lemma OthersAreOld(request: nat, other: nat, active: map<nat, seq<nat>>, ids: set<nat>, after: map<nat, seq<nat>>,
                     idsAfter: set<nat>)
    requires OthersStay(request, active, ids, after, idsAfter) && other != request
    ensures other in after <==> other in active
  {
    assert (after - {request}).Keys == after.Keys - {request};
  }

  lemma FirstIsNew(asks: seq<Ask>, from: nat, active: map<nat, seq<nat>>, ids: set<nat>)
    requires from < |asks| && NewFrom(asks, from, active, ids)
    ensures asks[from].request !in active && asks[from].request !in ids
  {}

  lemma LaterClocks(asks: seq<Ask>, i: nat, saved: set<(nat, nat)>)
    requires i < |asks| && ClocksRise(asks) && Ahead(asks[i].clock + 1, saved)
    ensures i + 1 < |asks| ==> Ahead(asks[i + 1].clock, saved)
  {}

  // Contexts

  /** Clean, with every snapshot saved at the length of its session. */
  ghost predicate Sound(app: Application)
    reads app`tainted, app`spoiled, app`sessions, app`diskSessions
  {
    Clean(app) && AllExact(app.sessions) && AllExact(app.diskSessions)
  }

  predicate NeverStale(outcomes: seq<Outcome>) { forall i :: 0 <= i < |outcomes| ==> !outcomes[i].kept.Stale() }

  predicate ContextIsPrompt(o: Outcome, a: Ask) { o.start.Started? ==> o.start.context == a.prompt }

  /** One request in a sound state: it gets its prompt, and the state stays sound unless it leaves a stale session. */
  method ServeSoundly(app: Application, a: Ask) returns (generated: seq<nat>, ghost o: Outcome)
    requires app.Valid() && a.request !in app.worker.active && a.request !in app.worker.activeIds
    requires Ahead(a.clock, app.everSaved)
    modifies app, app.worker
    ensures app.Valid() && Ahead(a.clock + 1, app.everSaved)
    ensures old(Sound(app)) ==> ContextIsPrompt(o, a) && (Sound(app) <==> !o.kept.Stale())
    ensures OthersStay(a.request, old(app.worker.active), old(app.worker.activeIds), app.worker.active, app.worker.activeIds)
  {
    hide Application.Valid, OthersStay, Ahead, GrantSpared, NewTaints, SameElsewhere, Ended, KeepsSlot, Kept.Stale;
    ghost var restored;
    generated, restored, o := Serve(app, a.request, a.prompt, a.media, a.turn, a.freshId, a.clock, a.cutoff, a.now, a.bytes);
  }

  /**
   A run of any length: up to the first request that leaves a stale session, every request that starts has its
   prompt for its context; and the state is sound as long as there is none.
  */
  method ServeAll(app: Application, asks: seq<Ask>) returns (ghost outcomes: seq<Outcome>)
    requires app.Valid() && Different(asks) && NewFrom(asks, 0, app.worker.active, app.worker.activeIds) && ClocksRise(asks)
    requires asks != [] ==> Ahead(asks[0].clock, app.everSaved)
    modifies app, app.worker
    ensures app.Valid() && |outcomes| == |asks|
    ensures old(Sound(app)) ==> forall i :: 0 <= i < |asks| && NeverStale(outcomes[..i]) ==> ContextIsPrompt(outcomes[i], asks[i])
    ensures old(Sound(app)) && NeverStale(outcomes) ==> Sound(app)
  {
    hide Application.Valid, OthersStay, Ahead, Sound, Different, NewFrom, ClocksRise, ContextIsPrompt, Kept.Stale;
    outcomes := [];
    for n := 0 to |asks|
      invariant app.Valid() && |outcomes| == n && NewFrom(asks, n, app.worker.active, app.worker.activeIds)
      invariant n < |asks| ==> Ahead(asks[n].clock, app.everSaved)
      invariant old(Sound(app)) && NeverStale(outcomes) ==> Sound(app)
      invariant old(Sound(app)) ==>
        forall i :: 0 <= i < n && NeverStale(outcomes[..i]) ==> ContextIsPrompt(outcomes[i], asks[i])
    {
      FirstIsNew(asks, n, app.worker.active, app.worker.activeIds);
      ghost var active0, ids0, before := app.worker.active, app.worker.activeIds, outcomes;
      ghost var o;
      var generated;
      generated, o := ServeSoundly(app, asks[n]);
      Later(asks, n, active0, ids0, app.worker.active, app.worker.activeIds);
      LaterClocks(asks, n, app.everSaved);
      outcomes := outcomes + [o];
      OneMoreOutcome(before, o);
      assert before[..n] == before;
    }
    assert outcomes[..|outcomes|] == outcomes;
  }

  lemma OneMoreOutcome(outcomes: seq<Outcome>, o: Outcome)
    ensures NeverStale(outcomes + [o]) <==> NeverStale(outcomes) && !o.kept.Stale()
    ensures forall i :: 0 <= i <= |outcomes| ==> (outcomes + [o])[..i] == outcomes[..i]
  {
    assert forall i :: 0 <= i < |outcomes| ==> (outcomes + [o])[i] == outcomes[i];
    assert (outcomes + [o])[|outcomes|] == o;
  }

  // Slots that stay

  /**
   A turn that is sure to lose its slot on a willing worker: it holds, and then either the client leaves it before its
   last step, or it is to be retained and its checkpoint does not fit.
  */
  predicate Loses(t: Turn, prompt: nat, pageTokens: nat, capacity: nat) {
    t.maximum > 0 && (t.leaves.Some? ==> t.leaves.value > 0) &&
    if t.retain then
      (!t.speculative || (t.mtp && t.maximum == 1)) &&
      ((forall n :: 1 <= n <= t.maximum ==> !t.Fits(prompt, n, pageTokens, capacity)) || LeftEarly(t))
    else !t.speculative && t.leaves.Some? && t.leaves.value < t.maximum
  }

  predicate LeftEarly(t: Turn) { t.leaves.Some? && t.leaves.value < t.maximum && t.eos == {} }

  /** What such a turn comes to. */
  lemma LosesItsSlot(t: Turn, w: Setting, prompt: nat, generated: seq<nat>, o: Outcome)
    requires Ended(t, w, prompt, generated, o) && w.batched && w.willing && o.start.Started?
    requires Loses(t, prompt, w.pageTokens, w.capacity)
    ensures KeepsSlot(t, w.batched, |generated|, Hold in o.modes, o.parked)
  {
    hide Turn.Fits;
    assert generated != [];
    assert 1 <= |generated| <= t.maximum;
  }

  /** One such request stays active, and the client does not list it. */
  method LoseSlot(app: Application, a: Ask)
    requires app.Valid() && a.request !in app.worker.active && a.request !in app.worker.activeIds
    requires app.worker.willing && app.worker.batched && |app.worker.active| < app.worker.slots
    requires Loses(a.turn, |a.prompt|, app.pageTokens, app.capacity)
    modifies app, app.worker
    ensures app.Valid() && app.worker.willing && a.request in app.worker.active
    ensures OthersStay(a.request, old(app.worker.active), old(app.worker.activeIds), app.worker.active, app.worker.activeIds)
  {
    hide Application.Valid, GrantSpared, NewTaints, Saves, Ended, KeepsSlot, Loses, Stays, Ahead, OthersStay, SameElsewhere;
    ghost var alone := app.claims == map[];
    ghost var restored, o;
    var generated;
    generated, restored, o :=
      Serve(app, a.request, a.prompt, a.media, a.turn, a.freshId, a.clock, a.cutoff, a.now, a.bytes);
    LosesItsSlot(a.turn, Setting(true, true, alone, app.pageTokens, app.capacity), |a.prompt|, generated, o);
  }

  predicate Asked(asks: seq<Ask>, request: nat) { exists i :: 0 <= i < |asks| && asks[i].request == request }

  /** As many such requests as there are free slots: all of them stay active, and the client lists none. */
  method LoseSlots(app: Application, asks: seq<Ask>)
    requires app.Valid() && Different(asks) && NewFrom(asks, 0, app.worker.active, app.worker.activeIds)
    requires app.worker.willing && app.worker.batched && |app.worker.active| + |asks| <= app.worker.slots
    requires forall i :: 0 <= i < |asks| ==> Loses(asks[i].turn, |asks[i].prompt|, app.pageTokens, app.capacity)
    modifies app, app.worker
    ensures app.Valid() && app.worker.activeIds == old(app.worker.activeIds) && app.worker.willing
    ensures forall i :: 0 <= i < |asks| ==> asks[i].request in app.worker.active
    ensures forall r :: r in app.worker.active && r !in old(app.worker.active) ==> Asked(asks, r)
    ensures |app.worker.active| == |old(app.worker.active)| + |asks|
  {
    hide Application.Valid, Loses, Different, NewFrom, OthersStay, Asked;
    for n := 0 to |asks|
      invariant app.Valid() && app.worker.willing && NewFrom(asks, n, app.worker.active, app.worker.activeIds)
      invariant app.worker.activeIds == old(app.worker.activeIds)
      invariant forall i :: 0 <= i < n ==> asks[i].request in app.worker.active
      invariant forall r :: r in app.worker.active && r !in old(app.worker.active) ==> Asked(asks, r)
      invariant |app.worker.active| == |old(app.worker.active)| + n
    {
      FirstIsNew(asks, n, app.worker.active, app.worker.activeIds);
      ghost var active0, ids0 := app.worker.active, app.worker.activeIds;
      LoseSlot(app, asks[n]);
      Later(asks, n, active0, ids0, app.worker.active, app.worker.activeIds);
      OneSlotLess(asks[n].request, active0, ids0, app.worker.active, app.worker.activeIds);
      IsAsked(asks, n);
    }
  }

  lemma IsAsked(asks: seq<Ask>, i: nat)
    requires i < |asks|
    ensures Asked(asks, asks[i].request)
  {}

  lemma OneSlotLess(request: nat, active: map<nat, seq<nat>>, ids: set<nat>, after: map<nat, seq<nat>>, idsAfter: set<nat>)
    requires OthersStay(request, active, ids, after, idsAfter) && request in after && request !in active
    ensures after.Keys == active.Keys + {request} && |after| == |active| + 1 && idsAfter == ids
  {
    assert after.Keys == active.Keys + {request};
  }

  /** As long as the worker is full no request starts, and none of those that fill it goes away. */
  method RefuseAll(app: Application, asks: seq<Ask>) returns (ghost outcomes: seq<Outcome>)
    requires app.Valid() && Different(asks) && NewFrom(asks, 0, app.worker.active, app.worker.activeIds)
    requires |app.worker.active| >= app.worker.slots
    modifies app, app.worker
    ensures app.Valid() && app.worker.active == old(app.worker.active) && app.worker.activeIds == old(app.worker.activeIds)
    ensures |outcomes| == |asks| && forall i :: 0 <= i < |asks| ==> outcomes[i].start.Refused?
  {
    hide Application.Valid, Different, NewFrom;
    outcomes := [];
    for n := 0 to |asks|
      invariant app.Valid() && NewFrom(asks, n, app.worker.active, app.worker.activeIds) && |outcomes| == n
      invariant app.worker.active == old(app.worker.active) && app.worker.activeIds == old(app.worker.activeIds)
      invariant forall i :: 0 <= i < |outcomes| ==> outcomes[i].start.Refused?
    {
      FirstIsNew(asks, n, app.worker.active, app.worker.activeIds);
      ghost var active0, ids0 := app.worker.active, app.worker.activeIds;
      ghost var o := Refuse(app, asks[n]);
      Later(asks, n, active0, ids0, app.worker.active, app.worker.activeIds);
      outcomes := outcomes + [o];
    }
  }

  method Refuse(app: Application, a: Ask) returns (ghost o: Outcome)
    requires app.Valid() && a.request !in app.worker.active && a.request !in app.worker.activeIds
    requires |app.worker.active| >= app.worker.slots
    modifies app, app.worker
    ensures app.Valid() && o.start.Refused?
    ensures OthersStay(a.request, old(app.worker.active), old(app.worker.activeIds), app.worker.active, app.worker.activeIds)
    ensures app.worker.active == old(app.worker.active) && app.worker.activeIds == old(app.worker.activeIds)
  {
    hide Application.Valid, GrantSpared, NewTaints, Saves, KeepsSlot, Stays, Ahead, Steps, OthersStay, SameElsewhere;
    ghost var active0, ids0 := app.worker.active, app.worker.activeIds;
    ghost var restored;
    var generated;
    generated, restored, o :=
      Serve(app, a.request, a.prompt, a.media, a.turn, a.freshId, a.clock, a.cutoff, a.now, a.bytes);
    NothingKept(a.turn, app.worker.batched, Hold in o.modes, o.parked);
    NoneLess(a.request, active0, ids0, app.worker.active, app.worker.activeIds);
  }

  lemma NothingKept(t: Turn, batched: bool, lastHeld: bool, parked: bool)
    ensures !KeepsSlot(t, batched, 0, lastHeld, parked)
  {}

  lemma NoneLess(request: nat, active: map<nat, seq<nat>>, ids: set<nat>, after: map<nat, seq<nat>>, idsAfter: set<nat>)
    requires OthersStay(request, active, ids, after, idsAfter) && request !in after
    ensures after == active && idsAfter == ids
  {
    assert after - {request} == after;
  }

  lemma TwoTokensLose(t: Turn)
    requires t == Turn(2, false, false, false, {}, Some(1), 0) || t == Turn(1, true, true, true, {}, None, 0)
    ensures Loses(t, 2, 1, 1)
  {}

  /**
   A server with pages for one token: as many requests as the worker has slots, to be retained with two tokens or left
   by their clients after one.  Then the worker is full of requests that no one knows of, and no request starts any more.
  */
  method WorkerFillsUp(slots: nat, left: bool, later: seq<Ask>) returns (app: Application, ghost outcomes: seq<Outcome>)
    requires forall i :: 0 <= i < |later| ==> later[i].request >= slots
    requires Different(later)
    ensures app.Valid() && app.capacity == 1 && app.worker.activeIds == {} && |app.worker.active| == slots
    ensures |outcomes| == |later| && forall i :: 0 <= i < |later| ==> outcomes[i].start.Refused?
  {
    hide Application.Valid;
    var worker := new Worker(true, slots);
    app := new Application(worker, 1, 1, true, true, 60, 1000);
    var t := if left then Turn(2, false, false, false, {}, Some(1), 0) else Turn(1, true, true, true, {}, None, 0);
    var asks := seq(slots, i requires 0 <= i < slots => Ask(i, [1, 2], 0, t, i, i, 0, 0, 0));
    TwoTokensLose(t);
    LoseSlots(app, asks);
    outcomes := RefuseAll(app, later);
  }

  // A stale session

  ghost predicate Only(s: seq<Session>, x: Session) { x in s && forall y :: y in s ==> y == x }

  /** Between requests: a willing worker with room for more, and pages for four tokens. */
  ghost predicate Ready(app: Application)
    reads app, app.worker
  {
    app.Valid() && app.worker.willing && app.worker.batched && app.worker.slots > 1 && app.retentionEnabled &&
    app.cacheEnabled && app.cacheTtl == 60 && app.capacity == 4 && app.pageTokens == 1
  }

  ghost predicate Idle(app: Application)
    reads app, app.worker
  {
    Ready(app) && app.claims == map[] && app.worker.active == map[] && app.worker.activeIds == {}
  }

  function Twin(s: Session): Session { s.(key := 0, resident := false) }

  lemma Head(s: seq<Session>) returns (x: Session)
    ensures s != [] ==> x in s
  {
    x := if s == [] then Session(0, [], 0, 0, 0, None, true) else s[0];
  }

  lemma SavedReaches(app: Application, s: Session)
    requires app.SessionOk(s) && s.key in app.worker.parked && |app.worker.parked[s.key]| == |s.tokens|
    requires app.worker.parked[s.key] == s.tokens || s.key in app.tainted
    ensures app.Agrees(s) && app.Reaches(s)
  {}

  /** How a turn that is retained ends: its context is parked and stored, and saved unless the disk is full. */
  method ParkAndStore(app: Application, s: Session, request: nat, context: seq<nat>, freshId: nat, clock: nat, ghost c: Claim)
    returns (saved: Option<Snapshot>)
    requires Ready(app) && c.Context? && c in app.claims && app.claims[c].pages == s.pages && s.key in app.claims[c].keys
    requires app.worker.active == map[request := context] && app.worker.Floor(request) <= |s.tokens| <= |context|
    requires (context[..|s.tokens|] == s.tokens || s.key in app.tainted) && app.worker.activeIds <= {request} && app.sessions == []
    requires s.key !in app.worker.parked && s.resident && app.SessionOk(s) && Ahead(clock, app.everSaved)
    modifies app, app.worker
    ensures Ready(app) && app.claims == old(app.claims) - {c} && app.worker.active == map[] && app.worker.activeIds == {}
    ensures Spared({c}, old(app.claims), old(app.worker.parked), app.claims, app.worker.parked)
    ensures Ahead(clock + 1, app.everSaved) && app.tainted == old(app.tainted)
    ensures s.key !in app.tainted ==> app.spoiled == old(app.spoiled)
    ensures app.worker.diskFull == old(app.worker.diskFull) && (saved.Some? <==> !app.worker.diskFull)
    ensures saved.Some? ==> Renewed(s, saved.value, freshId, clock, s.lastUsed)
    ensures saved.Some? ==> saved.value.Name() in app.worker.snapshots
    ensures saved.Some? ==> app.worker.snapshots[saved.value.Name()] == context[..|s.tokens|]
    ensures saved.Some? ==> Only(app.sessions, s.(snapshot := saved))
    ensures saved.Some? && old(app.diskSessions) == [] ==> Only(app.diskSessions, Twin(s.(snapshot := saved)))
    ensures saved.Some? ==>
      forall x :: x in old(app.diskSessions) && app.Aged(x, s.lastUsed) && x.snapshot.value.id != saved.value.id ==>
        x !in app.diskSessions && x.snapshot.value.Name() !in app.worker.snapshots
    ensures saved.None? ==> Only(app.sessions, s) && app.diskSessions == old(app.diskSessions) &&
                            app.worker.snapshots == old(app.worker.snapshots)
  {
    hide Application.Valid, Application.SessionOk, Application.Agrees, Application.Reaches, Spared, Renew, GrantSpared, SameElsewhere;
    hide Ahead, Renewed, SnapshotIds, Application.Aged;
    ghost var claims0, parked0 := app.claims, app.worker.parked;
    var parked := app.RetainUnder(request, s.key, |s.tokens|, c);
    ghost var parked1 := app.worker.parked;
    SavedReaches(app, s);
    app.StoreSession(s, c);
    SparedThen({c}, claims0, parked0, {c}, claims0, parked1, {c}, app.claims, app.worker.parked);
    assert Only(app.sessions, s);
    ghost var before := app.sessions;
    ghost var removed;
    saved, removed := app.PersistSession(s, freshId, clock, s.lastUsed, 10);
    if saved.Some? {
      OnlyRenewed(before, s, saved.value);
      OnlyIds(app.sessions, s.(snapshot := saved));
    }
  }

  lemma OnlyIds(s: seq<Session>, x: Session)
    requires Only(s, x) && x.snapshot.Some?
    ensures SnapshotIds(s) == {x.snapshot.value.id}
  {}

  lemma OnlyRenewed(sessions: seq<Session>, s: Session, n: Snapshot)
    requires Only(sessions, s)
    ensures Only(Renew(sessions, s.key, n), s.(snapshot := Some(n)))
  {
    RenewHas(sessions, s.key, n, s);
    forall x | x in Renew(sessions, s.key, n)
      ensures x == s.(snapshot := Some(n))
    {
      var y := RenewedFrom(sessions, s.key, n, x);
    }
  }

  /** A new server, with a claim for a first request. */
  method NewServer() returns (app: Application, ghost c: Claim)
    ensures fresh(app) && fresh(app.worker) && Ready(app) && !app.worker.diskFull && Clean(app)
    ensures c.Context? && app.claims == map[c := Grant(0, {})] && app.sessions == [] && app.diskSessions == [] && app.reserved == 0
    ensures app.worker.active == map[] && app.worker.activeIds == {} && app.worker.parked == map[] && app.everSaved == {}
  {
    hide Application.Valid, Spared;
    var worker := new Worker(true, 2);
    app := new Application(worker, 1, 4, true, true, 60, 1000);
    c := app.NewClaim();
  }

  /** A new server on which a request has prefilled two tokens. */
  method Prefilled() returns (app: Application, ghost c: Claim, key: nat)
    ensures fresh(app) && fresh(app.worker) && Ready(app) && !app.worker.diskFull && Clean(app)
    ensures c.Context? && app.claims.Keys == {c} && app.claims[c].pages == 2 && key in app.claims[c].keys
    ensures app.sessions == [] && app.diskSessions == [] && key !in app.worker.parked && Ahead(1, app.everSaved)
    ensures app.worker.active == map[1 := [1, 2]] && app.worker.activeIds == {1} && app.worker.Floor(1) == 0
  {
    hide Application.Valid, Spared;
    app, c := NewServer();
    var ok := app.AcquirePages(2, c);
    var begun := app.worker.Begin(1, [1, 2]);
    key := app.AllocateSessionKey(c);
  }

  lemma NewSessionOk(app: Application, key: nat)
    requires app.pageTokens == 1
    ensures app.SessionOk(Session(key, [1, 2], 2, 0, 0, None, true))
  {}

  /** A first turn: it is retained and saved. */
  method FirstTurn() returns (app: Application, s: Session)
    ensures fresh(app) && fresh(app.worker) && Idle(app) && !app.worker.diskFull && Clean(app) && Ahead(2, app.everSaved)
    ensures s == Session(s.key, [1, 2], 2, 0, 0, s.snapshot, true) && s.snapshot.Some? && s.snapshot.value.position == 2
    ensures s.snapshot.value.id == 7 && s.snapshot.value.used == 0
    ensures Only(app.sessions, s) && Only(app.diskSessions, Twin(s))
    ensures s.snapshot.value.Name() in app.worker.snapshots && app.worker.snapshots[s.snapshot.value.Name()] == [1, 2]
  {
    hide Application.SessionOk, Application.Valid, Ahead;
    var key;
    ghost var c;
    app, c, key := Prefilled();
    var parked := Session(key, [1, 2], 2, 0, 0, None, true);
    NewSessionOk(app, key);
    var saved := ParkAndStore(app, parked, 1, [1, 2], 7, 1, c);
    s := parked.(snapshot := saved);
  }

  /** A request checks out the only resident session, of which the disk holds nothing longer. */
  method CheckOut(app: Application, s: Session, prompt: seq<nat>) returns (ghost c: Claim)
    requires Idle(app) && Only(app.sessions, s) && s.lastUsed >= 0 && Matches(s, prompt, 0) && s.key !in app.tainted
    requires forall x :: x in app.diskSessions ==> |x.tokens| <= |s.tokens|
    modifies app, app.worker
    ensures Ready(app) && app.sessions == [] && app.diskSessions == old(app.diskSessions)
    ensures c.Context? && app.claims == map[c := Grant(s.pages, {s.key})] && c.id < app.nextContext && app.SessionOk(s)
    ensures s.key in app.worker.parked && app.worker.parked[s.key] == s.tokens && app.Reaches(s)
    ensures app.worker.active == map[] && app.worker.activeIds == {} && app.worker.snapshots == old(app.worker.snapshots)
    ensures app.worker.diskFull == old(app.worker.diskFull) && app.everSaved == old(app.everSaved)
    ensures app.tainted == old(app.tainted) && app.spoiled == old(app.spoiled)
  {
    hide Application.Valid, Spared, Application.SessionOk, Matches, Application.Reaches;
    StoredHas(app, s);
    c := app.NewClaim();
    var best := app.CheckoutSession(prompt, 0, 0, c);
    assert best == Some(s);
    ghost var x := Head(app.sessions);
    ContextIsNew(app, c);
  }

  lemma StoredHas(app: Application, s: Session)
    requires app.Valid() && s in app.sessions
    ensures app.StoredOk(s)
  {}

  lemma ContextIsNew(app: Application, c: Claim)
    requires app.Valid() && c in app.claims && c.Context?
    ensures c.id < app.nextContext
  {
    assert app.ClaimOk(c);
  }

  /** A request checks the session out and resumes it with a third token. */
  method Resumed(app: Application, s: Session) returns (ghost c: Claim)
    requires Idle(app) && Only(app.sessions, s) && Only(app.diskSessions, Twin(s)) && Clean(app)
    requires s == Session(s.key, [1, 2], 2, 0, 0, s.snapshot, true)
    modifies app, app.worker
    ensures Ready(app) && app.sessions == [] && app.SessionOk(s) && Clean(app) && app.everSaved == old(app.everSaved)
    ensures c.Context? && app.claims.Keys == {c} && app.claims[c].pages == 2 && s.key in app.claims[c].keys
    ensures s.key !in app.worker.parked
    ensures app.worker.active == map[2 := [1, 2, 3]] && app.worker.activeIds == {2} && app.worker.Floor(2) == 2
    ensures app.diskSessions == old(app.diskSessions) && app.worker.snapshots == old(app.worker.snapshots)
  {
    hide Application.Valid, Spared, Application.SessionOk, Matches, Application.Reaches, SameAt, GrantSpared;
    PromptMatches(s, [1, 2, 3]);
    c := CheckOut(app, s, [1, 2, 3]);
    var resumed := app.ResumeUnder(2, s.key, [3], 3, c);
    assert [1, 2] + [3] == [1, 2, 3];
  }

  lemma PromptMatches(s: Session, prompt: seq<nat>)
    requires s.tokens <= prompt && s.media == 0
    ensures Matches(s, prompt, 0)
  {}

  /** A second turn continues it and is retained, but the disk is full. */
  method SecondTurn(app: Application, s: Session) returns (t: Session)
    requires Idle(app) && Only(app.sessions, s) && Only(app.diskSessions, Twin(s)) && Clean(app) && Ahead(2, app.everSaved)
    requires s == Session(s.key, [1, 2], 2, 0, 0, s.snapshot, true)
    modifies app, app.worker
    ensures Idle(app) && Clean(app) && Ahead(3, app.everSaved)
    ensures t == Session(s.key, [1, 2, 3], 3, 0, 0, s.snapshot, true) && Only(app.sessions, t)
    ensures app.diskSessions == old(app.diskSessions) && app.worker.snapshots == old(app.worker.snapshots)
  {
    hide Application.Valid, Application.SessionOk, Ahead, Spared;
    ghost var c := Resumed(app, s);
    OneClaim(app, c);
    var ok := app.AcquirePages(1, c);
    t := Session(s.key, [1, 2, 3], 3, 0, 0, s.snapshot, true);
    Continues(app, s, t);
    app.worker.diskFull := true;
    var saved := ParkAndStore(app, t, 2, [1, 2, 3], 7, 2, c);
  }

  lemma Continues(app: Application, s: Session, t: Session)
    requires app.SessionOk(s) && app.pageTokens == 1 && s.tokens <= t.tokens && t.pages == |t.tokens| && t.snapshot == s.snapshot
    ensures app.SessionOk(t)
  {}

  /** A third turn checks it out and is not retained: its claim to three tokens goes back to disk with the old snapshot. */
  method ThirdTurn(app: Application, t: Session)
    requires Idle(app) && Only(app.sessions, t) && Clean(app) && Ahead(3, app.everSaved)
    requires t == Session(t.key, [1, 2, 3], 3, 0, 0, t.snapshot, true) && t.snapshot.Some?
    requires Only(app.diskSessions, Twin(t.(tokens := [1, 2], pages := 2)))
    modifies app, app.worker
    ensures Idle(app) && app.sessions == [] && Clean(app) && Ahead(3, app.everSaved)
    ensures Only(app.diskSessions, Twin(t)) && app.worker.snapshots == old(app.worker.snapshots)
  {
    hide Application.Valid, Total, Spared, GrantSpared, Application.SessionOk, Ahead;
    ghost var c := CheckOut(app, t, [1, 2, 3]);
    var ctx := new RequestContext(c.id, Some(t), 3);
    WithoutIsOld(app.diskSessions, t.snapshot.value.id);
    ReleaseRequestContext(app, ctx);
  }

  /** A request takes the only session there is off the disk tier and reserves its pages. */
  method TakeFromDisk(app: Application, s: Session, prompt: seq<nat>) returns (ghost c: Claim)
    requires Idle(app) && app.sessions == [] && Only(app.diskSessions, s) && s.snapshot.Some? && s.pages <= 4
    requires Matches(s, prompt, 0)
    modifies app, app.worker
    ensures Ready(app) && app.sessions == [] && app.diskSessions == [] && app.OnDisk(s)
    ensures c.Context? && app.claims == map[c := Grant(s.pages, {})]
    ensures app.worker.active == map[] && app.worker.activeIds == {} && app.worker.snapshots == old(app.worker.snapshots)
    ensures app.everSaved == old(app.everSaved) && app.spoiled == old(app.spoiled) && app.tainted == old(app.tainted)
    ensures app.worker.diskFull == old(app.worker.diskFull)
  {
    hide Application.Valid, Spared, Application.SessionOk, Matches;
    c := app.NewClaim();
    WithoutIsOld(app.diskSessions, s.snapshot.value.id);
    var best := app.CheckoutSession(prompt, 0, 0, c);
    assert best == Some(s);
    ghost var x := Head(app.sessions);
    ghost var y := Head(app.diskSessions);
    OneClaim(app, c);
    var ok := app.AcquirePages(s.pages, c);
  }

  /** It loads the session under a new key. */
  method Load(app: Application, s: Session, content: seq<nat>, ghost c: Claim) returns (t: Session)
    requires Ready(app) && app.OnDisk(s) && c.Context? && app.claims == map[c := Grant(s.pages, {})]
    requires s.snapshot.value.Name() in app.worker.snapshots && app.worker.snapshots[s.snapshot.value.Name()] == content
    requires |content| == s.snapshot.value.position
    modifies app, app.worker`parked
    ensures Ready(app) && t == s.(key := t.key, resident := true) && app.SessionOk(t) && Holds(app, c, t)
    ensures (t.key in app.tainted <==> content != s.tokens) && t.key in app.worker.parked && app.worker.parked[t.key] == content
    ensures app.claims.Keys == {c} && app.claims[c].pages == s.pages && t.key in app.claims[c].keys
    ensures app.sessions == old(app.sessions) && app.diskSessions == old(app.diskSessions) && app.everSaved == old(app.everSaved)
  {
    hide Application.Valid, Spared, GrantSpared, Application.SessionOk, Application.Reaches;
    var loaded := LoadFromDisk(app, s, c);
    t := loaded.value;
  }

  /** A request loads the only session on disk and continues what its snapshot holds. */
  method LoadAndResume(app: Application, s: Session, content: seq<nat>, request: nat, prompt: seq<nat>, checkpoint: nat)
    returns (t: Session, ghost c: Claim)
    requires Idle(app) && app.sessions == [] && Only(app.diskSessions, s) && s.snapshot.Some? && s.pages <= 4
    requires s.snapshot.value.Name() in app.worker.snapshots && app.worker.snapshots[s.snapshot.value.Name()] == content
    requires |content| == s.snapshot.value.position && Matches(s, prompt, 0)
    requires InDelta(checkpoint, |content|, |prompt| - |s.tokens|)
    modifies app, app.worker
    ensures Ready(app) && app.sessions == [] && app.everSaved == old(app.everSaved) && app.worker.snapshots == old(app.worker.snapshots)
    ensures t == s.(key := t.key, resident := true) && app.SessionOk(t) && t.key !in app.worker.parked
    ensures (t.key in app.tainted <==> content != s.tokens) && app.diskSessions == []
    ensures c.Context? && app.claims.Keys == {c} && app.claims[c].pages == s.pages && t.key in app.claims[c].keys
    ensures app.worker.active == map[request := content + prompt[|s.tokens|..]] && app.worker.Floor(request) == |content|
    ensures app.worker.activeIds == {request} && app.worker.diskFull == old(app.worker.diskFull)
  {
    hide Application.Valid, Spared, GrantSpared, Application.SessionOk, Application.Reaches, Holds, Covers, Untainted;
    MatchesPrefix(s, prompt, 0);
    hide Matches;
    c := TakeFromDisk(app, s, prompt);
    t := Load(app, s, content, c);
    var reply := AttemptPrefill(app, Some(t), request, prompt, checkpoint, c);
  }

  lemma MatchesPrefix(s: Session, prompt: seq<nat>, media: int)
    requires Matches(s, prompt, media)
    ensures s.tokens <= prompt
  {}

  /** A fourth turn, to be cut at three tokens, resumes that session: its prompt [1, 2, 3, 4] is answered as if it were [1, 2, 4]. */
  method StaleRun() returns (app: Application, t: Session, ghost c: Claim)
    ensures fresh(app) && fresh(app.worker) && Ready(app) && app.worker.active == map[4 := [1, 2, 4]]
    ensures app.worker.Floor(4) == 2 && app.worker.activeIds == {4} && app.sessions == [] && app.diskSessions == []
    ensures t == Session(t.key, [1, 2, 3], 3, 0, 0, t.snapshot, true) && t.key in app.tainted && t.key !in app.worker.parked
    ensures app.SessionOk(t) && Ahead(3, app.everSaved)
    ensures c.Context? && app.claims.Keys == {c} && app.claims[c].pages == 3 && t.key in app.claims[c].keys
  {
    hide Application.Valid, Application.SessionOk, Ahead;
    var s;
    app, s := FirstTurn();
    t := SecondTurn(app, s);
    ThirdTurn(app, t);
    t, c := LoadAndResume(app, Twin(t), [1, 2], 4, [1, 2, 3, 4], 3);
    assert [1, 2] + [4] == [1, 2, 4];
  }

  /**
   The same turn decodes a token and is retained at its checkpoint, three tokens, and saved: its entry on disk has as
   many tokens as its snapshot, but not the same.  A fifth turn that loads it continues from [1, 2, 4].
  */
  method SpoiledRun() returns (app: Application, entry: Session)
    ensures app.Valid() && Exact(entry) && entry.tokens == [1, 2, 3] && entry.snapshot.Some?
    ensures entry.snapshot.value.Name() in app.worker.snapshots
    ensures app.worker.snapshots[entry.snapshot.value.Name()] == [1, 2, 4]
    ensures app.worker.active == map[5 := [1, 2, 4, 9]]
  {
    hide Application.Valid, Application.SessionOk, Ahead, Spared;
    var t;
    ghost var c;
    app, t, c := StaleRun();
    var emitted := app.worker.Step(4, Hold);
    app.worker.diskFull := false;
    assert ([1, 2, 4] + emitted)[..3] == [1, 2, 4];
    var saved := ParkAndStore(app, t, 4, [1, 2, 4] + emitted, 7, 3, c);
    entry := Twin(t.(snapshot := saved));
    EvictOnly(app, t.(snapshot := saved));
    var loaded;
    ghost var d;
    loaded, d := LoadAndResume(app, entry, [1, 2, 4], 5, [1, 2, 3, 9], 3);
    assert [1, 2, 4] + [9] == [1, 2, 4, 9];
  }

  /** The only resident session makes room for another request. */
  method EvictOnly(app: Application, s: Session)
    requires Idle(app) && Only(app.sessions, s)
    modifies app, app.worker
    ensures Idle(app) && app.sessions == [] && app.diskSessions == old(app.diskSessions)
    ensures app.worker.snapshots == old(app.worker.snapshots)
  {
    hide Application.Valid, Spared;
    if |app.sessions| > 1 {
      TwoDiffer(app);
    }
    var evicted := app.EvictLruSession();
  }

  lemma TwoDiffer(app: Application)
    requires app.Valid() && |app.sessions| > 1
    ensures app.sessions[0] in app.sessions && app.sessions[1] in app.sessions && app.sessions[0] != app.sessions[1]
  {
    var all := app.sessions;
    assert Distinct(all) && all[1] == all[1..][0];
    assert all[1..][0] in all[1..];
  }

  // A snapshot removed under a request

  /** While one request has the first session checked out, another one saves: the expired snapshot of the first is removed. */
  method CheckedOutRun() returns (app: Application, s: Session, ghost c: Claim)
    ensures app.Valid() && c in app.claims && s.key in app.claims[c].keys && s.snapshot.Some?
    ensures s.key in app.worker.parked && app.worker.parked[s.key] == s.tokens
    ensures s.snapshot.value.Name() !in app.worker.snapshots && Twin(s) !in app.diskSessions
  {
    hide Application.Valid, Application.SessionOk, Ahead, Spared, Matches, Application.Reaches;
    app, s := FirstTurn();
    PromptMatches(s, [1, 2]);
    c := CheckOut(app, s, [1, 2]);
    OneClaim(app, c);
    ghost var claims0, parked0 := app.claims, app.worker.parked;
    ghost var d;
    var key;
    d, key := AnotherPrefills(app);
    ghost var claims1, parked1 := app.claims, app.worker.parked;
    var other := Session(key, [7, 8], 2, 0, 100, None, true);
    OtherSessionOk(app, key);
    assert app.Aged(Twin(s), 100);
    var saved := ParkAndStore(app, other, 3, [7, 8], 8, 2, d);
    SparedThen({d}, claims0, parked0, {d}, claims1, parked1, {d}, app.claims, app.worker.parked);
    SparedAt({d}, claims0, parked0, app.claims, app.worker.parked, c);
  }

  /** Another request claims two pages, while whatever is claimed stays claimed. */
  method AnotherClaim(app: Application) returns (ghost d: Claim)
    requires Ready(app) && app.reserved <= 2
    modifies app
    ensures Ready(app) && d.Context? && d !in old(app.claims) && d in app.claims && app.claims[d].pages == 2
    ensures Spared({d}, old(app.claims), app.worker.parked, app.claims, app.worker.parked)
    ensures app.sessions == old(app.sessions) && app.diskSessions == old(app.diskSessions) && app.nextKey == old(app.nextKey)
    ensures app.everSaved == old(app.everSaved) && app.tainted == old(app.tainted) && app.spoiled == old(app.spoiled)
  {
    hide Application.Valid, Spared;
    ghost var claims0, parked := app.claims, app.worker.parked;
    d := app.NewClaim();
    ghost var claims1 := app.claims;
    var ok := app.AcquirePages(2, d);
    SparedThen({d}, claims0, parked, {d}, claims1, parked, {d}, app.claims, parked);
  }

  /** Another request prefills two tokens. */
  method AnotherPrefills(app: Application) returns (ghost d: Claim, key: nat)
    requires Ready(app) && app.worker.active == map[] && app.worker.activeIds == {} && app.reserved <= 2
    modifies app, app.worker
    ensures Ready(app) && d.Context? && d !in old(app.claims) && d in app.claims && app.claims[d].pages == 2
    ensures Spared({d}, old(app.claims), old(app.worker.parked), app.claims, app.worker.parked)
    ensures key in app.claims[d].keys && key !in app.worker.parked
    ensures app.worker.active == map[3 := [7, 8]] && app.worker.activeIds == {3} && app.worker.Floor(3) == 0
    ensures app.sessions == old(app.sessions) && app.diskSessions == old(app.diskSessions)
    ensures app.worker.parked == old(app.worker.parked) && app.worker.snapshots == old(app.worker.snapshots)
    ensures app.everSaved == old(app.everSaved) && app.tainted == old(app.tainted) && app.spoiled == old(app.spoiled)
    ensures app.worker.diskFull == old(app.worker.diskFull)
  {
    hide Application.Valid, Spared;
    ghost var claims0, parked := app.claims, app.worker.parked;
    d := AnotherClaim(app);
    ghost var claims1 := app.claims;
    FreshKey(app);
    key := app.AllocateSessionKey(d);
    SparedThen({d}, claims0, parked, {d}, claims1, parked, {d}, app.claims, parked);
    var begun := app.worker.Begin(3, [7, 8]);
  }

  lemma FreshKey(app: Application)
    requires app.Valid()
    ensures app.nextKey !in app.worker.parked
  {}

  lemma OtherSessionOk(app: Application, key: nat)
    requires app.pageTokens == 1
    ensures app.SessionOk(Session(key, [7, 8], 2, 0, 100, None, true))
  {}
}
