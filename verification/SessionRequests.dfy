/**
 The life of one request: it checks a prefix out, resumes or prefills, decodes, and in the end retains,
 rolls back or releases.  Its context holds the credits for exactly what it keeps in the worker.
 */
module SessionRequests {
  import opened Options
  import opened PageClaims
  import opened SessionWorker
  import opened Sessions
  import opened SessionCache

  /** A claim holds a session; the worker, if it still has it and its key is not tainted, holds it as the session says. */
  ghost predicate Holds(app: Application, c: Claim, s: Session)
    reads app`claims, app`spoiled, app`everSaved, app`tainted, app.worker`snapshots, app.worker`parked
  {
    c in app.claims && s.resident && app.SessionOk(s) && s.key in app.claims[c].keys && app.Reaches(s) &&
    (s.key !in app.tainted && s.key in app.worker.parked ==> app.worker.parked[s.key] == s.tokens)
  }

  /** An unretained context holds the pages of its claim. */
  ghost predicate HoldsPages(app: Application, ctx: RequestContext)
    reads ctx, app`claims, app`nextContext
  {
    ctx.id < app.nextContext && Context(ctx.id) in app.claims && app.claims[Context(ctx.id)].pages == ctx.heldPages
  }

  /** The context and its claim agree, or the context has handed everything to a stored session. */
  ghost predicate ContextOk(app: Application, ctx: RequestContext)
    reads ctx, app`claims, app`spoiled, app`everSaved, app`tainted, app`nextContext, app.worker`snapshots, app.worker`parked
  {
    if ctx.retained then ctx.id < app.nextContext && Context(ctx.id) !in app.claims
    else HoldsPages(app, ctx) && (ctx.session.Some? ==> Holds(app, Context(ctx.id), ctx.session.value))
  }

  /** A resident session with these tokens, on just as many pages as they need. */
  ghost predicate Stores(app: Application, tokens: seq<nat>, media: int)
    reads app`sessions
  {
    exists s :: s in app.sessions && s.tokens == tokens && s.media == media && JustEnough(s.pages, |tokens|, app.pageTokens)
  }

  lemma SessionPages(app: Application, s: Session)
    requires app.SessionOk(s)
    ensures JustEnough(s.pages, |s.tokens|, app.pageTokens)
  {}

  /** Keys become tainted only as they are allocated. */
  ghost predicate NewTaints(before: set<nat>, after: set<nat>, nextKey: nat) {
    before <= after && forall k :: k in after && k !in before ==> k >= nextKey
  }

  /** Steps of other requests keep a context: its claim is spared, its keys stay as they are, and so do the snapshots. */
  twostate lemma OthersKeepContext(app: Application, ctx: RequestContext, mine: set<Claim>)
    requires old(app.Valid()) && old(ContextOk(app, ctx)) && unchanged(ctx) && Context(ctx.id) !in mine
    requires Spared(mine, old(app.claims), old(app.worker.parked), app.claims, app.worker.parked)
    requires app.claims.Keys <= old(app.claims).Keys + mine && old(app.nextContext) <= app.nextContext
    requires NewTaints(old(app.tainted), app.tainted, old(app.nextKey))
    requires old(app.spoiled) <= app.spoiled && old(app.everSaved) <= app.everSaved
    requires SameElsewhere(old(app.everSaved), old(app.worker.snapshots), app.worker.snapshots, app.spoiled)
    ensures ContextOk(app, ctx)
  {
    if !ctx.retained {
      var c := Context(ctx.id);
      assert GrantSpared(old(app.claims)[c], old(app.worker.parked), app.worker.parked);
      assert old(app.ClaimOk(c));
      if ctx.session.Some? {
        assert SameAt(old(app.worker.parked), app.worker.parked, ctx.session.value.key);
      }
    }
  }

  // Admission

  /** What was loaded for a session from its snapshot. */
  ghost predicate Restored(app: Application, s: Session, key: nat)
    reads app`spoiled, app`tainted, app.worker`snapshots, app.worker`parked
  {
    s.snapshot.Some? && s.snapshot.value.Name() in app.worker.snapshots && key in app.worker.parked &&
    app.worker.parked[key] == app.worker.snapshots[s.snapshot.value.Name()] &&
    |app.worker.parked[key]| == s.snapshot.value.position &&
    (key in app.tainted <==> app.worker.parked[key] != s.tokens) &&
    (app.Kept(s.snapshot.value) ==>
       (app.worker.parked[key] == s.tokens <==> s.snapshot.value.position == |s.tokens|))
  }

  /** Loads a session whose pages are reserved; on failure they are given back and the entry returns to disk. */
  method LoadFromDisk(app: Application, s: Session, ghost c: Claim) returns (r: Option<Session>)
    requires app.Valid() && app.OnDisk(s) && c.Context? && c in app.claims && app.claims[c] == Grant(s.pages, {})
    modifies app`nextKey, app`claims, app`owners, app`reserved, app`diskSessions, app`tainted, app.worker`parked
    ensures app.Valid() && app.claims.Keys == old(app.claims).Keys
    ensures NewTaints(old(app.tainted), app.tainted, old(app.nextKey)) && app.nextKey >= old(app.nextKey)
    ensures Spared({c}, old(app.claims), old(app.worker.parked), app.claims, app.worker.parked)
    ensures r.None? ==> app.claims[c].pages == 0 && app.tainted == old(app.tainted)
    ensures r.Some? ==> app.tainted <= old(app.tainted) + {r.value.key}
    ensures r.Some? ==> app.diskSessions == old(app.diskSessions)
    ensures AllExact(old(app.diskSessions)) && (r.None? ==> Exact(s)) ==> AllExact(app.diskSessions)
    ensures r.Some? ==> r.value == s.(key := r.value.key, resident := true) && Holds(app, c, r.value)
    ensures r.Some? ==> app.claims[c].pages == s.pages && Restored(app, s, r.value.key)
    ensures s.snapshot.value.Name() !in app.worker.snapshots ==> r.None?
    ensures (app.worker.willing && s.snapshot.value.Name() in app.worker.snapshots &&
             |app.worker.snapshots[s.snapshot.value.Name()]| == s.snapshot.value.position) ==> r.Some?
  {
    hide Application.Valid, Spared, ContextPages;
    ghost var claims0, parked0 := app.claims, app.worker.parked;
    FreshKeyIsClean(app);
    var key := app.AllocateSessionKey(c);
    ghost var claims1 := app.claims;
    var n := s.snapshot.value;
    var loaded := app.LoadUnder(key, n, c);
    SparedThen({c}, claims0, parked0, {c}, claims1, parked0, {c}, app.claims, app.worker.parked);
    if loaded {
      if app.worker.parked[key] != s.tokens {
        app.Taint(key);
      }
      return Some(s.(key := key, resident := true));
    }
    ghost var claims2, parked2 := app.claims, app.worker.parked;
    var ok := app.ReleaseCredits(s.pages, c);
    SparedThen({c}, claims0, parked0, {c}, claims2, parked2, {c}, app.claims, app.worker.parked);
    app.ReturnDiskSession(s);
    r := None;
  }

  lemma FreshKeyIsClean(app: Application)
    requires app.Valid()
    ensures app.nextKey !in app.tainted && app.nextKey !in app.worker.parked
  {}

  /** Loads a session from disk into the worker under a new key, evicting until its pages fit. */
  method RestoreFromDisk(app: Application, s: Session, ghost c: Claim) returns (r: Option<Session>)
    requires app.Valid() && app.OnDisk(s) && c.Context? && c in app.claims && app.claims[c] == Grant(0, {})
    modifies app`sessions, app`nextKey, app`claims, app`owners, app`reserved, app`diskSessions, app`tainted, app.worker`parked
    ensures app.Valid() && app.claims.Keys == old(app.claims).Keys
    ensures NewTaints(old(app.tainted), app.tainted, old(app.nextKey)) && app.nextKey >= old(app.nextKey)
    ensures Spared({c}, old(app.claims), old(app.worker.parked), app.claims, app.worker.parked)
    ensures r.None? ==> app.claims[c].pages == 0 && app.tainted == old(app.tainted)
    ensures r.Some? ==> app.tainted <= old(app.tainted) + {r.value.key}
    ensures AllExact(old(app.diskSessions)) && (r.None? ==> Exact(s)) ==> AllExact(app.diskSessions)
    ensures r.Some? ==> r.value == s.(key := r.value.key, resident := true) && Holds(app, c, r.value)
    ensures r.Some? ==> app.claims[c].pages == s.pages && Restored(app, s, r.value.key)
    ensures s.snapshot.value.Name() !in app.worker.snapshots ==> r.None?
    ensures AllExact(old(app.sessions)) ==> AllExact(app.sessions)
  {
    hide Application.Valid, Spared, Application.SessionOk, Restored, Holds, AllExact;
    ghost var claims0, parked0 := app.claims, app.worker.parked;
    var ok := app.AcquirePages(s.pages, c);
    while !ok
      invariant app.Valid() && app.OnDisk(s) && app.tainted == old(app.tainted) && app.nextKey == old(app.nextKey)
      invariant AllExact(old(app.sessions)) ==> AllExact(app.sessions)
      invariant app.diskSessions == old(app.diskSessions)
      invariant app.claims == if ok then claims0[c := Grant(s.pages, {})] else claims0
      invariant Spared({c}, claims0, parked0, app.claims, app.worker.parked)
      decreases |app.sessions| + if ok then 0 else 1
    {
      ghost var claims1, parked1 := app.claims, app.worker.parked;
      var evicted := app.EvictLruSession();
      SparedThen({c}, claims0, parked0, {}, claims1, parked1, {c}, app.claims, app.worker.parked);
      if !evicted {
        app.ReturnDiskSession(s);
        return None;
      }
      claims1, parked1 := app.claims, app.worker.parked;
      ok := app.AcquirePages(s.pages, c);
      SparedThen({c}, claims0, parked0, {c}, claims1, parked1, {c}, app.claims, app.worker.parked);
    }
    ghost var claims1, parked1 := app.claims, app.worker.parked;
    r := LoadFromDisk(app, s, c);
    SparedThen({c}, claims0, parked0, {c}, claims1, parked1, {c}, app.claims, app.worker.parked);
  }

  /** No session that was there and young enough is a longer prefix of the prompt. */
  ghost predicate Longest(app: Application, resident: seq<Session>, disk: seq<Session>, prompt: seq<nat>, media: int,
                          cutoff: int, s: Session)
  {
    (app.retentionEnabled ==>
       forall x :: x in resident && x.lastUsed >= cutoff && x.tokens <= prompt && x.media == media ==> |x.tokens| <= |s.tokens|) &&
    (app.retentionEnabled && app.cacheEnabled ==>
       forall x :: x in disk && x.tokens <= prompt && x.media == media ==> |x.tokens| <= |s.tokens|)
  }

  /**
   Admission carries at most an already parked prefix, a longest one, whose pages the context holds.  One that was
   resident is as untainted as it was; one from disk, `restored`, is untainted exactly if its snapshot holds its tokens.
  */
  method AcquireRequestContext(app: Application, prompt: seq<nat>, media: int, cutoff: int)
    returns (ctx: RequestContext, ghost restored: Option<Session>)
    requires app.Valid()
    modifies app`sessions, app`nextKey, app`claims, app`owners, app`reserved, app`diskSessions, app`tainted, app`nextContext
    modifies app.worker`parked
    ensures app.Valid() && fresh(ctx) && ContextOk(app, ctx) && !ctx.retained
    ensures NewTaints(old(app.tainted), app.tainted, old(app.nextKey)) && app.nextKey >= old(app.nextKey)
    ensures ctx.id == old(app.nextContext) && app.nextContext == ctx.id + 1
    ensures app.claims.Keys == old(app.claims).Keys + {Context(ctx.id)} && Context(ctx.id) !in old(app.claims)
    ensures Spared({Context(ctx.id)}, old(app.claims), old(app.worker.parked), app.claims, app.worker.parked)
    ensures ctx.session.Some? ==> ctx.session.value.tokens <= prompt && ctx.session.value.media == media
    ensures ctx.session.Some? ==> Matches(ctx.session.value, prompt, media)
    ensures ctx.session.Some? ==>
      Longest(app, old(app.sessions), old(app.diskSessions), prompt, media, cutoff, ctx.session.value)
    ensures restored.None? ==> app.tainted == old(app.tainted) && (ctx.session.Some? ==> ctx.session.value in old(app.sessions))
    ensures restored.Some? ==> restored.value in old(app.diskSessions) && ctx.session.Some? &&
                               ctx.session.value == restored.value.(key := ctx.session.value.key, resident := true)
    ensures restored.Some? ==>
      Restored(app, restored.value, ctx.session.value.key) && app.tainted <= old(app.tainted) + {ctx.session.value.key}
    ensures AllExact(old(app.sessions)) && AllExact(old(app.diskSessions)) ==>
      AllExact(app.sessions) && AllExact(app.diskSessions) && (ctx.session.Some? ==> Exact(ctx.session.value))
    ensures ctx.heldPages == if ctx.session.Some? then ctx.session.value.pages else 0
    ensures old(app.sessions) == [] && (app.cacheEnabled ==> old(app.diskSessions) == []) ==> ctx.session.None?
  {
    hide Application.Valid, Spared, Matches, Application.SessionOk, Restored, AllExact;
    restored := None;
    ghost var claims0, parked0, sessions0, disk0 := app.claims, app.worker.parked, app.sessions, app.diskSessions;
    ghost var c := NewContextClaim(app);
    ghost var claims1 := app.claims;
    var session := app.CheckoutSession(prompt, media, cutoff, c);
    forall x
      ensures Matches(x, prompt, media) <==> x.tokens <= prompt && x.media == media
    {
      MatchIsPrefix(x, prompt, media);
    }
    SparedThen({c}, claims0, parked0, {c}, claims1, parked0, {c}, app.claims, app.worker.parked);
    if session.Some? && !session.value.resident {
      ghost var s, claims2, parked2 := session.value, app.claims, app.worker.parked;
      session := RestoreFromDisk(app, session.value, c);
      SparedThen({c}, claims0, parked0, {c}, claims2, parked2, {c}, app.claims, app.worker.parked);
      if session.Some? {
        SameTokensMatch(s, session.value, prompt, media);
        restored := Some(s);
      }
    }
    var pages := if session.Some? then session.value.pages else 0;
    ctx := new RequestContext(c.id, session, pages);
  }

  ghost method NewContextClaim(app: Application) returns (c: Claim)
    requires app.Valid()
    modifies app`claims, app`nextContext
    ensures app.Valid() && c == Context(old(app.nextContext)) && app.nextContext == old(app.nextContext) + 1
    ensures c !in old(app.claims) && app.claims == old(app.claims)[c := Grant(0, {})]
    ensures Spared({c}, old(app.claims), app.worker.parked, app.claims, app.worker.parked)
  {
    hide Application.Valid;
    c := app.NewClaim();
  }

  lemma SameTokensMatch(s: Session, t: Session, prompt: seq<nat>, media: int)
    requires t.tokens == s.tokens && t.media == s.media && Matches(s, prompt, media)
    ensures Matches(t, prompt, media)
  {}

  // Pages

  /** Moves the context to a new page count; only growing can fail, when nothing is left to evict. */
  method ResizeRequestContext(app: Application, ctx: RequestContext, target: nat) returns (ok: bool)
    requires app.Valid() && HoldsPages(app, ctx) && !ctx.retained
    modifies ctx`heldPages, app`sessions, app`reserved, app`claims, app`owners, app.worker`parked
    ensures HoldsPages(app, ctx) && (old(ContextOk(app, ctx)) ==> ContextOk(app, ctx))
    ensures app.Valid() && app.claims.Keys == old(app.claims).Keys
    ensures app.claims[Context(ctx.id)].keys == old(app.claims)[Context(ctx.id)].keys
    ensures Spared({Context(ctx.id)}, old(app.claims), old(app.worker.parked), app.claims, app.worker.parked)
    ensures ctx.heldPages == if ok then target else old(ctx.heldPages)
    ensures !ok ==> app.sessions == [] && app.reserved + target > app.capacity + ctx.heldPages
    ensures ok ==> target <= app.capacity
    ensures app.claims.Keys == {Context(ctx.id)} && target <= app.capacity ==> ok
    ensures AllExact(old(app.sessions)) ==> AllExact(app.sessions)
    ensures forall k :: k in old(app.claims)[Context(ctx.id)].keys ==> SameAt(old(app.worker.parked), app.worker.parked, k)
  {
    hide Application.Valid, Spared, Application.SessionOk;
    ghost var c, claims0, parked0 := Context(ctx.id), app.claims, app.worker.parked;
    SparedSelf({c}, claims0, parked0);
    if target < ctx.heldPages {
      var released := app.ReleaseCredits(ctx.heldPages - target, c);
      ctx.heldPages := target;
      ClaimFits(app, c);
      return true;
    }
    var needed := target - ctx.heldPages;
    if needed > 0 {
      ok := app.AcquirePages(needed, c);
      while !ok
        invariant app.Valid() && app.claims == if ok then claims0[c := Grant(target, claims0[c].keys)] else claims0
        invariant Spared({c}, claims0, parked0, app.claims, app.worker.parked)
        invariant AllExact(old(app.sessions)) ==> AllExact(app.sessions)
        invariant (ok || app.reserved + needed > app.capacity) && ctx.heldPages == old(ctx.heldPages)
        invariant forall k :: k in claims0[c].keys ==> SameAt(parked0, app.worker.parked, k)
        decreases |app.sessions| + if ok then 0 else 1
      {
        ghost var claims1, parked1 := app.claims, app.worker.parked;
        var evicted := app.EvictLruSession();
        SparedThen({c}, claims0, parked0, {}, claims1, parked1, {c}, app.claims, app.worker.parked);
        SparedAt({}, claims1, parked1, app.claims, app.worker.parked, c);
        if !evicted {
          if app.claims.Keys == {c} { OneClaim(app, c); }
          return false;
        }
        claims1, parked1 := app.claims, app.worker.parked;
        ok := app.AcquirePages(needed, c);
        SparedThen({c}, claims0, parked0, {c}, claims1, parked1, {c}, app.claims, app.worker.parked);
      }
    }
    ctx.heldPages := target;
    ClaimFits(app, c);
    ok := true;
  }

  /** Where only one claim is left and no session is stored, it holds all the pages. */
  lemma OneClaim(app: Application, c: Claim)
    requires app.Valid() && app.sessions == [] && app.claims.Keys == {c}
    ensures app.reserved == app.claims[c].pages
  {
    TotalWithout(app.claims, c);
    assert app.claims - {c} == map[];
  }

  /** A claim never holds more than the capacity. */
  lemma ClaimFits(app: Application, c: Claim)
    requires app.Valid() && c in app.claims
    ensures app.claims[c].pages <= app.capacity
  {
    TotalWithout(app.claims, c);
  }

  lemma SparedSelf(mine: set<Claim>, c: Claims, p: Prefixes)
    ensures Spared(mine, c, p, c, p)
  {}

  lemma SparedAt(mine: set<Claim>, c: Claims, p: Prefixes, d: Claims, q: Prefixes, x: Claim)
    requires Spared(mine, c, p, d, q) && x in c && x !in mine
    ensures x in d && d[x] == c[x] && forall k :: k in c[x].keys ==> SameAt(p, q, k)
  {
    assert GrantSpared(c[x], p, q);
  }

  // Prefill

  /** The worker has the prefix, and the checkpoint lies in the rest of the prompt, counted from what it has. */
  predicate Accepts(parked: Prefixes, s: Session, prompt: seq<nat>, checkpoint: nat)
  {
    s.key in parked && |s.tokens| <= |prompt| && InDelta(checkpoint, |parked[s.key]|, |prompt| - |s.tokens|)
  }

  /** One attempt: the rest of the prompt after what is parked, or the whole of it. */
  method AttemptPrefill(app: Application, session: Option<Session>, request: nat, prompt: seq<nat>, checkpoint: nat,
                        ghost c: Claim)
    returns (r: Reply)
    requires app.Valid() && c in app.claims && (session.Some? ==> Holds(app, c, session.value) && session.value.tokens <= prompt)
    modifies app.worker`parked, app.worker`active, app.worker`resumed, app.worker`activeIds
    ensures app.Valid() && Spared({c}, app.claims, old(app.worker.parked), app.claims, app.worker.parked)
    ensures r.Done? ==> request in app.worker.active
    ensures r.Done? ==> app.worker.active == old(app.worker.active)[request := app.worker.active[request]]
    ensures app.worker.activeIds == if r.Done? then old(app.worker.activeIds) + {request} else old(app.worker.activeIds)
    ensures r.Done? && session.None? ==> app.worker.active[request] == prompt
    ensures r.Done? && session.Some? ==> session.value.key in old(app.worker.parked)
    ensures r.Done? && session.Some? ==> app.worker.Floor(request) == |old(app.worker.parked)[session.value.key]|
    ensures r.Done? && session.Some? ==>
      app.worker.active[request] == old(app.worker.parked)[session.value.key] + prompt[|session.value.tokens|..]
    ensures r.Done? && session.Some? ==>
      (app.worker.active[request] == prompt <==> old(app.worker.parked)[session.value.key] == session.value.tokens)
    ensures r.Done? && Untainted(app, session) ==> app.worker.active[request] == prompt
    ensures r.Done? ==> Covers(app, session, request)
    ensures r.Failure? ==> app.worker.active == old(app.worker.active)
    ensures session.Some? ==> Holds(app, c, session.value)
    ensures r.Failure? && r.preserved && session.Some? ==> session.value.key in app.worker.parked
    ensures session.None? ==> app.worker.parked == old(app.worker.parked)
    ensures session.Some? ==> forall k :: k != session.value.key ==> SameAt(old(app.worker.parked), app.worker.parked, k)
    ensures session.Some? && session.value.key in app.worker.parked ==>
      session.value.key in old(app.worker.parked) &&
      app.worker.parked[session.value.key] == old(app.worker.parked)[session.value.key]
    ensures r.Done? ==> |old(app.worker.active)| < app.worker.slots
    ensures r.Done? && session.Some? ==> session.value.key !in app.worker.parked
    ensures app.worker.willing && request !in old(app.worker.activeIds) && |old(app.worker.active)| < app.worker.slots ==>
      r == if session.None? || Accepts(old(app.worker.parked), session.value, prompt, checkpoint) then Done
           else Failure(false, false)
    ensures r.Done? && session.Some? ==> Accepts(old(app.worker.parked), session.value, prompt, checkpoint)
  {
    hide Application.Valid, Spared, Application.SessionOk;
    if session.Some? {
      if session.value.key in app.worker.parked {
        ResumedContext(prompt, session.value.tokens, app.worker.parked[session.value.key]);
      }
      r := app.ResumeUnder(request, session.value.key, prompt[|session.value.tokens|..], checkpoint, c);
    } else {
      SparedSelf({c}, app.claims, app.worker.parked);
      r := app.worker.Begin(request, prompt);
    }
  }

  /** A request that starts joins the active ones, for the worker and for the client. */
  predicate Joins(request: nat, ok: bool, active: map<nat, seq<nat>>, ids: set<nat>, after: map<nat, seq<nat>>, idsAfter: set<nat>)
  {
    if ok then request in after && after == active[request := after[request]] && idsAfter == ids + {request}
    else after == active && idsAfter == ids
  }

  /** All other requests are where they were, and the client lists what it listed. */
  predicate OthersStay(request: nat, active: map<nat, seq<nat>>, ids: set<nat>, after: map<nat, seq<nat>>, idsAfter: set<nat>) {
    after - {request} == active && idsAfter == ids
  }

  lemma JoinsAndLeaves(request: nat, active: map<nat, seq<nat>>, ids: set<nat>, active1: map<nat, seq<nat>>, ids1: set<nat>,
                       after: map<nat, seq<nat>>, idsAfter: set<nat>)
    requires request !in active && request !in ids && Joins(request, true, active, ids, active1, ids1)
    requires after - {request} == active1 - {request} && idsAfter == ids1 - {request}
    ensures OthersStay(request, active, ids, after, idsAfter)
  {
    assert ids + {request} - {request} == ids;
    assert active1 - {request} == active;
  }

  lemma NeverJoins(request: nat, active: map<nat, seq<nat>>, ids: set<nat>, after: map<nat, seq<nat>>, idsAfter: set<nat>)
    requires request !in active && Joins(request, false, active, ids, after, idsAfter)
    ensures request !in after && OthersStay(request, active, ids, after, idsAfter)
  {
    assert active - {request} == active;
  }

  /**
   Resumes the checked-out prefix with the rest of the prompt, evicting others for room; a failed resume rolls
   the session back when the worker kept it, and falls back to a full prefill when it did not.  The worker's context
   is that of a full prefill exactly if what was parked was the session's tokens, as it is for an untainted key.
  */
  method PrefillRequest(app: Application, ctx: RequestContext, request: nat, prompt: seq<nat>, media: int, checkpoint: nat,
                        now: int)
    returns (ok: bool, session: Option<Session>)
    requires app.Valid() && ContextOk(app, ctx) && !ctx.retained
    requires ctx.session.Some? ==> Matches(ctx.session.value, prompt, media) && ctx.heldPages == ctx.session.value.pages
    modifies ctx`retained, app`sessions, app`reserved, app`claims, app`owners
    modifies app.worker`parked, app.worker`active, app.worker`resumed, app.worker`activeIds
    ensures app.Valid() && ContextOk(app, ctx)
    ensures app.claims.Keys == if ctx.retained then old(app.claims).Keys - {Context(ctx.id)} else old(app.claims).Keys
    ensures Spared({Context(ctx.id)}, old(app.claims), old(app.worker.parked), app.claims, app.worker.parked)
    ensures session.Some? ==> session == ctx.session && session.value.tokens <= prompt
    ensures ctx.retained ==> ctx.session.Some? && Stores(app, ctx.session.value.tokens, ctx.session.value.media)
    ensures Joins(request, ok, old(app.worker.active), old(app.worker.activeIds), app.worker.active, app.worker.activeIds)
    ensures ok ==> !ctx.retained && request in app.worker.active && request in app.worker.activeIds
    ensures ok && session.None? ==> app.worker.active[request] == prompt
    ensures ok && session.Some? ==> Accepts(old(app.worker.parked), session.value, prompt, checkpoint)
    ensures ok && session.Some? ==> app.worker.Floor(request) == |old(app.worker.parked)[session.value.key]|
    ensures ok && session.Some? ==>
      (app.worker.active[request] == prompt <==> old(app.worker.parked)[session.value.key] == session.value.tokens)
    ensures ok && Untainted(app, session) ==> app.worker.active[request] == prompt
    ensures ok ==> Covers(app, session, request)
    ensures ok && session.Some? ==> session.value.key !in app.worker.parked
    ensures ok ==> |old(app.worker.active)| < app.worker.slots
    ensures app.worker.willing && request !in old(app.worker.activeIds) && |old(app.worker.active)| < app.worker.slots ==> ok
    ensures AllExact(old(app.sessions)) && (ctx.session.Some? ==> Exact(ctx.session.value)) ==> AllExact(app.sessions)
  {
    hide Application.Valid, Spared, Application.SessionOk, Covers, Untainted, Stores, GrantSpared, AllExact, Exact;
    ghost var c, claims0, parked0 := Context(ctx.id), app.claims, app.worker.parked;
    SparedSelf({c}, claims0, parked0);
    session := ctx.session;
    while true
      invariant app.Valid() && ContextOk(app, ctx) && !ctx.retained && app.claims == claims0
      invariant Spared({c}, claims0, parked0, app.claims, app.worker.parked)
      invariant app.worker.active == old(app.worker.active) && (session.Some? ==> session == ctx.session)
      invariant app.worker.activeIds == old(app.worker.activeIds) && (AllExact(old(app.sessions)) ==> AllExact(app.sessions))
      invariant session.Some? && session.value.key in app.worker.parked ==>
        session.value.key in parked0 && app.worker.parked[session.value.key] == parked0[session.value.key]
      decreases |app.sessions|, if session.Some? then 1 else 0
    {
      ghost var parked1 := app.worker.parked;
      var reply := AttemptPrefill(app, session, request, prompt, checkpoint, c);
      SparedThen({c}, claims0, parked0, {c}, claims0, parked1, {c}, claims0, app.worker.parked);
      if reply.Done? { return true, session; }
      ghost var parked2 := app.worker.parked;
      if reply.capacity {
        var evicted := EvictForRoom(app, ctx);
        SparedThen({c}, claims0, parked0, {}, claims0, parked2, {c}, claims0, app.worker.parked);
        if evicted { continue; }
      }
      if session.None? { return false, session; }
      parked2 := app.worker.parked;
      RollBack(app, ctx, session.value, reply.preserved, now);
      SparedThen({c}, claims0, parked0, {c}, claims0, parked2, {c}, app.claims, app.worker.parked);
      if reply.preserved { return false, session; }
      session := None;
    }
  }

  /** Evicts a stored session, if any; the context of the caller stays as it is. */
  method EvictForRoom(app: Application, ctx: RequestContext) returns (evicted: bool)
    requires app.Valid() && ContextOk(app, ctx) && !ctx.retained
    modifies app`sessions, app`reserved, app`claims, app`owners, app.worker`parked
    ensures app.Valid() && ContextOk(app, ctx) && app.claims == old(app.claims) && |app.sessions| <= |old(app.sessions)|
    ensures evicted ==> |app.sessions| < |old(app.sessions)|
    ensures Spared({}, old(app.claims), old(app.worker.parked), app.claims, app.worker.parked)
    ensures ctx.session.Some? ==> SameAt(old(app.worker.parked), app.worker.parked, ctx.session.value.key)
    ensures AllExact(old(app.sessions)) ==> AllExact(app.sessions)
  {
    hide Application.Valid, Spared, Application.SessionOk, AllExact;
    ghost var parked0 := app.worker.parked;
    evicted := app.EvictLruSession();
    SparedAt({}, app.claims, parked0, app.claims, app.worker.parked, Context(ctx.id));
  }

  /** After a failed resume: what the worker preserved is stored again, and what it did not is dropped. */
  method RollBack(app: Application, ctx: RequestContext, s: Session, preserved: bool, now: int)
    requires app.Valid() && !ctx.retained && HoldsPages(app, ctx) && Holds(app, Context(ctx.id), s)
    requires ctx.session == Some(s) && ctx.heldPages == s.pages && (preserved ==> s.key in app.worker.parked)
    modifies ctx`retained, app`sessions, app`reserved, app`claims, app`owners, app.worker`parked
    ensures app.Valid() && ContextOk(app, ctx) && (ctx.retained <==> preserved)
    ensures app.claims == if preserved then old(app.claims) - {Context(ctx.id)} else old(app.claims)
    ensures preserved ==> Stores(app, s.tokens, s.media)
    ensures !preserved ==> s.key !in app.worker.parked && app.sessions == old(app.sessions)
    ensures AllExact(old(app.sessions)) && Exact(s) ==> AllExact(app.sessions)
    ensures Spared({Context(ctx.id)}, old(app.claims), old(app.worker.parked), app.claims, app.worker.parked)
  {
    hide Application.Valid, Spared, Application.SessionOk, AllExact, Exact, Stores;
    if preserved {
      ReturnPreserved(app, ctx, s, now);
    } else {
      app.DropUnder(s.key, Context(ctx.id));
    }
  }

  /** A session that the worker kept is stored again, with everything the context held. */
  method ReturnPreserved(app: Application, ctx: RequestContext, s: Session, now: int)
    requires app.Valid() && !ctx.retained && HoldsPages(app, ctx) && Holds(app, Context(ctx.id), s)
    requires ctx.heldPages == s.pages && s.key in app.worker.parked
    modifies ctx`retained, app`sessions, app`reserved, app`claims, app`owners, app.worker`parked
    ensures app.Valid() && ctx.retained && ContextOk(app, ctx)
    ensures app.claims == old(app.claims) - {Context(ctx.id)} && Stores(app, s.tokens, s.media)
    ensures AllExact(old(app.sessions)) && Exact(s) ==> AllExact(app.sessions)
    ensures Spared({Context(ctx.id)}, old(app.claims), old(app.worker.parked), app.claims, app.worker.parked)
  {
    hide Application.Valid, Spared, Application.SessionOk;
    TouchKeepsOk(app, s, now);
    SessionPages(app, s);
    app.StoreSession(s.(lastUsed := now), Context(ctx.id));
    ctx.retained := true;
  }

  lemma TouchKeepsOk(app: Application, s: Session, now: int)
    ensures (app.SessionOk(s) ==> app.SessionOk(s.(lastUsed := now))) && (Exact(s) <==> Exact(s.(lastUsed := now)))
  {}

  // Retaining

  /** Retries for as long as a session can be evicted for room. */
  method EndRetainWithEviction(app: Application, request: nat, key: nat, checkpoint: nat, ghost c: Claim) returns (r: Parked)
    requires app.Valid() && c.Context? && c in app.claims && key in app.claims[c].keys
    modifies app`sessions, app`reserved, app`claims, app`owners, app.worker`parked, app.worker`active, app.worker`activeIds
    ensures app.Valid() && app.claims == old(app.claims)
    ensures Spared({c}, old(app.claims), old(app.worker.parked), app.claims, app.worker.parked)
    ensures !r.NotParked? ==> request in old(app.worker.active) && app.worker.active == old(app.worker.active) - {request}
    ensures !r.NotParked? ==> app.worker.activeIds == old(app.worker.activeIds) - {request}
    ensures r.NotParked? ==>
      app.worker.active == old(app.worker.active) && app.worker.activeIds == old(app.worker.activeIds)
    ensures r.Parking? ==> old(app.worker.Floor(request)) <= r.tokens <= |old(app.worker.active)[request]|
    ensures r.Parking? ==> key in app.worker.parked
    ensures r.Parking? ==> app.worker.parked[key] == old(app.worker.active)[request][..r.tokens]
    ensures forall k :: k in app.claims[c].keys && k != key ==> SameAt(old(app.worker.parked), app.worker.parked, k)
    ensures !r.Parking? ==> SameAt(old(app.worker.parked), app.worker.parked, key)
    ensures app.worker.willing && request in old(app.worker.active) && key !in old(app.worker.parked) ==>
      r.Parking? && (old(app.worker.Floor(request)) <= checkpoint <= |old(app.worker.active)[request]| ==>
                       r == Parking(checkpoint, 0))
    ensures AllExact(old(app.sessions)) ==> AllExact(app.sessions)
  {
    hide Application.Valid, Spared;
    ghost var claims0, parked0 := app.claims, app.worker.parked;
    SparedSelf({c}, claims0, parked0);
    while true
      invariant app.Valid() && app.claims == claims0
      invariant Spared({c}, claims0, parked0, app.claims, app.worker.parked)
      invariant app.worker.active == old(app.worker.active) && app.worker.activeIds == old(app.worker.activeIds)
      invariant AllExact(old(app.sessions)) ==> AllExact(app.sessions)
      invariant forall k :: k in claims0[c].keys ==> SameAt(parked0, app.worker.parked, k)
      decreases |app.sessions|
    {
      ghost var parked1 := app.worker.parked;
      r := app.RetainUnder(request, key, checkpoint, c);
      SparedThen({c}, claims0, parked0, {c}, claims0, parked1, {c}, claims0, app.worker.parked);
      if !r.NotParked? || !r.capacity { return; }
      var evicted := app.EvictLruSession();
      SparedThen({c}, claims0, parked0, {}, claims0, parked1, {c}, claims0, app.worker.parked);
      SparedAt({}, claims0, parked1, claims0, app.worker.parked, c);
      if !evicted { return; }
    }
  }

  /** A report that the server takes: as many tokens as it may keep, and no page count or the right one. */
  predicate Acceptable(r: Parked, checkpoint: nat, limit: nat, exact: bool, pageTokens: nat) {
    r.Parking? && (if exact then r.tokens == checkpoint else 0 < r.tokens <= limit) &&
    (r.pages == 0 || JustEnough(r.pages, r.tokens, pageTokens))
  }

  /** Parks under a key and checks what the worker reports; a report that is not acceptable drops the prefix. */
  method EndRetainChecked(app: Application, request: nat, key: nat, checkpoint: nat, limit: nat, exact: bool, ghost c: Claim)
    returns (ok: bool, n: nat, ended: bool, ghost report: Parked)
    requires app.Valid() && c.Context? && c in app.claims && key in app.claims[c].keys && 0 < checkpoint <= limit
    modifies app`sessions, app`reserved, app`claims, app`owners, app.worker`parked, app.worker`active, app.worker`activeIds
    ensures app.Valid() && app.claims == old(app.claims)
    ensures Spared({c}, old(app.claims), old(app.worker.parked), app.claims, app.worker.parked)
    ensures forall k :: k in app.claims[c].keys && k != key ==> SameAt(old(app.worker.parked), app.worker.parked, k)
    ensures Ends(request, ended, old(app.worker.active), old(app.worker.activeIds), app.worker.active, app.worker.activeIds)
    ensures ok <==> Acceptable(report, checkpoint, limit, exact, app.pageTokens)
    ensures ok ==> ended && n == report.tokens && 0 < n <= limit && (exact ==> n == checkpoint)
    ensures (app.worker.willing && request in old(app.worker.active) && key !in old(app.worker.parked) &&
             old(app.worker.Floor(request)) <= checkpoint <= |old(app.worker.active)[request]|) ==> ok && n == checkpoint
    ensures app.worker.willing && request in old(app.worker.active) && key !in old(app.worker.parked) ==> ended
    ensures AllExact(old(app.sessions)) ==> AllExact(app.sessions)
    ensures ok ==> old(app.worker.Floor(request)) <= n <= |old(app.worker.active)[request]|
    ensures ok ==> key in app.worker.parked && app.worker.parked[key] == old(app.worker.active)[request][..n]
    ensures !ok ==> key !in app.worker.parked || SameAt(old(app.worker.parked), app.worker.parked, key)
  {
    hide Application.Valid, Spared, ContextPages, JustEnough;
    ghost var claims0, parked0 := app.claims, app.worker.parked;
    PageSizePositive(app);
    var r := EndRetainWithEviction(app, request, key, checkpoint, c);
    ended, report := !r.NotParked?, r;
    if !r.Parking? { return false, 0, ended, r; }
    n := r.tokens;
    PagesAreEnough(n, app.pageTokens);
    if JustEnough(r.pages, n, app.pageTokens) {
      EnoughIsUnique(r.pages, ContextPages(n, app.pageTokens), n, app.pageTokens);
    }
    ok := (if exact then n == checkpoint else 0 < n <= limit) && r.pages in {0, ContextPages(n, app.pageTokens)};
    if !ok {
      ghost var parked1 := app.worker.parked;
      app.DropUnder(key, c);
      SparedThen({c}, claims0, parked0, {c}, claims0, parked1, {c}, app.claims, app.worker.parked);
    }
  }

  /** Either the worker ended the request, and the client knows, or nothing changed for either. */
  ghost predicate Ends(request: nat, ended: bool, active: map<nat, seq<nat>>, ids: set<nat>, after: map<nat, seq<nat>>,
                       idsAfter: set<nat>)
  {
    if ended then request in active && after == active - {request} && idsAfter == ids - {request}
    else after == active && idsAfter == ids
  }

  function Continued(app: Application, key: nat, source: Option<Session>, tokens: seq<nat>, media: int, now: int): Session
    requires app.pageTokens > 0
  {
    Session(key, tokens, ContextPages(|tokens|, app.pageTokens), media, now,
            if source.Some? then source.value.snapshot else None, true)
  }

  /** A session that continues another keeps its snapshot, which is of a prefix of the same text. */
  lemma ContinuedSessionOk(app: Application, key: nat, source: Option<Session>, visible: seq<nat>, n: nat, media: int, now: int)
    requires 0 < n <= |visible| && app.pageTokens > 0
    requires source.Some? ==> app.SessionOk(source.value) && source.value.tokens <= visible
    requires source.Some? && source.value.snapshot.Some? && app.Kept(source.value.snapshot.value) ==>
      source.value.snapshot.value.position <= n
    ensures app.SessionOk(Continued(app, key, source, visible[..n], media, now))
  {
    PagesAreEnough(n, app.pageTokens);
    hide ContextPages, JustEnough;
  }

  /** What was parked of an active context is what the session says, unless its key is tainted. */
  lemma ParkedContinues(app: Application, key: nat, source: Option<Session>, was: seq<nat>, visible: seq<nat>, n: nat, media: int,
                        now: int)
    requires 0 < n <= |visible| && n <= |was| && app.pageTokens > 0
    requires source.Some? ==> app.SessionOk(source.value) && source.value.tokens <= visible
    requires source.Some? && source.value.snapshot.Some? && app.Kept(source.value.snapshot.value) ==>
      source.value.snapshot.value.position <= n
    requires key in app.worker.parked && app.worker.parked[key] == was[..n]
    requires key !in app.tainted ==> Comparable(was, visible)
    ensures
      var s := Continued(app, key, source, visible[..n], media, now);
      app.SessionOk(s) && app.Agrees(s) && app.Reaches(s) && s.key == key && s.tokens == visible[..n] && s.media == media &&
      s.pages == ContextPages(n, app.pageTokens) && s.resident && s.snapshot == if source.Some? then source.value.snapshot else None
  {
    ContinuedSessionOk(app, key, source, visible, n, media, now);
    hide Application.SessionOk, Comparable, ContextPages;
    if key !in app.tainted {
      PrefixOfComparable(was, visible, n);
    }
  }

  /** A willing worker runs this request alone, with a checkpoint within its text whose pages fit. */
  ghost predicate CanPark(app: Application, ctx: RequestContext, session: Option<Session>, request: nat, checkpoint: nat,
                          limit: nat)
    reads app`claims, app.worker`willing, app.worker`active, app.worker`parked
  {
    app.worker.willing && app.claims.Keys == {Context(ctx.id)} && request in app.worker.active && 0 < checkpoint <= limit &&
    app.pageTokens > 0 && ContextPages(checkpoint, app.pageTokens) <= app.capacity &&
    (session.Some? ==> session.value.key !in app.worker.parked)
  }

  /** The first half of retaining: the prefix is parked and the context holds exactly its pages. */
  method ParkActiveRequest(app: Application, ctx: RequestContext, session: Option<Session>, request: nat,
                           checkpoint: nat, limit: nat, exact: bool)
    returns (ok: bool, key: nat, n: nat, ended: bool)
    requires app.Valid() && ContextOk(app, ctx) && !ctx.retained && 0 < checkpoint <= limit
    requires session.Some? ==> session == ctx.session
    modifies ctx`heldPages, app`sessions, app`reserved, app`claims, app`owners, app`nextKey
    modifies app.worker`parked, app.worker`active, app.worker`activeIds
    ensures HoldsPages(app, ctx) && (!ok ==> ContextOk(app, ctx))
    ensures app.Valid() && app.claims.Keys == old(app.claims).Keys && app.nextKey >= old(app.nextKey)
    ensures Spared({Context(ctx.id)}, old(app.claims), old(app.worker.parked), app.claims, app.worker.parked)
    ensures Ends(request, ended, old(app.worker.active), old(app.worker.activeIds), app.worker.active, app.worker.activeIds)
    ensures ended ==> app.pageTokens > 0 && ContextPages(checkpoint, app.pageTokens) <= app.capacity
    ensures old(CanPark(app, ctx, session, request, checkpoint, limit)) ==>
      ended && (old(app.worker.Floor(request)) <= checkpoint <= |old(app.worker.active)[request]| ==> ok && n == checkpoint)
    ensures AllExact(old(app.sessions)) ==> AllExact(app.sessions)
    ensures ok ==> ended && 0 < n <= limit && (exact ==> n == checkpoint) && app.pageTokens > 0
    ensures ok ==> JustEnough(ctx.heldPages, n, app.pageTokens) && key in app.claims[Context(ctx.id)].keys
    ensures ok ==> if session.Some? then key == session.value.key else key !in app.tainted
    ensures ok ==> old(app.worker.Floor(request)) <= n <= |old(app.worker.active)[request]|
    ensures ok ==> key in app.worker.parked && app.worker.parked[key] == old(app.worker.active)[request][..n]
  {
    hide Application.Valid, Spared, Application.SessionOk, ContextPages, GrantSpared, AllExact, JustEnough;
    ghost var c, claims0, parked0 := Context(ctx.id), app.claims, app.worker.parked;
    key, n, ended := 0, 0, false;
    ok, key := ReserveFor(app, ctx, session, checkpoint);
    if !ok { return; }
    ghost var claims1, parked1 := app.claims, app.worker.parked;
    ok, n, ended := ParkUnder(app, ctx, key, request, checkpoint, limit, exact);
    SparedThen({c}, claims0, parked0, {c}, claims1, parked1, {c}, app.claims, app.worker.parked);
  }

  /** Parks under a key of the context and resizes the context to what was parked. */
  method ParkUnder(app: Application, ctx: RequestContext, key: nat, request: nat, checkpoint: nat, limit: nat, exact: bool)
    returns (ok: bool, n: nat, ended: bool)
    requires app.Valid() && ContextOk(app, ctx) && !ctx.retained && 0 < checkpoint <= limit && app.pageTokens > 0
    requires key in app.claims[Context(ctx.id)].keys
    modifies ctx`heldPages, app`sessions, app`reserved, app`claims, app`owners
    modifies app.worker`parked, app.worker`active, app.worker`activeIds
    ensures HoldsPages(app, ctx) && (!ok ==> ContextOk(app, ctx))
    ensures app.Valid() && app.claims.Keys == old(app.claims).Keys
    ensures Spared({Context(ctx.id)}, old(app.claims), old(app.worker.parked), app.claims, app.worker.parked)
    ensures Ends(request, ended, old(app.worker.active), old(app.worker.activeIds), app.worker.active, app.worker.activeIds)
    ensures (app.worker.willing && request in old(app.worker.active) && key !in old(app.worker.parked)) ==> ended
    ensures (app.worker.willing && app.claims.Keys == {Context(ctx.id)} && request in old(app.worker.active) &&
             ContextPages(checkpoint, app.pageTokens) <= app.capacity && key !in old(app.worker.parked) &&
             old(app.worker.Floor(request)) <= checkpoint <= |old(app.worker.active)[request]|) ==> ok && n == checkpoint
    ensures AllExact(old(app.sessions)) ==> AllExact(app.sessions)
    ensures ok ==> ended && 0 < n <= limit && (exact ==> n == checkpoint)
    ensures ok ==> JustEnough(ctx.heldPages, n, app.pageTokens) && key in app.claims[Context(ctx.id)].keys
    ensures ok ==> old(app.worker.Floor(request)) <= n <= |old(app.worker.active)[request]|
    ensures ok ==> key in app.worker.parked && app.worker.parked[key] == old(app.worker.active)[request][..n]
  {
    hide Application.Valid, Spared, Application.SessionOk, ContextPages, GrantSpared, AllExact, JustEnough;
    ghost var c, claims0, parked0 := Context(ctx.id), app.claims, app.worker.parked;
    ghost var report;
    ok, n, ended, report := EndRetainChecked(app, request, key, checkpoint, limit, exact, c);
    if !ok { return; }
    ghost var claims1, parked1 := app.claims, app.worker.parked;
    ok := FitParked(app, ctx, key, n);
    SparedThen({c}, claims0, parked0, {c}, claims1, parked1, {c}, app.claims, app.worker.parked);
  }

  /** Room for the checkpoint, and the key to park it under. */
  method ReserveFor(app: Application, ctx: RequestContext, session: Option<Session>, checkpoint: nat)
    returns (ok: bool, key: nat)
    requires app.Valid() && ContextOk(app, ctx) && !ctx.retained && (session.Some? ==> session == ctx.session)
    modifies ctx`heldPages, app`sessions, app`reserved, app`claims, app`owners, app`nextKey, app.worker`parked
    ensures app.Valid() && ContextOk(app, ctx) && app.claims.Keys == old(app.claims).Keys && app.nextKey >= old(app.nextKey)
    ensures Spared({Context(ctx.id)}, old(app.claims), old(app.worker.parked), app.claims, app.worker.parked)
    ensures ok ==> app.pageTokens > 0 && ContextPages(checkpoint, app.pageTokens) <= app.capacity
    ensures ok ==> key in app.claims[Context(ctx.id)].keys
    ensures ok ==> if session.Some? then key == session.value.key else key !in app.tainted && key !in app.worker.parked
    ensures session.Some? ==> SameAt(old(app.worker.parked), app.worker.parked, session.value.key)
    ensures (app.pageTokens > 0 && app.claims.Keys == {Context(ctx.id)} &&
             ContextPages(checkpoint, app.pageTokens) <= app.capacity) ==> ok
    ensures AllExact(old(app.sessions)) ==> AllExact(app.sessions)
  {
    hide Application.Valid, Spared, Application.SessionOk, ContextPages, GrantSpared, AllExact, JustEnough;
    ghost var c, claims0, parked0 := Context(ctx.id), app.claims, app.worker.parked;
    key := 0;
    PageSizePositive(app);
    ok := ResizeRequestContext(app, ctx, ContextPages(checkpoint, app.pageTokens));
    if !ok { return; }
    ghost var claims1, parked1 := app.claims, app.worker.parked;
    key := KeyFor(app, ctx, session);
    SparedThen({c}, claims0, parked0, {c}, claims1, parked1, {c}, app.claims, app.worker.parked);
  }

  /** The key of the continued session, or a new one. */
  method KeyFor(app: Application, ctx: RequestContext, session: Option<Session>) returns (key: nat)
    requires app.Valid() && ContextOk(app, ctx) && !ctx.retained && (session.Some? ==> session == ctx.session)
    modifies app`claims, app`owners, app`nextKey
    ensures app.Valid() && ContextOk(app, ctx) && app.nextKey >= old(app.nextKey)
    ensures app.claims.Keys == old(app.claims).Keys && key in app.claims[Context(ctx.id)].keys
    ensures Spared({Context(ctx.id)}, old(app.claims), app.worker.parked, app.claims, app.worker.parked)
    ensures if session.Some? then key == session.value.key else key !in app.tainted && key !in app.worker.parked
  {
    hide Application.Valid, Spared, Application.SessionOk;
    ghost var c := Context(ctx.id);
    SparedSelf({c}, app.claims, app.worker.parked);
    if session.Some? {
      key := session.value.key;
    } else {
      FreshKeyIsClean(app);
      key := app.AllocateSessionKey(c);
    }
  }

  /** Resizes the context to what was parked under the key; where that does not fit, the prefix is dropped. */
  method FitParked(app: Application, ctx: RequestContext, key: nat, n: nat) returns (ok: bool)
    requires app.Valid() && HoldsPages(app, ctx) && !ctx.retained && app.pageTokens > 0
    requires key in app.claims[Context(ctx.id)].keys
    modifies ctx`heldPages, app`sessions, app`reserved, app`claims, app`owners, app.worker`parked
    ensures app.Valid() && HoldsPages(app, ctx) && app.claims.Keys == old(app.claims).Keys
    ensures app.claims[Context(ctx.id)].keys == old(app.claims)[Context(ctx.id)].keys
    ensures Spared({Context(ctx.id)}, old(app.claims), old(app.worker.parked), app.claims, app.worker.parked)
    ensures ok ==> JustEnough(ctx.heldPages, n, app.pageTokens) && SameAt(old(app.worker.parked), app.worker.parked, key)
    ensures !ok ==> key !in app.worker.parked
    ensures app.claims.Keys == {Context(ctx.id)} && ContextPages(n, app.pageTokens) <= app.capacity ==> ok
    ensures AllExact(old(app.sessions)) ==> AllExact(app.sessions)
    ensures forall k :: k in app.claims[Context(ctx.id)].keys && k != key ==>
      SameAt(old(app.worker.parked), app.worker.parked, k)
  {
    hide Application.Valid, Spared, Application.SessionOk, ContextPages, ContextOk, JustEnough;
    ghost var c, claims0, parked0 := Context(ctx.id), app.claims, app.worker.parked;
    PagesAreEnough(n, app.pageTokens);
    ok := ResizeRequestContext(app, ctx, ContextPages(n, app.pageTokens));
    if !ok {
      ghost var claims1, parked1 := app.claims, app.worker.parked;
      app.DropUnder(key, c);
      SparedThen({c}, claims0, parked0, {c}, claims1, parked1, {c}, app.claims, app.worker.parked);
    }
  }

  /** The continued session, if any, was not under a tainted key. */
  ghost predicate Untainted(app: Application, session: Option<Session>)
    reads app`tainted
  {
    Unmarked(session, app.tainted)
  }

  predicate Unmarked(session: Option<Session>, tainted: set<nat>) { session.Some? ==> session.value.key !in tainted }

  /** The context of the request covers the session that it continues, and what is on disk of it. */
  ghost predicate Covers(app: Application, session: Option<Session>, request: nat)
    reads app`tainted, app`spoiled, app.worker`active, app.worker`resumed, app.worker`snapshots
  {
    session.Some? && session.value.snapshot.Some? && app.Kept(session.value.snapshot.value) ==>
      session.value.snapshot.value.position <= app.worker.Floor(request)
  }

  /** What retaining a turn left: how many tokens are stored, the snapshot they came with, and whether they were saved. */
  datatype Kept = NotKept | Kept(tokens: nat, source: Option<Snapshot>, saved: bool)
  {
    /** The stored session has an older snapshot than its tokens. */
    predicate Stale() { Kept? && !saved && source.Some? && source.value.position != tokens }
  }

  /** Whether snapshots were saved at the lengths of their sessions, before and after. */
  predicate Stays(sessions: seq<Session>, disk: seq<Session>, k: Kept, sessionsAfter: seq<Session>, diskAfter: seq<Session>) {
    AllExact(sessions) && AllExact(disk) ==> AllExact(diskAfter) && (AllExact(sessionsAfter) <==> !k.Stale())
  }

  lemma StaysNothing(sessions: seq<Session>, disk: seq<Session>, sessionsAfter: seq<Session>)
    requires AllExact(sessions) ==> AllExact(sessionsAfter)
    ensures Stays(sessions, disk, NotKept, sessionsAfter, disk)
  {}

  /** Parks the context of an active request as a session, or leaves its credits with the context. */
  method RetainActiveRequest(app: Application, ctx: RequestContext, session: Option<Session>, request: nat,
                             checkpoint: nat, visible: seq<nat>, media: int, exact: bool,
                             freshId: nat, clock: nat, now: int, bytes: nat)
    returns (kept: Kept, ended: bool)
    requires app.Valid() && ContextOk(app, ctx) && !ctx.retained
    requires session.Some? ==> session == ctx.session && session.value.tokens <= visible
    requires Untainted(app, session) && request in app.worker.active ==> Comparable(app.worker.active[request], visible)
    requires request in app.worker.active ==> Covers(app, session, request)
    modifies ctx`heldPages, ctx`retained, app`sessions, app`reserved, app`claims, app`owners, app`nextKey
    modifies app`diskSessions, app`spoiled, app`everSaved
    modifies app.worker`parked, app.worker`active, app.worker`activeIds, app.worker`snapshots
    ensures app.Valid() && ContextOk(app, ctx) && app.nextKey >= old(app.nextKey)
    ensures app.claims.Keys == if ctx.retained then old(app.claims).Keys - {Context(ctx.id)} else old(app.claims).Keys
    ensures Spared({Context(ctx.id)}, old(app.claims), old(app.worker.parked), app.claims, app.worker.parked)
    ensures ctx.retained <==> kept.Kept?
    ensures ctx.retained ==> ended && 0 < kept.tokens <= |visible| && (exact ==> kept.tokens == checkpoint)
    ensures ctx.retained ==> Stores(app, visible[..kept.tokens], media)
    ensures ctx.retained ==> kept.source == if session.Some? then session.value.snapshot else None
    ensures Ends(request, ended, old(app.worker.active), old(app.worker.activeIds), app.worker.active, app.worker.activeIds)
    ensures ended ==> app.pageTokens > 0 && 0 < checkpoint <= |visible| &&
                      ContextPages(checkpoint, app.pageTokens) <= app.capacity
    ensures old(CanPark(app, ctx, session, request, checkpoint, |visible|)) ==>
      ended && (old(app.worker.Floor(request)) <= checkpoint <= |old(app.worker.active)[request]| ==>
                  ctx.retained && kept.tokens == checkpoint)
    ensures Saves(old(app.spoiled), old(app.everSaved), old(app.worker.snapshots),
                  app.spoiled, app.everSaved, app.worker.snapshots, clock, Untainted(app, session))
    ensures Stays(old(app.sessions), old(app.diskSessions), kept, app.sessions, app.diskSessions)
  {
    hide Application.Valid, Spared, Application.SessionOk, ContextPages, Comparable, Renew, Saves, Stays, AllExact, JustEnough;
    hide Stores, HoldsPages;
    ghost var c, claims0, parked0 := Context(ctx.id), app.claims, app.worker.parked;
    SparedSelf({c}, claims0, parked0);
    SavesNothing(app.spoiled, app.everSaved, app.worker.snapshots, clock, Untainted(app, session));
    kept, ended := NotKept, false;
    StaysNothing(app.sessions, app.diskSessions, app.sessions);
    if checkpoint <= 0 || checkpoint > |visible| { return; }
    ghost var sessions0, disk0 := app.sessions, app.diskSessions;
    var ok, key, n;
    ok, key, n, ended := ParkActiveRequest(app, ctx, session, request, checkpoint, |visible|, exact);
    if !ok {
      StaysNothing(sessions0, disk0, app.sessions);
      return;
    }
    ghost var claims1, parked1, sessions1 := app.claims, app.worker.parked, app.sessions;
    kept := StoreParked(app, ctx, session, key, old(app.worker.active)[request], visible, n, media, freshId, clock, now, bytes);
    SparedThen({c}, claims0, parked0, {c}, claims1, parked1, {c}, app.claims, app.worker.parked);
    StaysThen(sessions0, sessions1, disk0, kept, app.sessions, app.diskSessions);
  }

  /** Stores what was parked of an active context as the continuation of its session. */
  method StoreParked(app: Application, ctx: RequestContext, source: Option<Session>, key: nat, ghost was: seq<nat>,
                     visible: seq<nat>, n: nat, media: int, freshId: nat, clock: nat, now: int, bytes: nat)
    returns (kept: Kept)
    requires app.Valid() && HoldsPages(app, ctx) && !ctx.retained && key in app.claims[Context(ctx.id)].keys
    requires 0 < n <= |visible| && n <= |was| && app.pageTokens > 0 && JustEnough(ctx.heldPages, n, app.pageTokens)
    requires source.Some? ==> app.SessionOk(source.value) && source.value.tokens <= visible
    requires source.Some? && source.value.snapshot.Some? && app.Kept(source.value.snapshot.value) ==>
      source.value.snapshot.value.position <= n
    requires key in app.worker.parked && app.worker.parked[key] == was[..n]
    requires key !in app.tainted ==> Comparable(was, visible)
    modifies ctx`retained, app`sessions, app`reserved, app`claims, app`owners
    modifies app`diskSessions, app`spoiled, app`everSaved, app.worker`parked, app.worker`snapshots
    ensures app.Valid() && ContextOk(app, ctx) && ctx.retained
    ensures app.claims == old(app.claims) - {Context(ctx.id)} && Stores(app, visible[..n], media)
    ensures Spared({Context(ctx.id)}, old(app.claims), old(app.worker.parked), app.claims, app.worker.parked)
    ensures Saves(old(app.spoiled), old(app.everSaved), old(app.worker.snapshots),
                  app.spoiled, app.everSaved, app.worker.snapshots, clock, key !in app.tainted)
    ensures kept == Kept(n, if source.Some? then source.value.snapshot else None, kept.Kept? && kept.saved)
    ensures Stays(old(app.sessions), old(app.diskSessions), kept, app.sessions, app.diskSessions)
  {
    hide *;
    var s := Continued(app, key, source, visible[..n], media, now);
    ParkedContinues(app, key, source, was, visible, n, media, now);
    PagesAreEnough(n, app.pageTokens);
    EnoughIsUnique(ctx.heldPages, ContextPages(n, app.pageTokens), n, app.pageTokens);
    kept := StoreRetained(app, ctx, s, freshId, clock, now, bytes);
  }

  lemma StaysThen(s: seq<Session>, t: seq<Session>, disk: seq<Session>, k: Kept, sessionsAfter: seq<Session>,
                  diskAfter: seq<Session>)
    requires (AllExact(s) ==> AllExact(t)) && Stays(t, disk, k, sessionsAfter, diskAfter)
    ensures Stays(s, disk, k, sessionsAfter, diskAfter)
  {}

  /** The second half: what was parked becomes a stored session with all that the context held, and is saved. */
  method StoreRetained(app: Application, ctx: RequestContext, s: Session, freshId: nat, clock: nat, now: int, bytes: nat)
    returns (kept: Kept)
    requires app.Valid() && HoldsPages(app, ctx) && !ctx.retained && ctx.heldPages == s.pages
    requires s.key in app.claims[Context(ctx.id)].keys
    requires s.resident && app.SessionOk(s) && app.Agrees(s) && app.Reaches(s)
    modifies ctx`retained, app`sessions, app`reserved, app`claims, app`owners
    modifies app`diskSessions, app`spoiled, app`everSaved, app.worker`parked, app.worker`snapshots
    ensures app.Valid() && ContextOk(app, ctx) && ctx.retained
    ensures app.claims == old(app.claims) - {Context(ctx.id)} && Stores(app, s.tokens, s.media)
    ensures Spared({Context(ctx.id)}, old(app.claims), old(app.worker.parked), app.claims, app.worker.parked)
    ensures Saves(old(app.spoiled), old(app.everSaved), old(app.worker.snapshots),
                  app.spoiled, app.everSaved, app.worker.snapshots, clock, s.key !in app.tainted)
    ensures kept.Kept? && kept == Kept(|s.tokens|, s.snapshot, kept.saved)
    ensures Stays(old(app.sessions), old(app.diskSessions), kept, app.sessions, app.diskSessions)
  {
    hide Application.Valid, Spared, Application.SessionOk, Application.Agrees, Application.Reaches, Saves, Renew;
    SessionPages(app, s);
    app.StoreSession(s, Context(ctx.id));
    ctx.retained := true;
    ghost var before := app.sessions;
    KeysAreDistinct(app);
    ghost var removed;
    var saved;
    saved, removed := app.PersistSession(s, freshId, clock, now, bytes);
    kept := Kept(|s.tokens|, s.snapshot, saved.Some?);
    if saved.Some? {
      RenewHas(before, s.key, saved.value, s);
      if AllExact(old(app.sessions)) {
        RenewedExact(old(app.sessions), before, s, saved.value);
      }
    }
  }

  lemma KeysAreDistinct(app: Application)
    requires app.Valid()
    ensures Distinct(app.sessions)
  {}

  /** Saving a session makes it exact, whatever its old snapshot was. */
  lemma RenewedExact(others: seq<Session>, sessions: seq<Session>, s: Session, n: Snapshot)
    requires AllExact(others) && Distinct(sessions) && s in sessions && n.position == |s.tokens|
    requires forall x :: x in sessions && x != s ==> x in others
    ensures AllExact(Renew(sessions, s.key, n))
  {
    hide Distinct, Renew;
    forall x | x in Renew(sessions, s.key, n)
      ensures Exact(x)
    {
      var y := RenewedFrom(sessions, s.key, n, x);
      if y.key == s.key {
        SameKeySame(sessions, y, s);
      }
    }
  }

  lemma PageSizePositive(app: Application)
    requires app.Valid()
    ensures app.pageTokens > 0
  {}

  lemma PrefixOfComparable(a: seq<nat>, b: seq<nat>, n: nat)
    requires Comparable(a, b) && n <= |a| && n <= |b|
    ensures a[..n] == b[..n]
  {}

  // Release

  /** Gives back what the context still holds; a retained context holds nothing. */
  method ReleaseRequestContext(app: Application, ctx: RequestContext)
    requires app.Valid() && ContextOk(app, ctx)
    modifies app`claims, app`reserved, app`diskSessions, app.worker`parked
    ensures app.Valid()
    ensures Closes(Context(ctx.id), old(app.claims), old(app.worker.parked), app.claims, app.worker.parked)
    ensures app.reserved == old(app.reserved) - if ctx.retained then 0 else ctx.heldPages
    ensures AllExact(old(app.diskSessions)) && (ctx.session.Some? ==> Exact(ctx.session.value)) ==> AllExact(app.diskSessions)
    ensures app.worker.parked == if !ctx.retained && ctx.session.Some? then old(app.worker.parked) - {ctx.session.value.key}
                                 else old(app.worker.parked)
    ensures if !ctx.retained && ctx.session.Some? && ctx.session.value.snapshot.Some?
            then app.diskSessions == WithoutSnapshot(old(app.diskSessions), ctx.session.value.snapshot.value.id) +
                                     [ctx.session.value.(key := 0, resident := false)]
            else app.diskSessions == old(app.diskSessions)
  {
    hide Application.Valid, Spared, Application.SessionOk;
    ghost var c, claims0, parked0 := Context(ctx.id), app.claims, app.worker.parked;
    SparedSelf({c}, claims0, parked0);
    if ctx.retained { return; }
    if ctx.heldPages > 0 {
      var ok := app.ReleaseCredits(ctx.heldPages, c);
    }
    ghost var claims1, parked1 := app.claims, app.worker.parked;
    if ctx.session.Some? {
      app.DropUnder(ctx.session.value.key, c);
      SparedThen({c}, claims0, parked0, {c}, claims1, parked1, {c}, app.claims, app.worker.parked);
      app.ReturnDiskSession(ctx.session.value);
    }
    claims1, parked1 := app.claims, app.worker.parked;
    app.EndClaim(c);
    SparedThen({c}, claims0, parked0, {c}, claims1, parked1, {c}, app.claims, app.worker.parked);
  }

  // A whole request

  /** How a turn decodes, and where its prefix is to be cut if that is not the end of the prompt. */
  datatype Turn = Turn(maximum: nat, retain: bool, speculative: bool, mtp: bool, eos: set<nat>, leaves: Option<nat>,
                       cachePrefix: nat)
  {
    /** The mode of a step; only the last one of a turn that is not retained gives up the slot. */
    function ModeOf(last: bool): Mode {
      if last && !retain then Final
      else if !speculative || (last && retain && mtp) then Hold
      else Plain
    }

    /** Where a turn that generated so much is cut. */
    function Checkpoint(prompt: nat, generated: nat): nat {
      if cachePrefix > 0 then cachePrefix else if prompt > 0 then prompt else generated
    }

    /** The checkpoint that the worker is told of beforehand, none for a turn that is not retained. */
    function Sent(prompt: nat): nat {
      if !retain then 0 else if cachePrefix > 0 then cachePrefix else prompt
    }

    /** The checkpoint lies within the turn, and its pages within the capacity. */
    predicate Fits(prompt: nat, generated: nat, pageTokens: nat, capacity: nat) {
      0 < Checkpoint(prompt, generated) <= prompt + generated && pageTokens > 0 &&
      ContextPages(Checkpoint(prompt, generated), pageTokens) <= capacity
    }

    predicate Finishes(generated: seq<nat>) {
      |generated| == maximum || (generated != [] && generated[|generated| - 1] in eos)
    }
  }

  /** The context that a request started with, if it was started, and whether that continued a parked prefix. */
  datatype Start = Refused | Started(context: seq<nat>, resumed: bool)

  /** What became of a turn: its start, the steps of the worker, whether it ended by parking, and what was stored. */
  datatype Outcome = Outcome(start: Start, modes: seq<Mode>, parked: bool, kept: Kept)
  {
    /** From the second protocol on, a hold makes the client forget the request. */
    predicate Held(batched: bool) { batched && Hold in modes }

    /** Nothing frees the slot: no final step, no parking, and no cancel of a request that was forgotten. */
    predicate Lost(batched: bool) { Held(batched) && Final !in modes && !parked }
  }

  /** The steps of a turn: never more than tokens, and where modes are sent one each unless the turn speculates. */
  predicate Steps(t: Turn, batched: bool, n: nat, modes: seq<Mode>) {
    |modes| <= n <= t.maximum && (n > 0 ==> modes != []) &&
    (!t.speculative ==> Plain !in modes) && (t.retain ==> Final !in modes) &&
    (t.speculative && Hold in modes ==> t.retain && t.mtp && n == t.maximum) &&
    (Final in modes ==> n == t.maximum) && (batched && !t.speculative && !t.retain && 0 < n == t.maximum ==> Final in modes) &&
    (!t.speculative && n > 0 && !(n == t.maximum && !t.retain) ==> Hold in modes) &&
    (t.retain && t.mtp && n == t.maximum == 1 ==> Hold in modes)
  }

  /**
   A request keeps its slot though the client has forgotten it: not retained, it held and ended before its last
   step; to be retained, it held and was not parked.
  */
  predicate KeepsSlot(t: Turn, batched: bool, n: nat, lastHeld: bool, parked: bool) {
    batched && 0 < n &&
    if !t.retain then !t.speculative && n < t.maximum
    else !parked && (!t.speculative || (t.mtp && n == t.maximum && lastHeld))
  }

  /** What is left of a request: whether its slot was given up, and whether the client still knows of it. */
  ghost predicate Left(request: nat, held: bool, ended: bool, active: map<nat, seq<nat>>, ids: set<nat>,
                       after: map<nat, seq<nat>>, idsAfter: set<nat>)
  {
    (if ended then after == active - {request} else request in after && after == active[request := after[request]]) &&
    idsAfter == if ended || held then ids - {request} else ids
  }

  /**
   Decodes until the end of the turn, an error or the client leaves; what is not delivered stays buffered.  A last
   step out of the buffer cancels the request, which does nothing once a hold has struck it off the list.
  */
  method Decode(app: Application, request: nat, prompt: seq<nat>, t: Turn)
    returns (finished: bool, generated: seq<nat>, buffered: seq<nat>, held: bool, ended: bool, ghost modes: seq<Mode>)
    requires request in app.worker.active && request in app.worker.activeIds
    modifies app.worker`active, app.worker`activeIds
    ensures Left(request, held, ended, old(app.worker.active), old(app.worker.activeIds),
                 app.worker.active, app.worker.activeIds)
    ensures held <==> app.worker.batched && Hold in modes
    ensures Steps(t, app.worker.batched, |generated|, modes) && (finished <==> t.Finishes(generated))
    ensures held ==> (ended <==> Final in modes) && buffered == []
    ensures !ended ==> request in app.worker.active
    ensures t.retain ==> !ended && app.worker.Floor(request) >= old(app.worker.Floor(request))
    ensures t.retain && old(app.worker.active)[request] == prompt ==> app.worker.active[request] == prompt + generated + buffered
    ensures app.worker.willing && !finished ==> t.leaves == Some(|generated|)
    ensures t.leaves.Some? ==> |generated| <= t.leaves.value
  {
    finished, generated, buffered, held, ended, modes := false, [], [], false, false, [];
    for i := 0 to t.maximum
      invariant !ended && !finished && Left(request, held, ended, old(app.worker.active), old(app.worker.activeIds),
                                            app.worker.active, app.worker.activeIds)
      invariant request in app.worker.active && (request in app.worker.activeIds <==> !held)
      invariant held <==> app.worker.batched && Hold in modes
      invariant Steps(t, app.worker.batched, i, modes) && |generated| == i && Final !in modes
      invariant app.worker.batched && !t.speculative ==> buffered == []
      invariant app.worker.Floor(request) >= old(app.worker.Floor(request))
      invariant old(app.worker.active)[request] == prompt && t.retain ==>
        app.worker.active[request] == prompt + generated + buffered
      invariant (i == 0 ==> buffered == []) && (i == t.maximum ==> i == 0) && (t.Finishes(generated) ==> i == t.maximum)
      invariant t.leaves.Some? ==> i <= t.leaves.value
    {
      if t.leaves == Some(i) { return; }
      var mode := t.ModeOf(i + 1 == t.maximum);
      var token: nat;
      if buffered != [] {
        token := buffered[0];
        assert prompt + generated + buffered == prompt + (generated + [token]) + buffered[1..];
        buffered := buffered[1..];
        if mode == Final {
          buffered := [];
          ended := request in app.worker.activeIds;
          app.worker.Cancel(request);
        }
      } else {
        var produced := app.worker.Step(request, mode);
        if produced == [] { return; }
        modes := modes + [mode];
        assert modes[|modes| - 1] == mode;
        held := held || (app.worker.batched && mode == Hold);
        token := produced[0];
        assert prompt + generated + [] + produced == prompt + (generated + [token]) + produced[1..];
        buffered := if mode == Final then [] else produced[1..];
        ended := mode == Final;
      }
      generated := generated + [token];
      if token in t.eos || i + 1 == t.maximum {
        finished := true;
        return;
      }
    }
    finished := true;
  }

  /** Retains a finished turn with nothing buffered, or the checkpoint of a cancelled one that the client still knows. */
  method RetainTurn(app: Application, ctx: RequestContext, session: Option<Session>, request: nat, prompt: seq<nat>,
                    generated: seq<nat>, buffered: seq<nat>, finished: bool, media: int, t: Turn,
                    freshId: nat, clock: nat, now: int, bytes: nat)
    returns (kept: Kept, ended: bool)
    requires app.Valid() && ContextOk(app, ctx) && !ctx.retained && request in app.worker.active
    requires session.Some? ==> session == ctx.session && session.value.tokens <= prompt
    requires Untainted(app, session) ==> app.worker.active[request] == prompt + generated + buffered
    requires Covers(app, session, request)
    modifies ctx`heldPages, ctx`retained, app`sessions, app`reserved, app`claims, app`owners, app`nextKey
    modifies app`diskSessions, app`spoiled, app`everSaved
    modifies app.worker`parked, app.worker`active, app.worker`activeIds, app.worker`snapshots
    ensures app.Valid() && ContextOk(app, ctx) && app.nextKey >= old(app.nextKey)
    ensures finished && buffered != [] ==> !ctx.retained && !ended
    ensures !finished && request !in old(app.worker.activeIds) ==> !ctx.retained && !ended
    ensures ctx.retained <==> kept.Kept?
    ensures ctx.retained ==> ended && 0 < kept.tokens <= |prompt + generated|
    ensures ctx.retained ==> Stores(app, (prompt + generated)[..kept.tokens], media)
    ensures ctx.retained && !finished ==> kept.tokens == if t.cachePrefix > 0 then t.cachePrefix else |prompt|
    ensures (ctx.retained && finished && app.worker.willing && old(app.claims).Keys == {Context(ctx.id)} &&
             t.Fits(|prompt|, |generated|, app.pageTokens, app.capacity) &&
             (session.Some? ==> session.value.key !in old(app.worker.parked)) &&
             old(app.worker.Floor(request)) <= t.Checkpoint(|prompt|, |generated|) <= |old(app.worker.active)[request]|) ==>
      kept.tokens == if t.cachePrefix > 0 then t.cachePrefix else if prompt != [] then |prompt| else |generated|
    ensures ctx.retained ==> kept.source == if session.Some? then session.value.snapshot else None
    ensures Ends(request, ended, old(app.worker.active), old(app.worker.activeIds), app.worker.active, app.worker.activeIds)
    ensures ended ==> t.Fits(|prompt|, |generated|, app.pageTokens, app.capacity)
    ensures (app.worker.willing && old(app.claims).Keys == {Context(ctx.id)} && finished && buffered == [] &&
             t.Fits(|prompt|, |generated|, app.pageTokens, app.capacity) &&
             (session.Some? ==> session.value.key !in old(app.worker.parked))) ==> ended
    ensures app.claims.Keys == if ctx.retained then old(app.claims).Keys - {Context(ctx.id)} else old(app.claims).Keys
    ensures Spared({Context(ctx.id)}, old(app.claims), old(app.worker.parked), app.claims, app.worker.parked)
    ensures Saves(old(app.spoiled), old(app.everSaved), old(app.worker.snapshots),
                  app.spoiled, app.everSaved, app.worker.snapshots, clock, Untainted(app, session))
    ensures Stays(old(app.sessions), old(app.diskSessions), kept, app.sessions, app.diskSessions)
  {
    hide Application.Valid, Spared, Application.SessionOk, Holds, Covers, Saves, Ends, Stays, GrantSpared, ContextPages;
    SparedSelf({Context(ctx.id)}, app.claims, app.worker.parked);
    SavesNothing(app.spoiled, app.everSaved, app.worker.snapshots, clock, Untainted(app, session));
    NotEnded(request, app.worker.active, app.worker.activeIds);
    StaysNothing(app.sessions, app.diskSessions, app.sessions);
    kept, ended := NotKept, false;
    if finished {
      if buffered != [] { return; }
      assert prompt + generated + buffered == prompt + generated;
      kept, ended := RetainActiveRequest(app, ctx, session, request, t.Checkpoint(|prompt|, |generated|), prompt + generated,
                                         media, false, freshId, clock, now, bytes);
    } else if request in app.worker.activeIds {
      assert Untainted(app, session) ==> Comparable(app.worker.active[request], prompt);
      kept, ended := RetainActiveRequest(app, ctx, session, request, if t.cachePrefix > 0 then t.cachePrefix else |prompt|,
                                         prompt, media, true, freshId, clock, now, bytes);
      assert ctx.retained ==> prompt[..kept.tokens] == (prompt + generated)[..kept.tokens];
    }
  }

  /**
   Decodes, then retains what may be retained, and cancels what the client still knows of.  The slot of the request
   remains with the worker exactly if some step was a hold, none was final and the turn was not parked.
  */
  method FinishTurn(app: Application, ctx: RequestContext, session: Option<Session>, request: nat, prompt: seq<nat>,
                    media: int, t: Turn, freshId: nat, clock: nat, now: int, bytes: nat)
    returns (generated: seq<nat>, ghost o: Outcome)
    requires app.Valid() && ContextOk(app, ctx) && !ctx.retained
    requires request in app.worker.active && request in app.worker.activeIds
    requires session.Some? ==> session == ctx.session && session.value.tokens <= prompt
    requires Untainted(app, session) ==> app.worker.active[request] == prompt
    requires Covers(app, session, request) && (session.Some? ==> session.value.key !in app.worker.parked)
    modifies ctx`heldPages, ctx`retained, app`sessions, app`reserved, app`claims, app`owners, app`nextKey
    modifies app`diskSessions, app`spoiled, app`everSaved
    modifies app.worker`parked, app.worker`active, app.worker`activeIds, app.worker`snapshots
    ensures app.Valid() && ContextOk(app, ctx) && app.nextKey >= old(app.nextKey)
    ensures app.claims.Keys == if ctx.retained then old(app.claims).Keys - {Context(ctx.id)} else old(app.claims).Keys
    ensures Spared({Context(ctx.id)}, old(app.claims), old(app.worker.parked), app.claims, app.worker.parked)
    ensures o.start == Started(old(app.worker.active)[request], session.Some?) && (ctx.retained <==> o.kept.Kept?)
    ensures request in app.worker.active <==> o.Lost(app.worker.batched)
    ensures Ended(t, Setting(app.worker.batched, app.worker.willing, old(app.claims).Keys == {Context(ctx.id)}, app.pageTokens,
                             app.capacity), |prompt|, generated, o)
    ensures app.worker.active - {request} == old(app.worker.active) - {request}
    ensures app.worker.activeIds == old(app.worker.activeIds) - {request}
    ensures Saves(old(app.spoiled), old(app.everSaved), old(app.worker.snapshots),
                  app.spoiled, app.everSaved, app.worker.snapshots, clock, Untainted(app, session))
    ensures Stays(old(app.sessions), old(app.diskSessions), o.kept, app.sessions, app.diskSessions)
  {
    hide Application.Valid, Spared, Application.SessionOk, GrantSpared, Saves, Stores, Left, Ends, ContextOk, Holds;
    hide Application.Kept, Turn.Fits, Steps, Turn.Finishes, Untainted, Ahead;
    ghost var active0, ids0 := app.worker.active, app.worker.activeIds;
    var finished, buffered, held, ended;
    ghost var modes;
    finished, generated, buffered, held, ended, modes := Decode(app, request, prompt, t);
    ghost var active1, ids1 := app.worker.active, app.worker.activeIds;
    LeftIds(request, held, ended, active0, ids0, active1, ids1);
    ghost var kept, parked, active2, ids2 := SettleTurn(app, ctx, session, request, prompt, generated, buffered, finished, media,
                                                        t, freshId, clock, now, bytes);
    SlotIsLeft(request, held, ended, active0, ids0, active1, ids1, parked, active2, ids2, app.worker.active, app.worker.activeIds);
    o := Outcome(Started(active0[request], session.Some?), modes, parked, kept);
  }

  /** Where a turn runs: what the worker is like, whether it is the only one, and what there is for retained pages. */
  datatype Setting = Setting(batched: bool, willing: bool, alone: bool, pageTokens: nat, capacity: nat)

  /**
   How an outcome follows from the turn: a held turn is parked only when it finished, and only if it fits.  A willing
   worker goes on until the turn finishes or the client leaves, and parks it if it can.
  */
  predicate Ended(t: Turn, w: Setting, prompt: nat, generated: seq<nat>, o: Outcome) {
    Steps(t, w.batched, |generated|, o.modes) &&
    (o.parked ==> t.retain && t.Fits(prompt, |generated|, w.pageTokens, w.capacity) &&
                  (o.Held(w.batched) ==> t.Finishes(generated))) &&
    (o.kept.Kept? ==> o.parked) && (t.leaves.Some? ==> |generated| <= t.leaves.value) &&
    (o.start.Refused? ==> generated == [] && o.modes == [] && !o.parked) &&
    (w.willing && o.start.Started? ==>
       (!t.Finishes(generated) ==> t.leaves == Some(|generated|)) &&
       (w.alone && t.retain && t.Finishes(generated) && o.Held(w.batched) ==>
          (t.Fits(prompt, |generated|, w.pageTokens, w.capacity) ==> o.parked)))
  }

  lemma RefusedEnded(t: Turn, w: Setting, prompt: nat)
    ensures Ended(t, w, prompt, [], Outcome(Refused, [], false, NotKept))
    ensures !Outcome(Refused, [], false, NotKept).Lost(w.batched)
  {}

  /** Whether the slot stays, in terms of the turn and of what it generated. */
  lemma SlotOf(t: Turn, w: Setting, prompt: nat, generated: seq<nat>, o: Outcome)
    requires Ended(t, w, prompt, generated, o)
    ensures o.Lost(w.batched) <==> KeepsSlot(t, w.batched, |generated|, Hold in o.modes, o.parked)
    ensures w.willing && w.alone ==>
      (o.Lost(w.batched) <==>
       KeepsSlot(t, w.batched, |generated|, Hold in o.modes,
                 t.Finishes(generated) && t.Fits(prompt, |generated|, w.pageTokens, w.capacity)))
  {
    hide Turn.Fits;
  }

  lemma LeftIds(request: nat, held: bool, ended: bool, active: map<nat, seq<nat>>, ids: set<nat>,
                after: map<nat, seq<nat>>, idsAfter: set<nat>)
    requires request in ids && Left(request, held, ended, active, ids, after, idsAfter)
    ensures request in idsAfter <==> !held && !ended
  {}

  /** After decoding: retains if asked to, cancels the request if the client knows it, and drops a prefix not retained. */
  method SettleTurn(app: Application, ctx: RequestContext, session: Option<Session>, request: nat, prompt: seq<nat>,
                    generated: seq<nat>, buffered: seq<nat>, finished: bool, media: int, t: Turn,
                    freshId: nat, clock: nat, now: int, bytes: nat)
    returns (ghost kept: Kept, ghost parked: bool, ghost active: map<nat, seq<nat>>, ghost ids: set<nat>)
    requires app.Valid() && ContextOk(app, ctx) && !ctx.retained
    requires session.Some? ==> session == ctx.session && session.value.tokens <= prompt
    requires t.retain ==> request in app.worker.active && Covers(app, session, request)
    requires t.retain && Untainted(app, session) ==> app.worker.active[request] == prompt + generated + buffered
    modifies ctx`heldPages, ctx`retained, app`sessions, app`reserved, app`claims, app`owners, app`nextKey
    modifies app`diskSessions, app`spoiled, app`everSaved
    modifies app.worker`parked, app.worker`active, app.worker`activeIds, app.worker`snapshots
    ensures app.Valid() && ContextOk(app, ctx) && app.nextKey >= old(app.nextKey)
    ensures app.claims.Keys == if ctx.retained then old(app.claims).Keys - {Context(ctx.id)} else old(app.claims).Keys
    ensures Spared({Context(ctx.id)}, old(app.claims), old(app.worker.parked), app.claims, app.worker.parked)
    ensures Ends(request, parked, old(app.worker.active), old(app.worker.activeIds), active, ids)
    ensures app.worker.activeIds == ids - {request}
    ensures app.worker.active == if request in ids then active - {request} else active
    ensures (ctx.retained <==> kept.Kept?) && (ctx.retained ==> parked)
    ensures parked ==> t.retain && t.Fits(|prompt|, |generated|, app.pageTokens, app.capacity)
    ensures parked ==> finished || request in old(app.worker.activeIds)
    ensures (app.worker.willing && old(app.claims).Keys == {Context(ctx.id)} && t.retain && finished && buffered == [] &&
             t.Fits(|prompt|, |generated|, app.pageTokens, app.capacity) &&
             (session.Some? ==> session.value.key !in old(app.worker.parked))) ==> parked
    ensures Saves(old(app.spoiled), old(app.everSaved), old(app.worker.snapshots),
                  app.spoiled, app.everSaved, app.worker.snapshots, clock, Untainted(app, session))
    ensures Stays(old(app.sessions), old(app.diskSessions), kept, app.sessions, app.diskSessions)
  {
    hide Application.Valid, Spared, Application.SessionOk, GrantSpared, Saves, Stores, Ends, Covers, Stays, Turn.Fits;
    ghost var c, claims0, parked0 := Context(ctx.id), app.claims, app.worker.parked;
    SparedSelf({c}, claims0, parked0);
    SavesNothing(app.spoiled, app.everSaved, app.worker.snapshots, clock, Untainted(app, session));
    StaysNothing(app.sessions, app.diskSessions, app.sessions);
    NotEnded(request, app.worker.active, app.worker.activeIds);
    kept, parked := NotKept, false;
    if t.retain {
      var stored, ended := RetainTurn(app, ctx, session, request, prompt, generated, buffered, finished, media, t,
                                      freshId, clock, now, bytes);
      kept, parked := stored, ended;
    }
    active, ids := app.worker.active, app.worker.activeIds;
    app.worker.Cancel(request);
    if !ctx.retained && session.Some? {
      ghost var claims1, parked1 := app.claims, app.worker.parked;
      app.DropUnder(session.value.key, c);
      SparedThen({c}, claims0, parked0, {c}, claims1, parked1, {c}, app.claims, app.worker.parked);
    }
  }

  lemma NotEnded(request: nat, active: map<nat, seq<nat>>, ids: set<nat>)
    ensures Ends(request, false, active, ids, active, ids)
  {}

  /** Decoding, retaining and the last cancel together: the slot stays if it was held and not given up. */
  lemma SlotIsLeft(request: nat, held: bool, ended: bool, active: map<nat, seq<nat>>, ids: set<nat>,
                   active1: map<nat, seq<nat>>, ids1: set<nat>, parked: bool, active2: map<nat, seq<nat>>, ids2: set<nat>,
                   after: map<nat, seq<nat>>, idsAfter: set<nat>)
    requires request in active && request in ids && Left(request, held, ended, active, ids, active1, ids1)
    requires Ends(request, parked, active1, ids1, active2, ids2) && idsAfter == ids2 - {request}
    requires after == if request in ids2 then active2 - {request} else active2
    ensures request in after <==> held && !ended && !parked
    ensures after - {request} == active - {request} && idsAfter == ids - {request}
  {}

  /** What a request does with its context: it prefills and, if that succeeds, decodes and ends the turn. */
  method AttendRequest(app: Application, ctx: RequestContext, request: nat, prompt: seq<nat>, media: int, t: Turn,
                       freshId: nat, clock: nat, now: int, bytes: nat)
    returns (generated: seq<nat>, ghost o: Outcome)
    requires app.Valid() && ContextOk(app, ctx) && !ctx.retained
    requires ctx.session.Some? ==> Matches(ctx.session.value, prompt, media) && ctx.heldPages == ctx.session.value.pages
    requires request !in app.worker.active && request !in app.worker.activeIds
    modifies ctx`heldPages, ctx`retained, app`sessions, app`reserved, app`claims, app`owners, app`nextKey
    modifies app`diskSessions, app`spoiled, app`everSaved
    modifies app.worker`parked, app.worker`active, app.worker`activeIds, app.worker`snapshots, app.worker`resumed
    ensures app.Valid() && ContextOk(app, ctx) && app.nextKey >= old(app.nextKey)
    ensures Uses(Context(ctx.id), old(app.claims), old(app.worker.parked), app.claims, app.worker.parked)
    ensures Begins(ctx.session, prompt, old(app.worker.parked), t.Sent(|prompt|), o.start)
    ensures |old(app.worker.active)| >= app.worker.slots ==> o.start.Refused?
    ensures app.worker.willing && |old(app.worker.active)| < app.worker.slots ==> o.start.Started?
    ensures request in app.worker.active <==> o.Lost(app.worker.batched)
    ensures Ended(t, Setting(app.worker.batched, app.worker.willing, old(app.claims).Keys == {Context(ctx.id)}, app.pageTokens,
                             app.capacity), |prompt|, generated, o)
    ensures OthersStay(request, old(app.worker.active), old(app.worker.activeIds), app.worker.active, app.worker.activeIds)
    ensures Saves(old(app.spoiled), old(app.everSaved), old(app.worker.snapshots),
                  app.spoiled, app.everSaved, app.worker.snapshots, clock, Untainted(app, ctx.session))
    ensures (ctx.session.Some? ==> Exact(ctx.session.value)) ==>
      Stays(old(app.sessions), old(app.diskSessions), o.kept, app.sessions, app.diskSessions)
  {
    hide Application.Valid, Spared, ContextOk, Application.SessionOk, GrantSpared, SameAt, Exact, AllExact, Stays, Begins;
    hide HoldsPages, Holds, Covers, Stores, Ahead, Matches, SameElsewhere, Ended, Outcome.Lost, Saves, Untainted, Joins, OthersStay;
    ghost var c, claims0, parked0 := Context(ctx.id), app.claims, app.worker.parked;
    ghost var sessions0, disk0, active0, ids0 := app.sessions, app.diskSessions, app.worker.active, app.worker.activeIds;
    var ok, session := PrefillRequest(app, ctx, request, prompt, media, t.Sent(|prompt|), now);
    if ok {
      PrefillBegins(session, ctx.session, prompt, parked0, t.Sent(|prompt|), app.worker.active[request]);
      generated, o := FinishPrefilled(app, ctx, session, request, prompt, media, t, freshId, clock, now, bytes, claims0, parked0,
                                      sessions0, active0, ids0);
    } else {
      o, generated := Outcome(Refused, [], false, NotKept), [];
      RefusedEnded(t, Setting(app.worker.batched, app.worker.willing, claims0.Keys == {c}, app.pageTokens, app.capacity), |prompt|);
      SavesNothing(app.spoiled, app.everSaved, app.worker.snapshots, clock, Untainted(app, ctx.session));
      RefusedBegins(ctx.session, prompt, parked0, t.Sent(|prompt|));
      NeverJoins(request, active0, ids0, app.worker.active, app.worker.activeIds);
      if ctx.session.Some? ==> Exact(ctx.session.value) {
        StaysNothing(sessions0, disk0, app.sessions);
      }
    }
  }

  /** A request from its context to the end of its turn, continuing the one that prefilled. */
  method FinishPrefilled(app: Application, ctx: RequestContext, session: Option<Session>, request: nat, prompt: seq<nat>,
                         media: int, t: Turn, freshId: nat, clock: nat, now: int, bytes: nat, ghost claims: Claims,
                         ghost parked: Prefixes, ghost sessions: seq<Session>, ghost active: map<nat, seq<nat>>, ghost ids: set<nat>)
    returns (generated: seq<nat>, ghost o: Outcome)
    requires app.Valid() && ContextOk(app, ctx) && !ctx.retained
    requires request in app.worker.active && request in app.worker.activeIds
    requires session.Some? ==> session == ctx.session && session.value.tokens <= prompt
    requires Untainted(app, session) ==> app.worker.active[request] == prompt
    requires Covers(app, session, request) && (session.Some? ==> session.value.key !in app.worker.parked)
    requires Spared({Context(ctx.id)}, claims, parked, app.claims, app.worker.parked) && app.claims.Keys == claims.Keys
    requires (ctx.session.Some? ==> Exact(ctx.session.value)) ==> AllExact(sessions) ==> AllExact(app.sessions)
    requires request !in active && request !in ids
    requires Joins(request, true, active, ids, app.worker.active, app.worker.activeIds)
    modifies ctx`heldPages, ctx`retained, app`sessions, app`reserved, app`claims, app`owners, app`nextKey
    modifies app`diskSessions, app`spoiled, app`everSaved
    modifies app.worker`parked, app.worker`active, app.worker`activeIds, app.worker`snapshots
    ensures app.Valid() && ContextOk(app, ctx) && app.nextKey >= old(app.nextKey)
    ensures Uses(Context(ctx.id), claims, parked, app.claims, app.worker.parked)
    ensures o.start == Started(old(app.worker.active)[request], session.Some?)
    ensures request in app.worker.active <==> o.Lost(app.worker.batched)
    ensures Ended(t, Setting(app.worker.batched, app.worker.willing, claims.Keys == {Context(ctx.id)}, app.pageTokens,
                             app.capacity), |prompt|, generated, o)
    ensures OthersStay(request, active, ids, app.worker.active, app.worker.activeIds)
    ensures Saves(old(app.spoiled), old(app.everSaved), old(app.worker.snapshots),
                  app.spoiled, app.everSaved, app.worker.snapshots, clock, Untainted(app, ctx.session))
    ensures (ctx.session.Some? ==> Exact(ctx.session.value)) ==>
      Stays(sessions, old(app.diskSessions), o.kept, app.sessions, app.diskSessions)
  {
    hide Application.Valid, Spared, ContextOk, GrantSpared, SameAt, Exact, AllExact, Stays, Ended, Outcome.Lost, Saves, Covers, Joins, OthersStay;
    ghost var c, claims1, parked1, sessions1, disk1 := Context(ctx.id), app.claims, app.worker.parked, app.sessions, app.diskSessions;
    ghost var active1, ids1 := app.worker.active, app.worker.activeIds;
    generated, o := FinishTurn(app, ctx, session, request, prompt, media, t, freshId, clock, now, bytes);
    JoinsAndLeaves(request, active, ids, active1, ids1, app.worker.active, app.worker.activeIds);
    SparedThen({c}, claims, parked, {c}, claims1, parked1, {c}, app.claims, app.worker.parked);
    SavesWeaker(old(app.spoiled), old(app.everSaved), old(app.worker.snapshots), app.spoiled, app.everSaved,
                app.worker.snapshots, clock, Untainted(app, session), Untainted(app, ctx.session));
    if ctx.session.Some? ==> Exact(ctx.session.value) {
      StaysThen(sessions, sessions1, disk1, o.kept, app.sessions, app.diskSessions);
    }
  }

  lemma SavesWeaker(spoiled: set<(nat, nat)>, saved: set<(nat, nat)>, snapshots: map<(nat, nat), seq<nat>>,
                    spoiledAfter: set<(nat, nat)>, savedAfter: set<(nat, nat)>, after: map<(nat, nat), seq<nat>>,
                    clock: nat, clean: bool, cleaner: bool)
    requires Saves(spoiled, saved, snapshots, spoiledAfter, savedAfter, after, clock, clean) && (cleaner ==> clean)
    ensures Saves(spoiled, saved, snapshots, spoiledAfter, savedAfter, after, clock, cleaner)
  {}

  /** A request that starts continues the parked prefix that its context holds, or prefills its prompt. */
  predicate Begins(session: Option<Session>, prompt: seq<nat>, parked: Prefixes, checkpoint: nat, s: Start) {
    s.Started? ==>
      if s.resumed then
        session.Some? && Accepts(parked, session.value, prompt, checkpoint) &&
        (s.context == prompt <==> parked[session.value.key] == session.value.tokens)
      else s.context == prompt
  }

  lemma PrefillBegins(session: Option<Session>, held: Option<Session>, prompt: seq<nat>, parked: Prefixes, checkpoint: nat,
                      context: seq<nat>)
    requires session.None? ==> context == prompt
    requires session.Some? ==> session == held && Accepts(parked, session.value, prompt, checkpoint) &&
                               (context == prompt <==> parked[session.value.key] == session.value.tokens)
    ensures Begins(held, prompt, parked, checkpoint, Started(context, session.Some?))
  {}

  lemma RefusedBegins(session: Option<Session>, prompt: seq<nat>, parked: Prefixes, checkpoint: nat)
    ensures Begins(session, prompt, parked, checkpoint, Refused)
  {}

  /** No key is tainted and no snapshot is spoiled. */
  ghost predicate Clean(app: Application)
    reads app`tainted, app`spoiled
  {
    app.tainted == {} && app.spoiled == {}
  }

  /** What was loaded, if anything, was saved at the length of its session. */
  predicate LoadedExact(restored: Option<Session>) { restored.Some? ==> Exact(restored.value) }

  /** Of what was checked out in a clean state: it is its session's tokens unless an inexact entry was loaded. */
  predicate StartsClean(restored: Option<Session>, tainted: set<nat>, session: Option<Session>, parked: Prefixes) {
    (tainted == {} <==> LoadedExact(restored)) &&
    (session.Some? && session.value.key in parked ==>
       (parked[session.value.key] == session.value.tokens <==> LoadedExact(restored))) &&
    (restored.Some? ==>
       restored.value.snapshot.Some? && session.Some? && |session.value.tokens| == |restored.value.tokens| &&
       session.value.key in parked && |parked[session.value.key]| == restored.value.snapshot.value.position)
  }

  /** Admission, with what it means in a clean state. */
  method AdmitRequest(app: Application, prompt: seq<nat>, media: int, cutoff: int)
    returns (ctx: RequestContext, ghost restored: Option<Session>)
    requires app.Valid()
    modifies app`sessions, app`nextKey, app`claims, app`owners, app`reserved, app`diskSessions, app`tainted, app`nextContext
    modifies app.worker`parked
    ensures app.Valid() && fresh(ctx) && ContextOk(app, ctx) && !ctx.retained
    ensures NewTaints(old(app.tainted), app.tainted, old(app.nextKey)) && app.nextKey >= old(app.nextKey)
    ensures Opens(Context(ctx.id), old(app.claims), old(app.worker.parked), app.claims, app.worker.parked)
    ensures ctx.session.Some? ==> Matches(ctx.session.value, prompt, media) && ctx.heldPages == ctx.session.value.pages
    ensures restored.Some? ==> restored.value in old(app.diskSessions)
    ensures old(Clean(app)) ==> StartsClean(restored, app.tainted, ctx.session, app.worker.parked)
    ensures AllExact(old(app.sessions)) && AllExact(old(app.diskSessions)) ==>
      AllExact(app.sessions) && AllExact(app.diskSessions) && (ctx.session.Some? ==> Exact(ctx.session.value))
  {
    hide Application.Valid, Spared, Application.SessionOk, Longest, GrantSpared, SameAt, Application.Reaches, AllExact, NewTaints;
    ctx, restored := AcquireRequestContext(app, prompt, media, cutoff);
  }

  /** The worker resumes a loaded entry only if the checkpoint lies in the rest of the prompt, counted from its snapshot. */
  predicate CheckpointReached(s: Session, prompt: nat, checkpoint: nat) {
    s.snapshot.Some? && |s.tokens| <= prompt && InDelta(checkpoint, s.snapshot.value.position, prompt - |s.tokens|)
  }

  /** What a clean state gives a request, and what the request leaves of it. */
  lemma CleanRun(restored: Option<Session>, tainted: set<nat>, session: Option<Session>, parked: Prefixes, prompt: seq<nat>,
                 checkpoint: nat, start: Start, spoiled: set<(nat, nat)>, saved: set<(nat, nat)>, snapshots: map<(nat, nat), seq<nat>>,
                 spoiledAfter: set<(nat, nat)>, savedAfter: set<(nat, nat)>, after: map<(nat, nat), seq<nat>>,
                 clock: nat, clean: bool)
    requires StartsClean(restored, tainted, session, parked) && Begins(session, prompt, parked, checkpoint, start)
    requires clean <==> Unmarked(session, tainted)
    requires spoiled == {} && Saves(spoiled, saved, snapshots, spoiledAfter, savedAfter, after, clock, clean)
    ensures Ahead(clock, saved) ==> (tainted == {} && spoiledAfter == {} <==> LoadedExact(restored))
    ensures start.Started? ==> (start.context == prompt <==> !start.resumed || LoadedExact(restored))
    ensures start.Started? && start.resumed && restored.Some? ==> CheckpointReached(restored.value, |prompt|, checkpoint)
  {
    hide Ahead, LoadedExact, SameElsewhere;
  }

  /** A clean state gives a request its prompt unless it resumed an inexact entry, and stays clean if it loaded none. */
  predicate CleanlyRun(ahead: bool, cleanAfter: bool, restored: Option<Session>, prompt: seq<nat>, checkpoint: nat, start: Start) {
    (ahead ==> (cleanAfter <==> LoadedExact(restored))) &&
    (start.Started? ==> (start.context == prompt <==> !start.resumed || LoadedExact(restored))) &&
    (start.Started? && start.resumed && restored.Some? ==> CheckpointReached(restored.value, |prompt|, checkpoint))
  }

  /** A request up to the end of its turn; its context is still to be released. */
  method RunRequest(app: Application, request: nat, prompt: seq<nat>, media: int, t: Turn,
                    freshId: nat, clock: nat, cutoff: int, now: int, bytes: nat)
    returns (ctx: RequestContext, generated: seq<nat>, ghost restored: Option<Session>, ghost o: Outcome)
    requires app.Valid() && request !in app.worker.active && request !in app.worker.activeIds
    modifies app, app.worker`parked, app.worker`active, app.worker`activeIds, app.worker`snapshots, app.worker`resumed
    ensures app.Valid() && fresh(ctx) && ContextOk(app, ctx)
    ensures Borrows(Context(ctx.id), old(app.claims), old(app.worker.parked), app.claims, app.worker.parked)
    ensures NewTaints(old(app.tainted), app.tainted, old(app.nextKey)) && app.nextKey >= old(app.nextKey)
    ensures Saves(old(app.spoiled), old(app.everSaved), old(app.worker.snapshots),
                  app.spoiled, app.everSaved, app.worker.snapshots, clock, false)
    ensures |old(app.worker.active)| >= app.worker.slots ==> o.start.Refused?
    ensures app.worker.willing && |old(app.worker.active)| < app.worker.slots ==> o.start.Started?
    ensures request in app.worker.active <==> o.Lost(app.worker.batched)
    ensures Ended(t, Setting(app.worker.batched, app.worker.willing, old(app.claims) == map[], app.pageTokens, app.capacity),
                  |prompt|, generated, o)
    ensures OthersStay(request, old(app.worker.active), old(app.worker.activeIds), app.worker.active, app.worker.activeIds)
    ensures restored.Some? ==> restored.value in old(app.diskSessions)
    ensures old(Clean(app)) ==>
      CleanlyRun(Ahead(clock, old(app.everSaved)), Clean(app), restored, prompt, t.Sent(|prompt|), o.start)
    ensures AllExact(old(app.sessions)) && AllExact(old(app.diskSessions)) ==> ctx.session.Some? ==> Exact(ctx.session.value)
    ensures Stays(old(app.sessions), old(app.diskSessions), o.kept, app.sessions, app.diskSessions)
  {
    hide Application.Valid, Spared, ContextOk, Application.SessionOk, GrantSpared, SameAt, Begins, StartsClean, Saves, Ahead;
    hide HoldsPages, Holds, Stores, SameElsewhere, Matches, Exact, Ended, Outcome.Lost, LoadedExact, OthersStay;
    hide NewTaints, Stays, AllExact, Unmarked, Opens, Uses, Borrows, CheckpointReached;
    ghost var claims0, parked0, clean0 := app.claims, app.worker.parked, Clean(app);
    ghost var sessions0, disk0 := app.sessions, app.diskSessions;
    ctx, restored := AdmitRequest(app, prompt, media, cutoff);
    ghost var c, claims1, parked1, tainted1 := Context(ctx.id), app.claims, app.worker.parked, app.tainted;
    ghost var sessions1, disk1 := app.sessions, app.diskSessions;
    Alone(c, claims0, parked0, claims1, parked1);
    generated, o := AttendRequest(app, ctx, request, prompt, media, t, freshId, clock, now, bytes);
    if clean0 {
      CleanRun(restored, tainted1, ctx.session, parked1, prompt, t.Sent(|prompt|), o.start, old(app.spoiled), old(app.everSaved),
               old(app.worker.snapshots), app.spoiled, app.everSaved, app.worker.snapshots, clock, Untainted(app, ctx.session));
    }
    SavesWeaker(old(app.spoiled), old(app.everSaved), old(app.worker.snapshots), app.spoiled, app.everSaved,
                app.worker.snapshots, clock, Untainted(app, ctx.session), false);
    StaysAround(sessions0, disk0, ctx.session.Some? ==> Exact(ctx.session.value), sessions1, disk1, o.kept, app.sessions,
                app.diskSessions, app.diskSessions);
    Borrowed(c, claims0, parked0, claims1, parked1, app.claims, app.worker.parked);
  }

  /**
   A request from admission to release.  No credit and no key outlives it unless they became a stored session's.  Its
   slot in the worker does exactly if some decode step was a hold, none was final and the turn was not parked: then
   the client has forgotten it, and nothing will cancel it.  From a clean state its context is the prompt unless it
   resumed an inexact entry of the disk tier, and the state stays clean exactly if it loaded none.
  */
  method Serve(app: Application, request: nat, prompt: seq<nat>, media: int, t: Turn,
               freshId: nat, clock: nat, cutoff: int, now: int, bytes: nat)
    returns (generated: seq<nat>, ghost restored: Option<Session>, ghost o: Outcome)
    requires app.Valid() && request !in app.worker.active && request !in app.worker.activeIds
    modifies app, app.worker
    ensures app.Valid() && app.claims == old(app.claims)
    ensures forall c :: c in old(app.claims) ==> GrantSpared(old(app.claims)[c], old(app.worker.parked), app.worker.parked)
    ensures NewTaints(old(app.tainted), app.tainted, old(app.nextKey)) && app.nextKey >= old(app.nextKey)
    ensures Saves(old(app.spoiled), old(app.everSaved), old(app.worker.snapshots),
                  app.spoiled, app.everSaved, app.worker.snapshots, clock, false)
    ensures |old(app.worker.active)| >= app.worker.slots ==> o.start.Refused?
    ensures app.worker.willing && |old(app.worker.active)| < app.worker.slots ==> o.start.Started?
    ensures Ended(t, Setting(app.worker.batched, app.worker.willing, old(app.claims) == map[], app.pageTokens, app.capacity),
                  |prompt|, generated, o)
    ensures request in app.worker.active <==> KeepsSlot(t, app.worker.batched, |generated|, Hold in o.modes, o.parked)
    ensures app.worker.willing && old(app.claims) == map[] ==>
      (request in app.worker.active <==>
       KeepsSlot(t, app.worker.batched, |generated|, Hold in o.modes,
                 t.Finishes(generated) && t.Fits(|prompt|, |generated|, app.pageTokens, app.capacity)))
    ensures OthersStay(request, old(app.worker.active), old(app.worker.activeIds), app.worker.active, app.worker.activeIds)
    ensures app.worker.willing == old(app.worker.willing) && app.worker.diskFull == old(app.worker.diskFull)
    ensures restored.Some? ==> restored.value in old(app.diskSessions)
    ensures old(Clean(app)) ==>
      CleanlyRun(Ahead(clock, old(app.everSaved)), Clean(app), restored, prompt, t.Sent(|prompt|), o.start)
    ensures Stays(old(app.sessions), old(app.diskSessions), o.kept, app.sessions, app.diskSessions)
  {
    hide Application.Valid, Spared, ContextOk, Application.SessionOk, GrantSpared, SameAt, Saves, Ahead, CleanlyRun;
    hide HoldsPages, Holds, Exact, Ended, KeepsSlot, Outcome.Lost, Turn.Fits, OthersStay;
    hide NewTaints, Stays, AllExact, Closes, Borrows;
    ghost var claims0, parked0, sessions0, disk0 := app.claims, app.worker.parked, app.sessions, app.diskSessions;
    var ctx;
    ctx, generated, restored, o := RunRequest(app, request, prompt, media, t, freshId, clock, cutoff, now, bytes);
    ghost var c, claims1, parked1, disk1 := Context(ctx.id), app.claims, app.worker.parked, app.diskSessions;
    SlotOf(t, Setting(app.worker.batched, app.worker.willing, claims0 == map[], app.pageTokens, app.capacity), |prompt|,
           generated, o);
    ReleaseRequestContext(app, ctx);
    StaysAtRelease(sessions0, disk0, ctx.session.Some? ==> Exact(ctx.session.value), o.kept, app.sessions, disk1,
                   app.diskSessions);
    Returned(c, claims0, parked0, claims1, parked1, app.claims, app.worker.parked);
  }

  lemma StaysAtRelease(s0: seq<Session>, d0: seq<Session>, exact: bool, k: Kept, s: seq<Session>, d: seq<Session>,
                       after: seq<Session>)
    requires Stays(s0, d0, k, s, d) && (AllExact(s0) && AllExact(d0) ==> exact) && (AllExact(d) && exact ==> AllExact(after))
    ensures Stays(s0, d0, k, s, after)
  {}

  lemma StaysAround(s0: seq<Session>, d0: seq<Session>, exact: bool, s1: seq<Session>, d1: seq<Session>, k: Kept,
                    s2: seq<Session>, d2: seq<Session>, d3: seq<Session>)
    requires AllExact(s0) && AllExact(d0) ==> AllExact(s1) && AllExact(d1) && exact
    requires (exact ==> Stays(s1, d1, k, s2, d2)) && (AllExact(d2) && exact ==> AllExact(d3))
    ensures Stays(s0, d0, k, s2, d3)
  {}

  lemma Alone(x: Claim, c: Claims, p: Prefixes, d: Claims, q: Prefixes)
    requires Opens(x, c, p, d, q)
    ensures c == map[] <==> d.Keys == {x}
  {
    assert d.Keys - {x} == c.Keys;
  }

  // The claim of a request comes with it and goes with it, and the others are spared.

  ghost predicate Opens(x: Claim, c: Claims, p: Prefixes, d: Claims, q: Prefixes) {
    x !in c && d.Keys == c.Keys + {x} && Spared({x}, c, p, d, q)
  }

  ghost predicate Uses(x: Claim, c: Claims, p: Prefixes, d: Claims, q: Prefixes) {
    d.Keys <= c.Keys && Spared({x}, c, p, d, q)
  }

  ghost predicate Closes(x: Claim, c: Claims, p: Prefixes, d: Claims, q: Prefixes) {
    d == c - {x} && Spared({x}, c, p, d, q)
  }

  ghost predicate Borrows(x: Claim, c: Claims, p: Prefixes, d: Claims, q: Prefixes) {
    x !in c && d.Keys <= c.Keys + {x} && Spared({x}, c, p, d, q)
  }

  lemma Borrowed(x: Claim, c: Claims, p: Prefixes, c1: Claims, p1: Prefixes, d: Claims, q: Prefixes)
    requires Opens(x, c, p, c1, p1) && Uses(x, c1, p1, d, q)
    ensures Borrows(x, c, p, d, q)
  {
    SparedThen({x}, c, p, {x}, c1, p1, {x}, d, q);
  }

  lemma Returned(x: Claim, c: Claims, p: Prefixes, c1: Claims, p1: Prefixes, d: Claims, q: Prefixes)
    requires Borrows(x, c, p, c1, p1) && Closes(x, c1, p1, d, q)
    ensures d == c && forall y :: y in c ==> GrantSpared(c[y], p, q)
  {
    hide GrantSpared;
    SparedThen({x}, c, p, {x}, c1, p1, {x}, d, q);
  }
}
