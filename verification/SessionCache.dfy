/**
 The server's session cache as a class: the page-credit counter, the two session tiers, and the steps a
 request takes through them.
 */
module SessionCache {
  import opened Options
  import opened PageClaims
  import opened SessionWorker
  import opened Sessions
  import Snapshots

  datatype Owner = Stored | HeldBy(claim: Claim)

  type Prefixes = map<nat, seq<nat>>

  // What one request leaves untouched for the others

  ghost predicate SameAt(p: Prefixes, q: Prefixes, k: nat) {
    (k in p <==> k in q) && (k in p && k in q ==> p[k] == q[k])
  }

  ghost predicate GrantSpared(g: Grant, p: Prefixes, q: Prefixes) {
    forall k :: k in g.keys ==> SameAt(p, q, k)
  }

  /** Every claim but `mine` keeps its pages, its keys and what the worker holds under them. */
  ghost predicate Spared(mine: set<Claim>, c: Claims, p: Prefixes, d: Claims, q: Prefixes) {
    forall x :: x in c && x !in mine ==> x in d && d[x] == c[x] && GrantSpared(c[x], p, q)
  }

  lemma SparedThen(first: set<Claim>, c: Claims, p: Prefixes, next: set<Claim>, d: Claims, q: Prefixes,
                   mine: set<Claim>, e: Claims, r: Prefixes)
    requires Spared(first, c, p, d, q) && Spared(next, d, q, e, r) && first <= mine && next <= mine
    ensures Spared(mine, c, p, e, r)
  {}

  class RequestContext {
    ghost const id: nat
    var session: Option<Session>
    var heldPages: nat
    var retained: bool

    constructor (ghost id: nat, session: Option<Session>, heldPages: nat)
      ensures this.id == id && this.session == session && this.heldPages == heldPages && !retained
    {
      this.session, this.heldPages, retained := session, heldPages, false;
      this.id := id;
    }
  }

  class Application {
    const worker: Worker
    const pageTokens: nat
    const capacity: nat
    const retentionEnabled: bool
    const cacheEnabled: bool
    const cacheTtl: int
    const cacheBytes: int
    var sessions: seq<Session>        // resident, oldest first
    var diskSessions: seq<Session>
    var reserved: int
    var nextKey: nat
    ghost var nextContext: nat
    ghost var claims: Claims
    ghost var owners: map<nat, Owner>
    ghost var everSaved: set<(nat, nat)>
    ghost var tainted: set<nat>             // keys under which something else than the session's tokens was loaded
    ghost var spoiled: set<(nat, nat)>      // snapshots that were overwritten or hold something else than was saved

    /** A snapshot that is still there and not spoiled. */
    ghost predicate Kept(n: Snapshot)
      reads this`spoiled, worker`snapshots
    {
      n.Name() in worker.snapshots && n.Name() !in spoiled
    }

    /** It holds what its session says, or what the session held when it was last saved. */
    ghost predicate SnapshotOk(n: Snapshot, tokens: seq<nat>)
      reads this`spoiled, this`everSaved, worker`snapshots
    {
      n.Name() in everSaved &&
      (Kept(n) ==> |worker.snapshots[n.Name()]| == n.position && worker.snapshots[n.Name()] <= tokens)
    }

    ghost predicate SessionOk(s: Session)
      reads this`spoiled, this`everSaved, worker`snapshots
    {
      s.tokens != [] && s.pages > 0 && pageTokens > 0 && JustEnough(s.pages, |s.tokens|, pageTokens) &&
      (s.snapshot.Some? ==> SnapshotOk(s.snapshot.value, s.tokens))
    }

    /** The worker holds the tokens of a session whose key is not tainted. */
    ghost predicate Agrees(s: Session)
      reads this`tainted, worker`parked
    {
      s.key !in tainted ==> s.key in worker.parked && worker.parked[s.key] == s.tokens
    }

    /** What the worker holds for a session is at least as long as its snapshot. */
    ghost predicate Reaches(s: Session)
      reads this`spoiled, worker`snapshots, worker`parked
    {
      s.snapshot.Some? && Kept(s.snapshot.value) && s.key in worker.parked ==>
        |worker.parked[s.key]| >= s.snapshot.value.position
    }

    ghost predicate StoredOk(s: Session)
      reads this`spoiled, this`everSaved, this`tainted, this`nextKey, this`owners, worker`snapshots, worker`parked
    {
      s.resident && SessionOk(s) && s.key < nextKey && s.key in owners && owners[s.key] == Stored && Agrees(s) && Reaches(s)
    }

    ghost predicate OnDisk(s: Session)
      reads this`spoiled, this`everSaved, worker`snapshots
    {
      !s.resident && SessionOk(s) && s.snapshot.Some?
    }

    ghost predicate ClaimOk(c: Claim)
      requires c in claims
      reads this`claims, this`owners, this`nextKey, this`nextContext
    {
      (c.Context? ==> c.id < nextContext) && (c.Victim? ==> claims[c].keys == {c.key}) &&
      forall k :: k in claims[c].keys ==> k < nextKey && k in owners && owners[k] == HeldBy(c)
    }

    ghost predicate AllStored()
      reads this`sessions, this`spoiled, this`everSaved, this`tainted, this`nextKey, this`owners
      reads worker`snapshots, worker`parked
    {
      forall s :: s in sessions ==> StoredOk(s)
    }

    ghost predicate AllOnDisk()
      reads this`diskSessions, this`spoiled, this`everSaved, worker`snapshots
    {
      OnDiskOnce(diskSessions) && forall s :: s in diskSessions ==> OnDisk(s)
    }

    ghost predicate AllClaims()
      reads this`claims, this`owners, this`nextKey, this`nextContext
    {
      forall c :: c in claims ==> ClaimOk(c)
    }

    ghost predicate Valid()
      reads this, worker`snapshots, worker`parked
    {
      pageTokens > 0 && Distinct(sessions) &&
      reserved == StoredPages(sessions) + Total(claims) <= capacity &&
      AllStored() && AllOnDisk() && AllClaims() && (forall k :: k in owners ==> k < nextKey) &&
      worker.snapshots.Keys <= everSaved && (forall k :: k in tainted ==> k < nextKey) &&
      forall k :: k in worker.parked ==> k < nextKey
    }

    constructor (worker: Worker, pageTokens: nat, capacity: nat, retentionEnabled: bool, cacheEnabled: bool,
                 cacheTtl: int, cacheBytes: int)
      requires pageTokens > 0 && worker.parked == map[]
      ensures Valid() && this.worker == worker && sessions == [] && diskSessions == [] && reserved == 0 && claims == map[]
      ensures tainted == {} && spoiled == {} && everSaved == worker.snapshots.Keys && nextKey == 1
      ensures this.pageTokens == pageTokens && this.capacity == capacity
      ensures this.retentionEnabled == retentionEnabled && this.cacheEnabled == cacheEnabled
      ensures this.cacheTtl == cacheTtl && this.cacheBytes == cacheBytes
    {
      this.worker, this.pageTokens, this.capacity := worker, pageTokens, capacity;
      this.retentionEnabled, this.cacheEnabled := retentionEnabled, cacheEnabled;
      this.cacheTtl, this.cacheBytes := cacheTtl, cacheBytes;
      sessions, diskSessions, reserved, nextKey := [], [], 0, 1;
      nextContext, claims, owners, tainted, spoiled := 0, map[], map[], {}, {};
      everSaved := worker.snapshots.Keys;
    }

    /** For a disk entry that is kept: its snapshot holds its tokens exactly if it was saved at their length. */
    lemma DiskAgrees(s: Session)
      requires Valid() && s in diskSessions && Kept(s.snapshot.value)
      ensures worker.snapshots[s.snapshot.value.Name()] == s.tokens <==> s.snapshot.value.position == |s.tokens|
    {
      hide Total, StoredPages, Distinct, AllStored, AllClaims;
      assert OnDisk(s);
    }

    // Credits

    /** Reserves pages for a claim if they fit. */
    method AcquirePages(pages: nat, ghost c: Claim) returns (ok: bool)
      requires Valid() && c in claims
      modifies this`reserved, this`claims
      ensures Valid() && (ok <==> old(reserved) + pages <= capacity)
      ensures reserved == if ok then old(reserved) + pages else old(reserved)
      ensures Spared({c}, old(claims), worker.parked, claims, worker.parked)
      ensures claims == if ok then old(claims)[c := Grant(old(claims)[c].pages + pages, old(claims)[c].keys)] else old(claims)
    {
      hide Total, Distinct, StoredPages, AllStored, AllOnDisk;
      ok := reserved + pages <= capacity;
      if ok {
        TotalSet(claims, c, Grant(claims[c].pages + pages, claims[c].keys));
        reserved := reserved + pages;
        claims := claims[c := Grant(claims[c].pages + pages, claims[c].keys)];
      }
    }

    /** Gives pages of a claim back; the source's guard against an invalid release never fires. */
    method ReleaseCredits(pages: int, ghost c: Claim) returns (ok: bool)
      requires Valid() && c in claims && 0 < pages <= claims[c].pages
      modifies this`reserved, this`claims
      ensures Valid() && ok && reserved == old(reserved) - pages
      ensures Spared({c}, old(claims), worker.parked, claims, worker.parked)
      ensures claims == old(claims)[c := Grant(old(claims)[c].pages - pages, old(claims)[c].keys)]
    {
      hide Total, Distinct, StoredPages, AllStored, AllOnDisk;
      TotalWithout(claims, c);
      if pages <= 0 || pages > reserved { return false; }
      TotalSet(claims, c, Grant(claims[c].pages - pages, claims[c].keys));
      reserved := reserved - pages;
      claims := claims[c := Grant(claims[c].pages - pages, claims[c].keys)];
      ok := true;
    }

    // Victims

    /** Removes the sessions with the given keys; they become victims that still hold their pages. */
    method RemoveSessions(keys: set<nat>) returns (removed: seq<Session>)
      requires Valid()
      modifies this`sessions, this`claims, this`owners
      ensures Valid() && removed == Take(old(sessions), keys) && sessions == Keep(old(sessions), keys)
      ensures claims == old(claims) + VictimGrants(removed) && Distinct(removed)
      ensures forall k :: k in Keys(removed) ==> Victim(k) !in old(claims)
    {
      hide Total, Keep, Take, Keys, Distinct, StoredPages, AllOnDisk, VictimGrants, SessionOk;
      ghost var before, claims0 := sessions, claims;
      removed := Take(sessions, keys);
      Split(before, keys);
      TakeKeys(before, keys);
      KeepKeys(before, keys);
      forall k | k in Keys(removed)
        ensures Victim(k) !in claims && k in owners && owners[k] == Stored && k < nextKey
      {
        var x := KeyOf(before, k);
        assert StoredOk(x);
        assert Victim(k) in claims ==> ClaimOk(Victim(k));
      }
      TotalWithVictims(claims, removed);
      sessions := Keep(sessions, keys);
      claims := claims + VictimGrants(removed);
      owners := map k | k in owners :: if k in Keys(removed) then HeldBy(Victim(k)) else owners[k];
      assert AllStored() by {
        forall s | s in sessions
          ensures StoredOk(s)
        {
          assert s in before && s.key in Keys(before) - keys;
        }
      }
      assert AllClaims() by {
        forall c | c in claims
          ensures ClaimOk(c)
        {
          if c in VictimGrants(removed) {
            var x := KeyOf(removed, c.key);
            VictimGrantAt(removed, x);
          }
        }
      }
    }

    /** Drops one victim from the worker and returns its pages. */
    method FinishVictim(s: Session)
      requires Valid() && s.pages > 0 && Victim(s.key) in claims && claims[Victim(s.key)] == VictimGrant(s)
      modifies this`reserved, this`claims, this`owners, worker`parked
      ensures Valid() && claims == old(claims) - {Victim(s.key)} && reserved == old(reserved) - s.pages
      ensures worker.parked == old(worker.parked) - {s.key}
    {
      hide Total, StoredPages, Distinct, AllOnDisk, SessionOk;
      ghost var c, claims0 := Victim(s.key), claims;
      assert ClaimOk(c);
      var _ := worker.DropSession(s.key);
      assert AllStored() by {
        forall x | x in sessions
          ensures StoredOk(x)
        {
          assert old(StoredOk(x));
        }
      }
      var ok := ReleaseCredits(s.pages, c);
      TotalWithout(claims, c);
      claims := claims - {c};
      assert claims == claims0 - {c};
    }

    /** Drops victims one after the other. */
    method FinishVictims(removed: seq<Session>, ghost others: Claims)
      requires Valid() && Distinct(removed) && claims == others + VictimGrants(removed)
      requires (forall k :: k in Keys(removed) ==> Victim(k) !in others) && forall s :: s in removed ==> s.pages > 0
      modifies this`reserved, this`claims, this`owners, worker`parked
      ensures Valid() && claims == others && worker.parked == old(worker.parked) - Keys(removed)
    {
      hide Valid, VictimGrants, Keys, Distinct;
      var rest := removed;
      while rest != []
        invariant Valid() && Distinct(rest) && claims == others + VictimGrants(rest) && Keys(rest) <= Keys(removed)
        invariant (forall k :: k in Keys(rest) ==> Victim(k) !in others) && forall s :: s in rest ==> s.pages > 0
        invariant worker.parked == old(worker.parked) - (Keys(removed) - Keys(rest))
        decreases |rest|
      {
        var s := rest[0];
        VictimsStep(others, rest);
        FinishVictim(s);
        rest := rest[1..];
      }
      NoVictims(others);
    }

    lemma StoredOwner(k: nat)
      requires Valid() && k in Keys(sessions)
      ensures k in owners && owners[k] == Stored
    {
      hide Total, StoredPages, AllOnDisk, AllClaims;
      var s := KeyOf(sessions, k);
      assert StoredOk(s);
    }

    /** The keys of stored sessions belong to no claim. */
    lemma StoredIsUnclaimed(c: Claim, k: nat)
      requires Valid() && c in claims && k in claims[c].keys
      ensures k !in Keys(sessions)
    {
      hide Total, StoredPages, AllOnDisk;
      assert ClaimOk(c);
      if k in Keys(sessions) {
        StoredOwner(k);
      }
    }

    /** Dropping stored sessions spares every claim. */
    lemma DropSpares(keys: set<nat>)
      requires Valid() && keys <= Keys(sessions)
      ensures Spared({}, claims, worker.parked, claims, worker.parked - keys)
    {
      hide Total, StoredPages, AllOnDisk, AllStored, AllClaims, Distinct, Keys;
      forall c, k | c in claims && k in claims[c].keys
        ensures k !in keys
      {
        StoredIsUnclaimed(c, k);
      }
    }

    /** Evicts the least recently stored session. */
    method EvictLruSession() returns (ok: bool)
      requires Valid()
      modifies this`sessions, this`reserved, this`claims, this`owners, worker`parked
      ensures Valid() && claims == old(claims) && (ok <==> old(sessions) != [])
      ensures sessions == if ok then old(sessions)[1..] else []
      ensures AllExact(old(sessions)) ==> AllExact(sessions)
      ensures !ok ==> reserved == old(reserved)
      ensures worker.parked == if ok then old(worker.parked) - {old(sessions)[0].key} else old(worker.parked)
      ensures Spared({}, old(claims), old(worker.parked), claims, worker.parked)
    {
      hide Total, AllOnDisk, AllClaims, StoredPages;
      if sessions == [] { return false; }
      var victim := sessions[0];
      DropSpares({victim.key});
      KeepRest(sessions);
      TakeOne(sessions, victim);
      assert StoredOk(victim);
      var removed := RemoveSessions({victim.key});
      OneKey(victim);
      FinishVictims(removed, old(claims));
      ok := true;
    }

    /** Evicts the sessions not used since the cutoff. */
    method SweepIdleSessions(cutoff: int)
      requires Valid()
      modifies this`sessions, this`reserved, this`claims, this`owners, worker`parked
      ensures Valid() && claims == old(claims)
      ensures forall s :: s in sessions <==> s in old(sessions) && s.lastUsed >= cutoff
      ensures worker.parked.Keys <= old(worker.parked).Keys
      ensures Spared({}, old(claims), old(worker.parked), claims, worker.parked)
    {
      hide Total, AllOnDisk, AllClaims, StoredPages, Distinct, Keys;
      var keys := set s | s in sessions && s.lastUsed < cutoff :: s.key;
      TakeKeys(sessions, keys);
      DropSpares(Keys(sessions) * keys);
      forall s | s in sessions
        ensures s.key in keys <==> s.lastUsed < cutoff
      {
        if s.key in keys {
          var x :| x in sessions && x.lastUsed < cutoff && x.key == s.key;
          SameKeySame(sessions, s, x);
        }
        assert s.pages > 0 by { assert StoredOk(s); }
      }
      var removed := RemoveSessions(keys);
      FinishVictims(removed, old(claims));
    }

    // Checking sessions out and in

    /** A fresh claim for a request that starts. */
    ghost method NewClaim() returns (c: Claim)
      requires Valid()
      modifies this`claims, this`nextContext
      ensures Valid() && c == Context(old(nextContext)) && nextContext == old(nextContext) + 1
      ensures c !in old(claims) && claims == old(claims)[c := Grant(0, {})]
      ensures Spared({c}, old(claims), worker.parked, claims, worker.parked)
    {
      hide Total, StoredPages, AllStored, AllOnDisk;
      c := Context(nextContext);
      assert c in claims ==> ClaimOk(c);
      TotalSet(claims, c, Grant(0, {}));
      claims, nextContext := claims[c := Grant(0, {})], nextContext + 1;
      forall d | d in claims
        ensures ClaimOk(d)
      {
        assert d != c ==> old(ClaimOk(d));
      }
    }

    /** Ends a claim that holds no pages. */
    ghost method EndClaim(c: Claim)
      requires Valid() && c in claims && claims[c].pages == 0
      modifies this`claims
      ensures Valid() && claims == old(claims) - {c} && Spared({c}, old(claims), worker.parked, claims, worker.parked)
    {
      hide Total, StoredPages, AllStored, AllOnDisk;
      TotalWithout(claims, c);
      claims := claims - {c};
      forall d | d in claims
        ensures ClaimOk(d)
      {
        assert old(ClaimOk(d));
      }
    }

    /** Moves a stored session, with its pages and its key, into a claim that holds none. */
    method TakeStored(best: Session, ghost c: Claim)
      requires Valid() && best in sessions && c.Context? && c in claims && claims[c] == Grant(0, {})
      modifies this`sessions, this`claims, this`owners
      ensures Valid() && sessions == Keep(old(sessions), {best.key})
      ensures claims == old(claims)[c := Grant(best.pages, {best.key})]
    {
      hide Total, AllOnDisk, Keep, Take, Keys, Distinct, StoredPages, SessionOk;
      ghost var before, claims0, owners0 := sessions, claims, owners;
      assert StoredOk(best);
      Split(before, {best.key});
      TakeOne(before, best);
      OnePages(best);
      KeepKeys(before, {best.key});
      TotalSet(claims, c, Grant(best.pages, {best.key}));
      sessions := Keep(sessions, {best.key});
      claims := claims[c := Grant(best.pages, {best.key})];
      owners := owners[best.key := HeldBy(c)];
      assert AllStored() by {
        forall s | s in sessions
          ensures StoredOk(s)
        {
          assert s in before && s.key != best.key;
        }
      }
      assert AllClaims() by {
        forall d | d in claims
          ensures ClaimOk(d)
        {
          assert d in claims0 && (d != c ==> old(ClaimOk(d)));
        }
      }
    }

    /** Takes the longest prefix of the prompt out of the two tiers; on a tie the resident one. */
    method CheckoutSession(prompt: seq<nat>, media: int, cutoff: int, ghost c: Claim) returns (best: Option<Session>)
      requires Valid() && c.Context? && c in claims && claims[c] == Grant(0, {})
      modifies this`sessions, this`diskSessions, this`reserved, this`claims, this`owners, worker`parked
      ensures Valid() && Spared({c}, old(claims), old(worker.parked), claims, worker.parked)
      ensures !retentionEnabled ==> best.None?
      ensures best.Some? ==> Matches(best.value, prompt, media)
      ensures retentionEnabled ==> forall s :: s in old(sessions) && s.lastUsed >= cutoff && Matches(s, prompt, media) ==>
        best.Some? && |s.tokens| <= |best.value.tokens| && (|s.tokens| == |best.value.tokens| ==> best.value.resident)
      ensures retentionEnabled && cacheEnabled ==> forall s :: s in old(diskSessions) && Matches(s, prompt, media) ==>
        best.Some? && |s.tokens| <= |best.value.tokens|
      ensures best.Some? ==> (if best.value.resident then best.value in old(sessions) && old(StoredOk(best.value))
                              else best.value in old(diskSessions) && old(OnDisk(best.value)))
      ensures claims == if best.Some? && best.value.resident
                        then old(claims)[c := Grant(best.value.pages, {best.value.key})] else old(claims)
      ensures best.Some? && best.value.resident ==> Agrees(best.value) && Reaches(best.value)
      ensures retentionEnabled ==>
        forall s :: s in sessions <==> s in old(sessions) && s.lastUsed >= cutoff && best != Some(s)
      ensures diskSessions == if best.Some? && !best.value.resident
                              then WithoutSnapshot(old(diskSessions), best.value.snapshot.value.id) else old(diskSessions)
      ensures AllExact(old(sessions)) && AllExact(old(diskSessions)) ==>
        AllExact(sessions) && AllExact(diskSessions) && (best.Some? ==> Exact(best.value))
      ensures !cacheEnabled && best.Some? ==> best.value.resident
      ensures worker.parked.Keys <= old(worker.parked).Keys
    {
      hide Total, Keep, Take, Keys, Distinct, StoredPages, SessionOk, Matches, WithoutSnapshot, AllClaims;
      if !retentionEnabled { return None; }
      SweepIdleSessions(cutoff);
      ghost var kept, disk0 := sessions, diskSessions;
      assert AllOnDisk();
      best := LongestMatch(sessions, prompt, media, -1);
      var onDisk := None;
      if cacheEnabled {
        onDisk := LongestMatch(diskSessions, prompt, media, if best.Some? then |best.value.tokens| else -1);
      }
      if onDisk.None? && best.Some? {
        assert StoredOk(best.value);
        TakeStored(best.value, c);
        forall s | s in kept && s != best.value
          ensures s in sessions
        {
          if s.key == best.value.key {
            SameKeySame(kept, s, best.value);
          }
        }
      } else if onDisk.Some? {
        best := onDisk;
        assert OnDisk(best.value);
        Relisted(diskSessions, best.value);
        WithoutIsOld(diskSessions, best.value.snapshot.value.id);
        diskSessions := WithoutSnapshot(diskSessions, best.value.snapshot.value.id);
        forall s | s in diskSessions
          ensures OnDisk(s)
        {
          assert s in disk0;
        }
      }
    }

    /** Puts a checked-out session back on disk; it is as good as its last save. */
    method ReturnDiskSession(s: Session)
      requires Valid() && SessionOk(s)
      modifies this`diskSessions
      ensures Valid()
      ensures AllExact(old(diskSessions)) && Exact(s) ==> AllExact(diskSessions)
      ensures s.snapshot.None? ==> diskSessions == old(diskSessions)
      ensures s.snapshot.Some? ==>
        diskSessions == WithoutSnapshot(old(diskSessions), s.snapshot.value.id) + [s.(key := 0, resident := false)]
    {
      hide Total, Distinct, StoredPages, WithoutSnapshot, AllClaims, AllStored, OnDiskOnce;
      if s.snapshot.None? { return; }
      ghost var disk0 := diskSessions;
      WithoutIsOld(disk0, s.snapshot.value.id);
      Relisted(diskSessions, s.(key := 0, resident := false));
      diskSessions := WithoutSnapshot(diskSessions, s.snapshot.value.id) + [s.(key := 0, resident := false)];
      assert AllOnDisk() by {
        forall x | x in diskSessions
          ensures OnDisk(x)
        {
          WithoutIsOld(disk0, s.snapshot.value.id);
          assert x in disk0 ==> old(OnDisk(x));
        }
      }
    }

    /** Records that something else than the tokens of a session was loaded under its key. */
    ghost method Taint(key: nat)
      requires Valid() && key < nextKey
      modifies this`tainted
      ensures Valid() && tainted == old(tainted) + {key}
    {
      hide Total, Distinct, StoredPages, AllClaims, AllOnDisk, SessionOk;
      tainted := tainted + {key};
      assert AllStored() by {
        forall x | x in sessions
          ensures StoredOk(x)
        {
          assert old(StoredOk(x));
        }
      }
    }

    // Worker commands under a key of the caller's own; they concern no one else

    lemma OwnKeySpares(c: Claim, key: nat, before: Prefixes)
      requires AllClaims() && c in claims && key in claims[c].keys
      requires forall k :: k != key ==> SameAt(before, worker.parked, k)
      ensures Spared({c}, claims, before, claims, worker.parked)
    {
      assert ClaimOk(c);
      forall d | d in claims && d != c
        ensures GrantSpared(claims[d], before, worker.parked)
      {
        assert ClaimOk(d);
      }
    }

    method LoadUnder(key: nat, n: Snapshot, ghost c: Claim) returns (loaded: bool)
      requires Valid() && c in claims && key in claims[c].keys
      modifies worker`parked
      ensures Valid() && Spared({c}, claims, old(worker.parked), claims, worker.parked)
      ensures loaded ==> n.Name() in worker.snapshots && |worker.snapshots[n.Name()]| == n.position
      ensures worker.parked == if loaded then old(worker.parked)[key := worker.snapshots[n.Name()]] else old(worker.parked)
      ensures (worker.willing && key !in old(worker.parked) && n.Name() in worker.snapshots &&
               |worker.snapshots[n.Name()]| == n.position) ==> loaded
    {
      hide Total, StoredPages, Distinct, AllOnDisk, SessionOk;
      ghost var parked0 := worker.parked;
      assert ClaimOk(c);
      loaded := worker.LoadSession(key, n.id, n.generation, n.position);
      assert AllStored() by {
        forall s | s in sessions
          ensures StoredOk(s)
        {
          assert old(StoredOk(s)) && s.key != key;
        }
      }
      OwnKeySpares(c, key, parked0);
    }

    method ResumeUnder(request: nat, key: nat, delta: seq<nat>, checkpoint: nat, ghost c: Claim) returns (r: Reply)
      requires Valid() && c in claims && key in claims[c].keys
      modifies worker`parked, worker`active, worker`resumed, worker`activeIds
      ensures Valid() && Spared({c}, claims, old(worker.parked), claims, worker.parked)
      ensures worker.activeIds == if r.Done? then old(worker.activeIds) + {request} else old(worker.activeIds)
      ensures r.Done? ==> |old(worker.active)| < worker.slots
      ensures worker.willing && request !in old(worker.activeIds) && |old(worker.active)| < worker.slots ==>
        r == if key in old(worker.parked) && InDelta(checkpoint, |old(worker.parked)[key]|, |delta|) then Done
             else Failure(false, false)
      ensures r.Done? ==> key in old(worker.parked) && worker.Floor(request) == |old(worker.parked)[key]|
      ensures r.Done? ==> InDelta(checkpoint, |old(worker.parked)[key]|, |delta|)
      ensures r.Done? ==> worker.parked == old(worker.parked) - {key}
      ensures r.Done? ==> worker.active == old(worker.active)[request := old(worker.parked)[key] + delta]
      ensures r.Failure? ==> worker.active == old(worker.active)
      ensures r.Failure? && r.preserved ==> key in worker.parked
      ensures forall k :: k != key ==> SameAt(old(worker.parked), worker.parked, k)
      ensures key in worker.parked ==> key in old(worker.parked) && worker.parked[key] == old(worker.parked)[key]
    {
      hide Total, StoredPages, Distinct, AllOnDisk, SessionOk;
      ghost var parked0 := worker.parked;
      assert ClaimOk(c);
      r := worker.BeginResume(request, key, delta, checkpoint);
      assert AllStored() by {
        forall s | s in sessions
          ensures StoredOk(s)
        {
          assert old(StoredOk(s)) && s.key != key;
        }
      }
      OwnKeySpares(c, key, parked0);
    }

    method RetainUnder(request: nat, key: nat, checkpoint: nat, ghost c: Claim) returns (r: Parked)
      requires Valid() && c in claims && key in claims[c].keys
      modifies worker`parked, worker`active, worker`activeIds
      ensures Valid() && Spared({c}, claims, old(worker.parked), claims, worker.parked)
      ensures !r.NotParked? ==> request in old(worker.active) && worker.active == old(worker.active) - {request}
      ensures r.Parking? ==> r.tokens <= |old(worker.active)[request]| && old(worker.Floor(request)) <= r.tokens
      ensures r.Parking? ==> worker.parked == old(worker.parked)[key := old(worker.active)[request][..r.tokens]]
      ensures !r.Parking? ==> worker.parked == old(worker.parked)
      ensures r.NotParked? ==> worker.active == old(worker.active) && worker.activeIds == old(worker.activeIds)
      ensures !r.NotParked? ==> worker.activeIds == old(worker.activeIds) - {request}
      ensures worker.willing && request in old(worker.active) && key !in old(worker.parked) ==>
        r.Parking? && (old(worker.Floor(request)) <= checkpoint <= |old(worker.active)[request]| ==> r == Parking(checkpoint, 0))
    {
      hide Total, StoredPages, Distinct, AllOnDisk, SessionOk;
      ghost var parked0 := worker.parked;
      assert ClaimOk(c);
      r := worker.EndRetain(request, key, checkpoint);
      assert AllStored() by {
        forall s | s in sessions
          ensures StoredOk(s)
        {
          assert old(StoredOk(s)) && s.key != key;
        }
      }
      OwnKeySpares(c, key, parked0);
    }

    method DropUnder(key: nat, ghost c: Claim)
      requires Valid() && c in claims && key in claims[c].keys
      modifies worker`parked
      ensures Valid() && Spared({c}, claims, old(worker.parked), claims, worker.parked)
      ensures worker.parked == old(worker.parked) - {key}
    {
      hide Total, StoredPages, Distinct, AllOnDisk, SessionOk;
      ghost var parked0 := worker.parked;
      assert ClaimOk(c);
      var _ := worker.DropSession(key);
      assert AllStored() by {
        forall s | s in sessions
          ensures StoredOk(s)
        {
          assert old(StoredOk(s)) && s.key != key;
        }
      }
      OwnKeySpares(c, key, parked0);
    }

    // Storing

    method AllocateSessionKey(ghost c: Claim) returns (key: nat)
      requires Valid() && c.Context? && c in claims
      modifies this`nextKey, this`claims, this`owners
      ensures Valid() && key == old(nextKey) && nextKey == key + 1 && key !in old(claims)[c].keys
      ensures Spared({c}, old(claims), worker.parked, claims, worker.parked)
      ensures claims == old(claims)[c := Grant(old(claims)[c].pages, old(claims)[c].keys + {key})]
    {
      hide Total, StoredPages, Distinct, AllOnDisk, SessionOk, Agrees, Reaches;
      key := nextKey;
      assert ClaimOk(c);
      TotalSet(claims, c, Grant(claims[c].pages, claims[c].keys + {key}));
      nextKey := nextKey + 1;
      owners := owners[key := HeldBy(c)];
      claims := claims[c := Grant(claims[c].pages, claims[c].keys + {key})];
      assert AllStored() by {
        forall s | s in sessions
          ensures StoredOk(s)
        {
          assert old(StoredOk(s));
        }
      }
      assert AllClaims() by {
        forall d | d in claims
          ensures ClaimOk(d)
        {
          assert old(ClaimOk(d));
        }
      }
    }

    /** Moves the pages and the key of a claim into a stored session, the most recent one. */
    method AddStored(s: Session, ghost c: Claim)
      requires Valid() && c.Context? && c in claims && claims[c].pages == s.pages && s.key in claims[c].keys
      requires s.resident && SessionOk(s) && Agrees(s) && Reaches(s)
      modifies this`sessions, this`claims, this`owners
      ensures Valid() && sessions == old(sessions) + [s] && claims == old(claims) - {c}
    {
      hide Total, StoredPages, Distinct, Keys, AllOnDisk, SessionOk, Agrees, Reaches;
      assert ClaimOk(c);
      StoredIsUnclaimed(c, s.key);
      DistinctAppend(sessions, s);
      TotalWithout(claims, c);
      ghost var before := sessions;
      sessions, claims, owners := sessions + [s], claims - {c}, owners[s.key := Stored];
      assert AllStored() by {
        forall x | x in sessions
          ensures StoredOk(x)
        {
          assert x in before ==> old(StoredOk(x));
        }
      }
      assert AllClaims() by {
        forall d | d in claims
          ensures ClaimOk(d)
        {
          assert old(ClaimOk(d)) && s.key !in claims[d].keys;
        }
      }
    }

    /** Stores a session in place of those with the same tokens, which are dropped. */
    method StoreSession(s: Session, ghost c: Claim)
      requires Valid() && c.Context? && c in claims && claims[c].pages == s.pages && s.key in claims[c].keys
      requires s.resident && SessionOk(s) && Agrees(s) && Reaches(s)
      modifies this`sessions, this`reserved, this`claims, this`owners, worker`parked
      ensures Valid() && claims == old(claims) - {c} && Spared({c}, old(claims), old(worker.parked), claims, worker.parked)
      ensures s in sessions && forall x :: x in sessions && x != s ==>
        x in old(sessions) && !(x.tokens == s.tokens && x.media == s.media)
      ensures forall x :: x in old(sessions) && !(x.tokens == s.tokens && x.media == s.media) ==> x in sessions
      ensures AllExact(old(sessions)) ==> (AllExact(sessions) <==> Exact(s))
      ensures SameAt(old(worker.parked), worker.parked, s.key)
      ensures worker.parked.Keys <= old(worker.parked).Keys
    {
      hide Total, StoredPages, Distinct, Keys, AllOnDisk, AllClaims, SessionOk, Agrees, Reaches, Keep, Take, VictimGrants, AllStored;
      ghost var before := sessions;
      var keys := set x | x in sessions && x.tokens == s.tokens && x.media == s.media :: x.key;
      TakeKeys(sessions, keys);
      DropSpares(Keys(sessions) * keys);
      forall x | x in sessions
        ensures x.key in keys <==> x.tokens == s.tokens && x.media == s.media
        ensures x.pages > 0
      {
        if x.key in keys {
          var y :| y in sessions && y.tokens == s.tokens && y.media == s.media && y.key == x.key;
          SameKeySame(sessions, x, y);
        }
        StoredPositive(x);
      }
      var removed := RemoveSessions(keys);
      AddStored(s, c);
      FinishVictims(removed, old(claims) - {c});
    }

    lemma StoredPositive(s: Session)
      requires Valid() && s in sessions
      ensures s.pages > 0 && StoredOk(s)
    {
      hide Total, StoredPages, Distinct, AllOnDisk, AllClaims;
    }

    /** Asks the worker to save.  What it wrote is spoiled if it replaced something or is not what the session says. */
    method SaveStored(s: Session, id: nat, generation: nat) returns (ok: bool)
      requires Valid() && s in sessions
      modifies this`spoiled, this`everSaved, worker`snapshots
      ensures Valid() && old(spoiled) <= spoiled && old(everSaved) <= everSaved
      ensures ok ==> s.key in worker.parked && worker.snapshots == old(worker.snapshots)[(id, generation) := worker.parked[s.key]]
      ensures !ok ==> worker.snapshots == old(worker.snapshots) && spoiled == old(spoiled) && everSaved == old(everSaved)
      ensures ok ==> everSaved == old(everSaved) + {(id, generation)}
      ensures ok && s.key in tainted && worker.parked[s.key] != s.tokens ==> (id, generation) in spoiled
      ensures ok && (id, generation) !in spoiled ==> worker.parked[s.key] == s.tokens && (id, generation) !in old(everSaved)
      ensures (id, generation) !in old(everSaved) && s.key !in tainted ==> spoiled == old(spoiled)
      ensures worker.willing ==> ok == (s.key in worker.parked && !worker.diskFull)
    {
      hide Total, StoredPages, Distinct, Keys, AllClaims;
      ghost var name, unused := (id, generation), (id, generation) !in everSaved;
      assert StoredOk(s);
      ok := worker.SaveSession(s.key, id, generation);
      if !ok { return; }
      everSaved := everSaved + {name};
      if !unused || worker.parked[s.key] != s.tokens {
        spoiled := spoiled + {name};
      }
      assert AllStored() by {
        forall x | x in sessions
          ensures StoredOk(x)
        {
          assert old(StoredOk(x));
        }
      }
      assert AllOnDisk() by {
        forall x | x in diskSessions
          ensures OnDisk(x)
        {
          assert old(OnDisk(x));
        }
      }
    }

    /** Points a stored session and its disk entry at a snapshot just saved. */
    method ListSnapshot(s: Session, n: Snapshot, now: int)
      requires Valid() && s in sessions && n.position == |s.tokens| && SnapshotOk(n, s.tokens)
      requires s.key in worker.parked && |worker.parked[s.key]| == |s.tokens|
      modifies this`sessions, this`diskSessions
      ensures Valid() && sessions == Renew(old(sessions), s.key, n)
      ensures diskSessions == WithoutSnapshot(old(diskSessions), n.id) +
                              [s.(key := 0, lastUsed := now, snapshot := Some(n), resident := false)]
    {
      hide Total, StoredPages, Distinct, Keys, AllClaims, WithoutSnapshot, Renew, OnDiskOnce;
      ghost var disk0, sessions0 := diskSessions, sessions;
      assert StoredOk(s);
      RenewKeeps(sessions, s.key, n);
      sessions := Renew(sessions, s.key, n);
      var twin := s.(key := 0, lastUsed := now, snapshot := Some(n), resident := false);
      Relisted(diskSessions, twin);
      WithoutIsOld(diskSessions, n.id);
      diskSessions := WithoutSnapshot(diskSessions, n.id) + [twin];
      assert AllStored() by {
        forall x | x in sessions
          ensures StoredOk(x)
        {
          var y := RenewedFrom(sessions0, s.key, n, x);
          assert StoredOk(y);
          if y.key == s.key {
            SameKeySame(sessions0, y, s);
          }
        }
      }
      assert AllOnDisk() by {
        forall x | x in diskSessions
          ensures OnDisk(x)
        {
          assert x in disk0 ==> old(OnDisk(x));
        }
      }
    }

    /** Saves a stored session and lists it; a failed save leaves both tiers as they are. */
    method SaveAndList(s: Session, freshId: nat, clock: nat, now: int, bytes: nat) returns (saved: Option<Snapshot>)
      requires Valid() && s in sessions
      modifies this`sessions, this`diskSessions, this`spoiled, this`everSaved, worker`snapshots
      ensures Valid() && old(spoiled) <= spoiled && old(everSaved) <= everSaved
      ensures saved.None? ==> sessions == old(sessions) && diskSessions == old(diskSessions)
      ensures saved.Some? ==> Renewed(s, saved.value, freshId, clock, now) && sessions == Renew(old(sessions), s.key, saved.value)
      ensures saved.Some? ==> s.(key := 0, lastUsed := now, snapshot := saved, resident := false) in diskSessions
      ensures forall x :: x in diskSessions && x !in old(diskSessions) ==>
        saved.Some? && x == s.(key := 0, lastUsed := now, snapshot := saved, resident := false)
      ensures saved.Some? ==> forall x :: x in old(diskSessions) && x.snapshot.Some? && x.snapshot.value.id != saved.value.id ==>
        x in diskSessions
      ensures saved.Some? ==> saved.value.Name() in worker.snapshots
      ensures worker.willing && worker.diskFull ==>
        saved.None? && worker.snapshots == old(worker.snapshots) && spoiled == old(spoiled)
      ensures Saves(old(spoiled), old(everSaved), old(worker.snapshots), spoiled, everSaved, worker.snapshots,
                    clock, s.key !in tainted)
      ensures worker.willing ==>
        (saved.Some? <==> !worker.diskFull && s.key in worker.parked && |worker.parked[s.key]| == |s.tokens|)
      ensures saved.Some? ==> s.key in worker.parked && worker.snapshots[saved.value.Name()] == worker.parked[s.key]
      ensures AllExact(old(diskSessions)) ==> AllExact(diskSessions)
    {
      hide Valid, WithoutSnapshot, Renew;
      var id := if s.snapshot.Some? then s.snapshot.value.id else freshId;
      var generation := if s.snapshot.Some? && s.snapshot.value.generation + 1 > clock
                        then s.snapshot.value.generation + 1 else clock;
      StoredHas(s);
      var ok := SaveStored(s, id, generation);
      if !ok || |worker.parked[s.key]| != |s.tokens| { return None; }
      var n := Snapshot(id, generation, |s.tokens|, bytes, now);
      assert SnapshotOk(n, s.tokens);
      WithoutIsOld(diskSessions, n.id);
      ListSnapshot(s, n, now);
      saved := Some(n);
    }

    /**
     Saves a stored session to disk, lists it there and cleans up; a failed save leaves both tiers as they are.  With
     a clock ahead of every generation in use, and for a session that is not tainted, no snapshot is spoiled.  What
     the cleanup removes includes every expired snapshot that no stored session has.
    */
    method PersistSession(s: Session, freshId: nat, clock: nat, now: int, bytes: nat)
      returns (saved: Option<Snapshot>, ghost removed: set<nat>)
      requires Valid() && s in sessions
      modifies this`sessions, this`diskSessions, this`spoiled, this`everSaved, worker`snapshots
      ensures Valid() && (!cacheEnabled ==> saved.None?)
      ensures saved.None? ==> sessions == old(sessions) && diskSessions == old(diskSessions)
      ensures saved.Some? ==> Renewed(s, saved.value, freshId, clock, now) && sessions == Renew(old(sessions), s.key, saved.value)
      ensures saved.Some? ==> s.(key := 0, lastUsed := now, snapshot := saved, resident := false) in diskSessions
      ensures forall x :: x in diskSessions && x !in old(diskSessions) ==>
        saved.Some? && x == s.(key := 0, lastUsed := now, snapshot := saved, resident := false)
      ensures saved.Some? ==>
        forall x :: x in old(diskSessions) && Aged(x, now) && x.snapshot.value.id !in SnapshotIds(sessions) ==>
          x.snapshot.value.id in removed && x !in diskSessions
      ensures saved.Some? ==> forall p :: p in worker.snapshots ==> p.0 !in removed
      ensures saved.Some? ==> saved.value.Name() in worker.snapshots
      ensures worker.willing && worker.diskFull ==>
        saved.None? && worker.snapshots == old(worker.snapshots) && spoiled == old(spoiled)
      ensures Saves(old(spoiled), old(everSaved), old(worker.snapshots), spoiled, everSaved, worker.snapshots,
                    clock, s.key !in tainted)
      ensures worker.willing && cacheEnabled ==>
        (saved.Some? <==> !worker.diskFull && s.key in worker.parked && |worker.parked[s.key]| == |s.tokens|)
      ensures saved.Some? ==> s.key in worker.parked && worker.snapshots[saved.value.Name()] == worker.parked[s.key]
      ensures AllExact(old(diskSessions)) ==> AllExact(diskSessions)
    {
      hide Valid, Renew, Renewed, Removed, SnapshotIds;
      saved, removed := None, {};
      if !cacheEnabled { return; }
      ghost var before := sessions;
      saved := SaveAndList(s, freshId, clock, now, bytes);
      if saved.None? { return; }
      ListedIsLive(before, s, saved.value);
      removed := Removed(now);
      forall x | x in old(diskSessions) && Aged(x, now) && x.snapshot.value.id !in SnapshotIds(sessions)
        ensures x.snapshot.value.id in removed
      {
        AgedIsRemoved(x, now);
      }
      CleanupPersistentSessions(now);
    }

    ghost predicate Aged(x: Session, now: int) {
      x.snapshot.Some? && cacheTtl > 0 && now - x.snapshot.value.used > cacheTtl
    }

    lemma AgedIsRemoved(x: Session, now: int)
      requires x in diskSessions && Aged(x, now) && x.snapshot.value.id !in SnapshotIds(sessions)
      ensures x.snapshot.value.id in Removed(now)
    {
      var i :| 0 <= i < |diskSessions| && diskSessions[i] == x;
      assert Listing(diskSessions)[i] == EntryOf(x);
      assert !StaysListed(now, i);
    }

    lemma StoredHas(s: Session)
      requires Valid() && s in sessions
      ensures Agrees(s) && (s.snapshot.Some? ==> s.snapshot.value.Name() in everSaved)
    {
      hide Total, StoredPages, Distinct, AllOnDisk, AllClaims;
      assert StoredOk(s);
    }

    /** The entries that a cleanup removes from the disk tier, by their snapshots. */
    ghost function Removed(now: int): set<nat>
      reads this`sessions, this`diskSessions
    {
      set i | 0 <= i < |diskSessions| && !StaysListed(now, i) :: Listing(diskSessions)[i].id
    }

    ghost predicate StaysListed(now: int, i: nat)
      requires i < |diskSessions|
      reads this`sessions, this`diskSessions
    {
      Snapshots.Stays(Listing(diskSessions), SnapshotIds(sessions), now, cacheTtl, cacheBytes, i)
    }

    lemma LiveStays(now: int)
      ensures Removed(now) !! SnapshotIds(sessions)
    {}

    method FindRemoved(now: int) returns (ids: set<nat>)
      requires Valid()
      ensures ids == Removed(now) && ids !! SnapshotIds(sessions)
    {
      hide Total, StoredPages, Distinct, AllClaims, AllStored, SnapshotIds, Snapshots.Stays, OnDiskOnce;
      var live, all := SnapshotIds(sessions), Listing(diskSessions);
      ListingOnce(diskSessions);
      hide Listing;
      var index := new Snapshots.Index(all);
      var removed := index.Cleanup(live, now, cacheTtl, cacheBytes);
      ids := set i | 0 <= i < |all| && all[i] !in index.diskSessions :: all[i].id;
      assert forall i :: 0 <= i < |all| ==> (all[i] in index.diskSessions <==> StaysListed(now, i));
      LiveStays(now);
    }

    /** Takes snapshots that are not live off the disk tier, and their directories off the disk. */
    method Discard(ids: set<nat>)
      requires Valid() && ids !! SnapshotIds(sessions)
      modifies this`diskSessions, worker`snapshots
      ensures Valid() && diskSessions == Unlisted(old(diskSessions), ids)
      ensures worker.snapshots == Outside(old(worker.snapshots), ids)
    {
      hide Total, StoredPages, Distinct, AllClaims, SnapshotIds, OnDiskOnce, Unlisted;
      ghost var disk0 := diskSessions;
      UnlistedOnce(diskSessions, ids);
      UnlistedIsOld(diskSessions, ids);
      diskSessions := Unlisted(diskSessions, ids);
      worker.RemoveDirectories(ids);
      assert AllStored() by {
        forall x | x in sessions
          ensures StoredOk(x)
        {
          assert old(StoredOk(x));
        }
      }
      assert AllOnDisk() by {
        forall x | x in diskSessions
          ensures OnDisk(x)
        {
          assert x in disk0 && old(OnDisk(x));
        }
      }
    }

    /**
     Expired entries and then the oldest ones go while there is no room, with their directories.  Live are the
     snapshots of the resident sessions in the map; those of checked-out sessions are not.
    */
    method CleanupPersistentSessions(now: int)
      requires Valid()
      modifies this`diskSessions, worker`snapshots
      ensures Valid() && diskSessions == Unlisted(old(diskSessions), old(Removed(now)))
      ensures worker.snapshots == Outside(old(worker.snapshots), old(Removed(now)))
      ensures old(Removed(now)) !! SnapshotIds(sessions)
    {
      hide *;
      var ids := FindRemoved(now);
      Discard(ids);
    }

    /**
     A session that a request has checked out does not keep its snapshot: unless a stored session has the same one,
     a cleanup removes it exactly if its entry is expired or in the way, like that of any dead session.
    */
    lemma CheckedOutIsNotLive(c: Claim, s: Session, now: int, i: nat)
      requires Valid() && c in claims && s.key in claims[c].keys && s.snapshot.Some?
      requires i < |diskSessions| && diskSessions[i].snapshot.Some?
      requires diskSessions[i].snapshot.value.id == s.snapshot.value.id
      requires forall x :: x in sessions && x.snapshot.Some? ==> x.snapshot.value.id != s.snapshot.value.id
      ensures s !in sessions
      ensures s.snapshot.value.id in Removed(now) <==> Expires(now, i) || Crowds(now, i)
    {
      hide Total, StoredPages, Distinct, AllClaims, AllStored;
      var all := Listing(diskSessions);
      assert s.snapshot.value.id !in SnapshotIds(sessions);
      ListingOnce(diskSessions);
      hide OnDiskOnce;
      assert all[i].id == s.snapshot.value.id;
      if s.snapshot.value.id in Removed(now) {
        var j :| 0 <= j < |all| && !StaysListed(now, j) && all[j].id == s.snapshot.value.id;
        assert j == i by { SameIdSame(all, i, j); }
      }
    }

    ghost predicate Expires(now: int, i: nat)
      requires i < |diskSessions|
      reads this`sessions, this`diskSessions
    {
      cacheTtl > 0 && now - Listing(diskSessions)[i].lastUsed > cacheTtl
    }

    /** With the entry, what is left after all older dead ones have gone is still too much. */
    ghost predicate Crowds(now: int, i: nat)
      requires i < |diskSessions|
      reads this`sessions, this`diskSessions
    {
      var all, live := Listing(diskSessions), SnapshotIds(sessions);
      Snapshots.Total(Snapshots.Unexpired(all, live, now, cacheTtl)) -
      Snapshots.DeadBytes(Snapshots.Unexpired(all[..i], live, now, cacheTtl), live) > cacheBytes
    }
  }

  lemma ListedIsLive(s: seq<Session>, x: Session, n: Snapshot)
    requires x in s
    ensures n.id in SnapshotIds(Renew(s, x.key, n))
  {
    RenewHas(s, x.key, n, x);
    assert Renewal(x, x.key, n) in Renew(s, x.key, n);
  }

  lemma SameIdSame(all: seq<Snapshots.Entry>, i: nat, j: nat)
    requires Snapshots.DistinctIds(all) && i < |all| && j < |all| && all[i].id == all[j].id
    ensures i == j
  {}

  /** The snapshot that follows the one a session came from. */
  predicate Renewed(s: Session, n: Snapshot, freshId: nat, clock: nat, now: int) {
    n.position == |s.tokens| && n.generation >= clock && n.used == now &&
    if s.snapshot.Some? then n.id == s.snapshot.value.id && n.generation > s.snapshot.value.generation
    else n.id == freshId
  }

  lemma WithoutIsOld(s: seq<Session>, id: nat)
    ensures forall x :: x in WithoutSnapshot(s, id) <==> x in s && !(x.snapshot.Some? && x.snapshot.value.id == id)
  {}

  lemma UnlistedIsOld(s: seq<Session>, ids: set<nat>)
    ensures forall x :: x in Unlisted(s, ids) ==> x in s
  {}

  /** Snapshots that existed and are not spoiled are what they were, or gone. */
  ghost predicate SameElsewhere(saved: set<(nat, nat)>, before: map<(nat, nat), seq<nat>>, after: map<(nat, nat), seq<nat>>,
                                spoiled: set<(nat, nat)>)
  {
    forall p :: p in saved && p in after && p !in spoiled ==> p in before && after[p] == before[p]
  }

  /** The clock is ahead of every generation in use. */
  ghost predicate Ahead(clock: nat, saved: set<(nat, nat)>) {
    forall p :: p in saved ==> p.1 < clock
  }

  /**
   What is on disk only grows, with names no older than the clock if that was ahead; and nothing is spoiled if,
   besides, what is saved is clean.
  */
  ghost predicate Saves(spoiled: set<(nat, nat)>, saved: set<(nat, nat)>, snapshots: map<(nat, nat), seq<nat>>,
                        spoiledAfter: set<(nat, nat)>, savedAfter: set<(nat, nat)>, after: map<(nat, nat), seq<nat>>,
                        clock: nat, clean: bool)
  {
    spoiled <= spoiledAfter && saved <= savedAfter && SameElsewhere(saved, snapshots, after, spoiledAfter) &&
    (Ahead(clock, saved) ==> Ahead(clock + 1, savedAfter)) && (Ahead(clock, saved) && clean ==> spoiledAfter == spoiled)
  }

  lemma SavesNothing(spoiled: set<(nat, nat)>, saved: set<(nat, nat)>, snapshots: map<(nat, nat), seq<nat>>,
                     clock: nat, clean: bool)
    ensures Saves(spoiled, saved, snapshots, spoiled, saved, snapshots, clock, clean)
  {}
}
