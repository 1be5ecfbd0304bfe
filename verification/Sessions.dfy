/**
 The retained-session cache: prefixes resident in the worker, prefixes on disk, and the page credits that
 bound them.  Every credit belongs to a stored session, a live request context or a victim being dropped;
 ghost claims record which.  Each step that the source takes under one lock is a method of its own that
 spares the claims of others, so the invariants hold however requests interleave.
 */
module Sessions {
  import opened Options
  import opened PageClaims
  import opened SessionWorker
  import Snapshots

  /** Where a session was last saved, how many tokens the saved state holds, its size and when it was saved. */
  datatype Snapshot = Snapshot(id: nat, generation: nat, position: nat, bytes: nat, used: int)
  {
    function Name(): (nat, nat) { (id, generation) }
  }

  datatype Session = Session(key: nat, tokens: seq<nat>, pages: nat, media: int, lastUsed: int,
                             snapshot: Option<Snapshot>, resident: bool)

  // Sequences of sessions

  function StoredPages(s: seq<Session>): nat {
    if s == [] then 0 else s[0].pages + StoredPages(s[1..])
  }

  function Keep(s: seq<Session>, keys: set<nat>): (r: seq<Session>)
    ensures forall x :: x in r <==> x in s && x.key !in keys
  {
    if s == [] then [] else (if s[0].key in keys then [] else [s[0]]) + Keep(s[1..], keys)
  }

  function Take(s: seq<Session>, keys: set<nat>): (r: seq<Session>)
    ensures forall x :: x in r <==> x in s && x.key in keys
  {
    if s == [] then [] else (if s[0].key in keys then [s[0]] else []) + Take(s[1..], keys)
  }

  function Keys(s: seq<Session>): (keys: set<nat>)
    ensures forall x :: x in s ==> x.key in keys
  {
    if s == [] then {} else {s[0].key} + Keys(s[1..])
  }

  predicate Distinct(s: seq<Session>) {
    s == [] || (s[0].key !in Keys(s[1..]) && Distinct(s[1..]))
  }

  lemma {:induction false} KeyOf(s: seq<Session>, key: nat) returns (x: Session)
    requires key in Keys(s)
    ensures x in s && x.key == key
  {
    if s[0].key == key {
      x := s[0];
    } else {
      x := KeyOf(s[1..], key);
    }
  }

  lemma OneKey(x: Session)
    ensures Keys([x]) == {x.key}
  {
    assert [x][1..] == [];
  }

  lemma OnePages(x: Session)
    ensures StoredPages([x]) == x.pages
  {
    assert [x][1..] == [];
  }

  lemma {:induction false} Split(s: seq<Session>, keys: set<nat>)
    ensures StoredPages(Keep(s, keys)) + StoredPages(Take(s, keys)) == StoredPages(s)
    ensures |Keep(s, keys)| + |Take(s, keys)| == |s|
  {
    if s != [] {
      Split(s[1..], keys);
      var k, t := Keep(s[1..], keys), Take(s[1..], keys);
      assert ([s[0]] + k)[1..] == k && ([s[0]] + t)[1..] == t;
      assert [] + k == k && [] + t == t;
    }
  }

  lemma Prepend(x: Session, s: seq<Session>)
    ensures Keys([]) == {} && Distinct([])
    ensures Keys([x] + s) == {x.key} + Keys(s)
    ensures Distinct([x] + s) <==> x.key !in Keys(s) && Distinct(s)
  {
    assert ([x] + s)[1..] == s;
  }

  lemma KeepFirst(s: seq<Session>, keys: set<nat>)
    requires s != []
    ensures Keep(s, keys) == if s[0].key in keys then Keep(s[1..], keys) else [s[0]] + Keep(s[1..], keys)
    ensures Keep([], keys) == []
  {}

  lemma {:induction false} KeepKeys(s: seq<Session>, keys: set<nat>)
    ensures Keys(Keep(s, keys)) == Keys(s) - keys && (Distinct(s) ==> Distinct(Keep(s, keys)))
  {
    var none := Session(0, [], 0, 0, 0, None, true);
    KeepFirst([none], keys);
    hide Keys, Distinct, Keep;
    if s == [] {
      Prepend(none, []);
    } else {
      var x, rest, k := s[0], s[1..], Keep(s[1..], keys);
      KeepFirst(s, keys);
      KeepKeys(rest, keys);
      Prepend(x, rest);
      Prepend(x, k);
      assert s == [x] + rest;
    }
  }

  lemma {:induction false} TakeKeys(s: seq<Session>, keys: set<nat>)
    ensures Keys(Take(s, keys)) == Keys(s) * keys && (Distinct(s) ==> Distinct(Take(s, keys)))
  {
    hide Keys, Distinct;
    if s == [] {
      Prepend(Session(0, [], 0, 0, 0, None, true), []);
    } else {
      var x, rest, t := s[0], s[1..], Take(s[1..], keys);
      TakeKeys(rest, keys);
      Prepend(x, rest);
      Prepend(x, t);
      assert s == [x] + rest;
      assert Take(s, keys) == if x.key in keys then [x] + t else t;
    }
  }

  lemma {:induction false} TakeOne(s: seq<Session>, x: Session)
    requires Distinct(s) && x in s
    ensures Take(s, {x.key}) == [x]
  {
    if x == s[0] {
      TakeNone(s[1..], x.key);
    } else {
      TakeOne(s[1..], x);
    }
  }

  lemma {:induction false} TakeNone(s: seq<Session>, key: nat)
    requires key !in Keys(s)
    ensures Take(s, {key}) == []
  {
    if s != [] {
      TakeNone(s[1..], key);
    }
  }

  lemma {:induction false} KeepAll(s: seq<Session>, key: nat)
    requires key !in Keys(s)
    ensures Keep(s, {key}) == s
  {
    if s != [] {
      KeepAll(s[1..], key);
    }
  }

  lemma KeepRest(s: seq<Session>)
    requires s != [] && Distinct(s)
    ensures Keep(s, {s[0].key}) == s[1..]
  {
    KeepAll(s[1..], s[0].key);
  }

  lemma {:induction false} SameKeySame(s: seq<Session>, x: Session, y: Session)
    requires Distinct(s) && x in s && y in s && x.key == y.key
    ensures x == y
  {
    if x != s[0] && y != s[0] {
      SameKeySame(s[1..], x, y);
    }
  }

  lemma {:induction false} DistinctAppend(s: seq<Session>, x: Session)
    requires Distinct(s) && x.key !in Keys(s)
    ensures Distinct(s + [x]) && Keys(s + [x]) == Keys(s) + {x.key} && StoredPages(s + [x]) == StoredPages(s) + x.pages
  {
    if s == [] {
      assert s + [x] == [x] && [x][1..] == [];
    } else {
      assert (s + [x])[1..] == s[1..] + [x];
      DistinctAppend(s[1..], x);
    }
  }

  function Renewal(s: Session, key: nat, n: Snapshot): Session {
    if s.key == key then s.(snapshot := Some(n)) else s
  }

  /** Records a new snapshot with the session that has a key. */
  function Renew(s: seq<Session>, key: nat, n: Snapshot): seq<Session> {
    if s == [] then [] else [Renewal(s[0], key, n)] + Renew(s[1..], key, n)
  }

  lemma {:induction false} RenewedFrom(s: seq<Session>, key: nat, n: Snapshot, x: Session) returns (y: Session)
    requires x in Renew(s, key, n)
    ensures y in s && x == Renewal(y, key, n)
  {
    if x == Renewal(s[0], key, n) {
      y := s[0];
    } else {
      y := RenewedFrom(s[1..], key, n, x);
    }
  }

  lemma {:induction false} RenewHas(s: seq<Session>, key: nat, n: Snapshot, y: Session)
    requires y in s
    ensures Renewal(y, key, n) in Renew(s, key, n)
  {
    if y != s[0] {
      RenewHas(s[1..], key, n, y);
    }
  }

  lemma {:induction false} RenewKeeps(s: seq<Session>, key: nat, n: Snapshot)
    ensures Keys(Renew(s, key, n)) == Keys(s) && Distinct(Renew(s, key, n)) == Distinct(s)
    ensures StoredPages(Renew(s, key, n)) == StoredPages(s)
  {
    if s != [] {
      RenewKeeps(s[1..], key, n);
      assert Renew(s, key, n)[1..] == Renew(s[1..], key, n);
    }
  }

  // Grants of victims

  function VictimGrant(s: Session): Grant { Grant(s.pages, {s.key}) }

  function VictimGrants(s: seq<Session>): (m: Claims)
    ensures forall c :: c in m <==> c.Victim? && c.key in Keys(s)
  {
    if s == [] then map[] else VictimGrants(s[1..])[Victim(s[0].key) := VictimGrant(s[0])]
  }

  lemma {:induction false} VictimGrantAt(s: seq<Session>, x: Session)
    requires Distinct(s) && x in s
    ensures Victim(x.key) in VictimGrants(s) && VictimGrants(s)[Victim(x.key)] == VictimGrant(x)
  {
    if x != s[0] {
      VictimGrantAt(s[1..], x);
    }
  }

  lemma AddThenRemove(m: Claims, rest: Claims, c: Claim, g: Grant)
    requires c !in m && c !in rest
    ensures c in m + rest[c := g] && (m + rest[c := g])[c] == g && m + rest[c := g] - {c} == m + rest
  {}

  lemma FirstVictim(s: seq<Session>)
    requires s != [] && Distinct(s)
    ensures Keys(s) == {s[0].key} + Keys(s[1..]) && s[0].key !in Keys(s[1..]) && Distinct(s[1..])
    ensures VictimGrants(s) == VictimGrants(s[1..])[Victim(s[0].key) := VictimGrant(s[0])]
  {}

  lemma VictimsStep(m: Claims, s: seq<Session>)
    requires s != [] && Distinct(s) && forall k :: k in Keys(s) ==> Victim(k) !in m
    ensures Victim(s[0].key) in m + VictimGrants(s) && (m + VictimGrants(s))[Victim(s[0].key)] == VictimGrant(s[0])
    ensures m + VictimGrants(s) - {Victim(s[0].key)} == m + VictimGrants(s[1..])
    ensures Keys(s) == {s[0].key} + Keys(s[1..]) && s[0].key !in Keys(s[1..]) && Distinct(s[1..])
  {
    hide Keys, Distinct, VictimGrants;
    FirstVictim(s);
    AddThenRemove(m, VictimGrants(s[1..]), Victim(s[0].key), VictimGrant(s[0]));
  }

  lemma NoVictims(m: Claims)
    ensures m + VictimGrants([]) == m && Keys([]) == {}
  {}

  lemma {:induction false} TotalWithVictims(m: Claims, s: seq<Session>)
    requires Distinct(s) && forall k :: k in Keys(s) ==> Victim(k) !in m
    ensures Total(m + VictimGrants(s)) == Total(m) + StoredPages(s)
  {
    hide Total;
    if s == [] {
      assert m + VictimGrants(s) == m;
    } else {
      var rest := m + VictimGrants(s[1..]);
      TotalWithVictims(m, s[1..]);
      assert m + VictimGrants(s) == rest[Victim(s[0].key) := VictimGrant(s[0])];
      TotalSet(rest, Victim(s[0].key), VictimGrant(s[0]));
    }
  }

  // Prefixes

  predicate Matches(s: Session, prompt: seq<nat>, media: int) {
    |s.tokens| <= |prompt| && prompt[..|s.tokens|] == s.tokens && s.media == media
  }

  /** A match is a prefix of the prompt, under the same media. */
  lemma MatchIsPrefix(s: Session, prompt: seq<nat>, media: int)
    ensures Matches(s, prompt, media) <==> s.tokens <= prompt && s.media == media
  {}

  predicate Comparable(a: seq<nat>, b: seq<nat>) { a <= b || b <= a }

  /** Continuing a parked prefix with the rest of the prompt gives the prompt exactly if it is the session's tokens. */
  lemma ResumedContext(prompt: seq<nat>, tokens: seq<nat>, held: seq<nat>)
    requires tokens <= prompt
    ensures held + prompt[|tokens|..] == prompt <==> held == tokens
  {
    if held + prompt[|tokens|..] == prompt {
      assert |held + prompt[|tokens|..]| == |held| + |prompt| - |tokens|;
      assert prompt[..|held|] == held;
    }
    assert tokens + prompt[|tokens|..] == prompt;
  }

  /** A session whose snapshot, if it has one, was saved at its length. */
  predicate Exact(s: Session) { s.snapshot.Some? ==> s.snapshot.value.position == |s.tokens| }

  predicate AllExact(s: seq<Session>) { forall x :: x in s ==> Exact(x) }

  // The disk tier as a directory listing

  predicate OnDiskOnce(s: seq<Session>) {
    (forall x :: x in s ==> x.snapshot.Some?) && forall i, j :: 0 <= i < j < |s| ==> Apart(s[i], s[j])
  }

  predicate Apart(x: Session, y: Session) {
    x.snapshot.Some? && y.snapshot.Some? && x.snapshot.value.id != y.snapshot.value.id
  }

  function EntryOf(s: Session): Snapshots.Entry {
    if s.snapshot.Some? then Snapshots.Entry(s.snapshot.value.id, s.snapshot.value.bytes, s.snapshot.value.used)
    else Snapshots.Entry(0, 0, 0)
  }

  function Listing(s: seq<Session>): (l: seq<Snapshots.Entry>)
    ensures |l| == |s| && forall i :: 0 <= i < |l| ==> l[i] == EntryOf(s[i])
  {
    seq(|s|, i requires 0 <= i < |s| => EntryOf(s[i]))
  }

  function SnapshotIds(s: seq<Session>): set<nat> { set x | x in s && x.snapshot.Some? :: x.snapshot.value.id }

  /** Sessions whose snapshots are not among the given ones. */
  function Unlisted(s: seq<Session>, ids: set<nat>): (r: seq<Session>)
    ensures forall x :: x in r <==> x in s && !(x.snapshot.Some? && x.snapshot.value.id in ids)
  {
    if s == [] then []
    else (if s[0].snapshot.Some? && s[0].snapshot.value.id in ids then [] else [s[0]]) + Unlisted(s[1..], ids)
  }

  lemma {:induction false} UnlistedOnce(s: seq<Session>, ids: set<nat>)
    requires OnDiskOnce(s)
    ensures OnDiskOnce(Unlisted(s, ids))
  {
    if s != [] {
      var x, rest := s[0], s[1..];
      var kept := Unlisted(rest, ids);
      assert forall i :: 0 <= i < |rest| ==> rest[i] == s[i + 1];
      UnlistedOnce(rest, ids);
      forall y | y in kept
        ensures Apart(x, y)
      {
        var j :| 0 <= j < |rest| && rest[j] == y;
        assert s[j + 1] == y && Apart(s[0], s[j + 1]);
      }
      assert x in s && [] + kept == kept;
      Prepended(x, kept);
    }
  }

  lemma Prepended(x: Session, s: seq<Session>)
    requires OnDiskOnce(s) && x.snapshot.Some?
    requires forall y :: y in s ==> y.snapshot.Some? && y.snapshot.value.id != x.snapshot.value.id
    ensures OnDiskOnce([x] + s)
  {
    var all := [x] + s;
    assert forall y :: y in all ==> y.snapshot.Some?;
    hide Apart;
    forall i, j | 0 <= i < j < |all|
      ensures Apart(all[i], all[j])
    {
      if i == 0 {
        ApartFromAll(x, s, j - 1);
      } else {
        assert Apart(s[i - 1], s[j - 1]);
      }
    }
  }

  lemma ApartFromAll(x: Session, s: seq<Session>, j: nat)
    requires j < |s| && x.snapshot.Some?
    requires forall y :: y in s ==> y.snapshot.Some? && y.snapshot.value.id != x.snapshot.value.id
    ensures Apart(x, s[j])
  {
    assert s[j] in s;
  }

  /** Taking one snapshot off the list. */
  function WithoutSnapshot(s: seq<Session>, id: nat): (r: seq<Session>) { Unlisted(s, {id}) }

  lemma Relisted(s: seq<Session>, x: Session)
    requires OnDiskOnce(s) && x.snapshot.Some?
    ensures OnDiskOnce(WithoutSnapshot(s, x.snapshot.value.id) + [x])
    ensures OnDiskOnce(WithoutSnapshot(s, x.snapshot.value.id))
  {
    UnlistedOnce(s, {x.snapshot.value.id});
    var kept := WithoutSnapshot(s, x.snapshot.value.id);
    forall i, j | 0 <= i < j < |kept + [x]|
      ensures Apart((kept + [x])[i], (kept + [x])[j])
    {
      if j < |kept| {
        assert Apart(kept[i], kept[j]);
      } else {
        assert kept[i] in kept;
      }
    }
  }

  lemma ListingOnce(s: seq<Session>)
    requires OnDiskOnce(s)
    ensures Snapshots.DistinctIds(Listing(s))
  {
    forall i, j | 0 <= i < j < |s|
      ensures Listing(s)[i].id != Listing(s)[j].id
    {
      assert Apart(s[i], s[j]);
    }
  }

  function ContextPages(tokens: nat, pageTokens: nat): nat
    requires pageTokens > 0
  {
    (tokens + pageTokens - 1) / pageTokens
  }

  /** So many pages hold the tokens, and one page fewer does not. */
  predicate JustEnough(pages: nat, tokens: nat, pageTokens: nat) {
    tokens <= pages * pageTokens && (pages > 0 ==> (pages - 1) * pageTokens < tokens)
  }

  lemma PagesAreEnough(tokens: nat, pageTokens: nat)
    requires pageTokens > 0
    ensures JustEnough(ContextPages(tokens, pageTokens), tokens, pageTokens)
    ensures tokens > 0 ==> ContextPages(tokens, pageTokens) > 0
  {
    var n := tokens + pageTokens - 1;
    var q, r := n / pageTokens, n % pageTokens;
    assert n == q * pageTokens + r && r < pageTokens;
    assert q > 0 ==> (q - 1) * pageTokens == q * pageTokens - pageTokens;
  }

  lemma EnoughIsUnique(p: nat, q: nat, tokens: nat, pageTokens: nat)
    requires JustEnough(p, tokens, pageTokens) && JustEnough(q, tokens, pageTokens) && pageTokens > 0
    ensures p == q
  {
    if p < q {
      FewerPages(p, q, pageTokens);
    } else if q < p {
      FewerPages(q, p, pageTokens);
    }
  }

  lemma FewerPages(p: nat, q: nat, pageTokens: nat)
    requires p < q
    ensures p * pageTokens <= (q - 1) * pageTokens
  {}

  /** The longest match that is longer than `floor` tokens; earlier sessions win ties. */
  method LongestMatch(s: seq<Session>, prompt: seq<nat>, media: int, floor: int) returns (best: Option<Session>)
    ensures best.Some? ==> best.value in s && Matches(best.value, prompt, media) && |best.value.tokens| > floor
    ensures forall x :: x in s && Matches(x, prompt, media) ==>
      |x.tokens| <= if best.Some? then |best.value.tokens| else floor
  {
    best := None;
    for i := 0 to |s|
      invariant best.Some? ==> best.value in s && Matches(best.value, prompt, media) && |best.value.tokens| > floor
      invariant forall x :: x in s[..i] && Matches(x, prompt, media) ==>
        |x.tokens| <= if best.Some? then |best.value.tokens| else floor
    {
      assert s[..i + 1] == s[..i] + [s[i]];
      if Matches(s[i], prompt, media) && |s[i].tokens| > (if best.Some? then |best.value.tokens| else floor) {
        best := Some(s[i]);
      }
    }
    assert s[..|s|] == s;
  }
}
