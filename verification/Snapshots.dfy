/**
 Session snapshots on disk: saving under a new generation, replacing the metadata, pruning what is stale, with
 a crash possible before every file operation; and the cleanup that keeps their total size within a limit.
 A directory has one writer.
 */
module Snapshots {
  import opened Options

  /** What a metadata file says: a generation and the blobs that it consists of. */
  datatype Metadata = Metadata(generation: nat, needs: set<nat>)

  datatype Candidate = NoCandidate | Torn | Written(metadata: Metadata)

  datatype Outcome = Crashed | Committed | SaveFailed

  /** The generation after a known one, and not before the clock. */
  function NextGeneration(previous: nat, clock: nat): (g: nat)
    ensures g > previous && g >= clock && (g == previous + 1 || g == clock)
  {
    if previous + 1 >= clock then previous + 1 else clock
  }

  // Removing a directory, file by file, in the order in which they are listed

  datatype File = MetadataFile | BlobFile(id: nat)

  function Blobs(order: seq<File>): set<nat> { set f | f in order && f.BlobFile? :: f.id }

  /** No needed blob has gone unless the metadata has. */
  predicate GoneSafely(m: Metadata, gone: seq<File>) { MetadataFile in gone || m.needs !! Blobs(gone) }

  /** The metadata comes before every blob that it needs. */
  predicate MetadataFirst(m: Metadata, order: seq<File>) {
    forall j :: 0 <= j < |order| && order[j].BlobFile? && order[j].id in m.needs ==> MetadataFile in order[..j]
  }

  /** A removal is safe at every interruption if and only if its order takes the metadata first. */
  lemma SafeOrder(m: Metadata, order: seq<File>)
    ensures (forall k :: 0 <= k <= |order| ==> GoneSafely(m, order[..k])) <==> MetadataFirst(m, order)
  {
    if forall k :: 0 <= k <= |order| ==> GoneSafely(m, order[..k]) {
      forall j | 0 <= j < |order| && order[j].BlobFile? && order[j].id in m.needs
        ensures MetadataFile in order[..j]
      {
        assert order[..j + 1] == order[..j] + [order[j]];
        assert order[j] in order[..j + 1] && order[j].id in Blobs(order[..j + 1]);
        assert GoneSafely(m, order[..j + 1]);
      }
    }
    if MetadataFirst(m, order) {
      forall k | 0 <= k <= |order|
        ensures GoneSafely(m, order[..k])
      {
        if b :| b in m.needs && b in Blobs(order[..k]) {
          var j :| 0 <= j < k && order[..k][j] == BlobFile(b);
          assert MetadataFile in order[..j] && order[..j] <= order[..k];
        }
      }
    }
  }

  lemma OneMoreGone(order: seq<File>, k: nat)
    requires k < |order|
    ensures Blobs(order[..k + 1]) == Blobs(order[..k]) + if order[k].BlobFile? then {order[k].id} else {}
    ensures MetadataFile in order[..k + 1] <==> MetadataFile in order[..k] || order[k] == MetadataFile
  {
    assert order[..k + 1] == order[..k] + [order[k]];
  }

  class Directory {
    var blobs: set<nat>
    var metadata: Option<Metadata>
    var candidate: Candidate
    var budget: nat                 // file operations before the crash

    constructor ()
      ensures Safe() && metadata.None? && blobs == {}
    {
      blobs, metadata, candidate, budget := {}, None, NoCandidate, 0;
    }

    /** The metadata file names a generation all of whose blobs are present. */
    predicate Safe()
      reads this
    {
      metadata.Some? ==> metadata.value.needs <= blobs
    }

    method Alive() returns (ok: bool)
      modifies this`budget
      ensures ok == (old(budget) > 0) && budget == if old(budget) > 0 then old(budget) - 1 else 0
    {
      ok := budget > 0;
      if ok {
        budget := budget - 1;
      }
    }

    /** Writes the blobs of a snapshot that are not there yet; blobs are never changed. */
    method SaveBlobs(needs: set<nat>) returns (ok: bool)
      requires Safe()
      modifies this`blobs, this`budget
      ensures Safe() && old(blobs) <= blobs <= old(blobs) + needs
      ensures ok ==> needs <= blobs
    {
      var todo := needs - blobs;
      ok := true;
      while todo != {}
        invariant Safe() && ok && old(blobs) <= blobs <= old(blobs) + needs && needs - blobs <= todo <= needs
        decreases |todo|
      {
        var b :| b in todo;
        ok := Alive();
        if !ok { return; }
        blobs, todo := blobs + {b}, todo - {b};
      }
      assert forall b :: b in needs ==> b !in needs - blobs;
    }

    /** Replaces the metadata by way of a candidate file. */
    method ReplaceMetadata(m: Metadata) returns (ok: bool)
      requires Safe() && m.needs <= blobs
      modifies this`metadata, this`candidate, this`budget
      ensures Safe() && metadata == if ok then Some(m) else old(metadata)
    {
      ok := Alive();
      if !ok { return; }
      candidate := Torn;
      ok := Alive();
      if !ok { return; }
      candidate := Written(m);
      ok := Alive();
      if !ok { return; }
      metadata, candidate := Some(m), NoCandidate;
    }

    /** Removes the blobs that the committed generation does not need; it may stop anywhere. */
    method Prune() returns (ok: bool)
      requires Safe() && metadata.Some?
      modifies this`blobs, this`budget
      ensures Safe() && (ok ==> blobs == metadata.value.needs)
    {
      var stale := blobs - metadata.value.needs;
      ok := true;
      while stale != {}
        invariant Safe() && ok && stale == blobs - metadata.value.needs
        decreases |stale|
      {
        var b :| b in stale;
        ok := Alive();
        if !ok { return; }
        blobs, stale := blobs - {b}, stale - {b};
      }
    }

    /**
     Removes the files of the directory one by one; it may stop anywhere.  What is left is a whole snapshot, or none,
     exactly if no blob that is needed has gone before the metadata.
    */
    method RemoveTree(order: seq<File>) returns (gone: nat)
      requires Safe()
      modifies this`blobs, this`metadata, this`budget
      ensures gone == if old(budget) < |order| then old(budget) else |order|
      ensures blobs == old(blobs) - Blobs(order[..gone])
      ensures metadata == if MetadataFile in order[..gone] then None else old(metadata)
      ensures old(metadata).Some? ==> (Safe() <==> GoneSafely(old(metadata).value, order[..gone]))
    {
      gone := 0;
      while gone < |order|
        invariant gone <= |order| && budget + gone == old(budget)
        invariant blobs == old(blobs) - Blobs(order[..gone])
        invariant metadata == if MetadataFile in order[..gone] then None else old(metadata)
      {
        var ok := Alive();
        if !ok { return; }
        OneMoreGone(order, gone);
        match order[gone] {
          case MetadataFile => metadata := None;
          case BlobFile(b) => blobs := blobs - {b};
        }
        gone := gone + 1;
      }
    }

    /**
     Saves a session under the next generation.  Before the metadata is replaced the old snapshot stands,
     afterwards the new one; what is left of the other is never named.
    */
    method Persist(previous: nat, clock: nat, needs: set<nat>, worker: bool) returns (r: Outcome)
      requires Safe()
      modifies this
      ensures Safe()
      ensures metadata == old(metadata) || metadata == Some(Metadata(NextGeneration(previous, clock), needs))
      ensures r == Committed ==> metadata == Some(Metadata(NextGeneration(previous, clock), needs))
      ensures r == SaveFailed ==> metadata == old(metadata) && !worker
      ensures old(metadata).Some? && (old(metadata).value.generation <= previous || old(metadata).value.generation < clock) ==>
        metadata.Some? && metadata.value.generation >= old(metadata).value.generation &&
        (metadata.value.generation == old(metadata).value.generation ==> metadata == old(metadata))
    {
      var generation := NextGeneration(previous, clock);
      var ok := SaveBlobs(needs);
      if !ok { return Crashed; }
      if !worker { return SaveFailed; }
      ok := ReplaceMetadata(Metadata(generation, needs));
      if !ok { return Crashed; }
      var pruned := Prune();
      r := Committed;
    }
  }

  /** One save by the writer: the clock it reads, the blobs it needs, whether the worker goes on, and when it crashes. */
  datatype Attempt = Attempt(clock: nat, needs: set<nat>, worker: bool, operations: nat)

  /** The generation that the writer knows of: the committed one, or none. */
  function Known(m: Option<Metadata>): nat { if m.Some? then m.value.generation else 0 }

  /**
   After any crashed or completed saves, whatever the clock says, the snapshot is whole and each commit has a later
   generation: the writer continues from the generation that was committed.
  */
  method PersistMany(attempts: seq<Attempt>) returns (d: Directory, generations: seq<nat>)
    ensures d.Safe()
    ensures forall i, j :: 0 <= i < j < |generations| ==> generations[i] < generations[j]
    ensures Known(d.metadata) == if generations == [] then 0 else generations[|generations| - 1]
    ensures d.metadata.Some? <==> generations != []
  {
    d := new Directory();
    generations := [];
    for i := 0 to |attempts|
      invariant d.Safe() && fresh(d) && (d.metadata.Some? <==> generations != [])
      invariant d.metadata.Some? ==> d.metadata.value.generation == generations[|generations| - 1]
      invariant forall j, k :: 0 <= j < k < |generations| ==> generations[j] < generations[k]
    {
      var a, before := attempts[i], d.metadata;
      d.budget := a.operations;
      var r := d.Persist(Known(d.metadata), a.clock, a.needs, a.worker);
      if d.metadata != before {
        generations := generations + [d.metadata.value.generation];
      }
    }
  }

  // Cleanup

  datatype Entry = Entry(id: nat, bytes: nat, lastUsed: int)

  function Total(s: seq<Entry>): nat { if s == [] then 0 else s[0].bytes + Total(s[1..]) }

  predicate Expired(e: Entry, live: set<nat>, now: int, ttl: int) {
    ttl > 0 && now - e.lastUsed > ttl && e.id !in live
  }

  /** Keeps what is live or young enough. */
  function Unexpired(s: seq<Entry>, live: set<nat>, now: int, ttl: int): seq<Entry> {
    if s == [] then [] else (if Expired(s[0], live, now, ttl) then [] else [s[0]]) + Unexpired(s[1..], live, now, ttl)
  }

  /** The first entry that is not live, or the number of entries. */
  function FirstDead(s: seq<Entry>, live: set<nat>): (i: nat)
    ensures i <= |s| && (i < |s| ==> s[i].id !in live) && forall j :: 0 <= j < i ==> s[j].id in live
  {
    if s == [] || s[0].id !in live then 0 else 1 + FirstDead(s[1..], live)
  }

  function Without(s: seq<Entry>, i: nat): seq<Entry>
    requires i < |s|
  {
    s[..i] + s[i + 1..]
  }

  /** Drops the oldest entries that are not live until the rest fits. */
  function Fitted(s: seq<Entry>, live: set<nat>, limit: int): seq<Entry>
    decreases |s|
  {
    var i := FirstDead(s, live);
    if Total(s) <= limit || i == |s| then s else Fitted(Without(s, i), live, limit)
  }

  lemma {:induction false} TotalWithout(s: seq<Entry>, i: nat)
    requires i < |s|
    ensures Total(s) == Total(Without(s, i)) + s[i].bytes
  {
    if i == 0 {
      assert Without(s, 0) == s[1..];
    } else {
      TotalWithout(s[1..], i - 1);
      assert Without(s, i)[1..] == Without(s[1..], i - 1) && Without(s, i)[0] == s[0];
    }
  }

  /** Cleanup ends within the limit or with nothing but live entries, loses no live one, and stops as soon as it may. */
  lemma {:induction false} FittedIsEnough(s: seq<Entry>, live: set<nat>, limit: int)
    ensures Total(Fitted(s, live, limit)) <= limit || forall e :: e in Fitted(s, live, limit) ==> e.id in live
    ensures forall e :: e in Fitted(s, live, limit) ==> e in s
    ensures forall e :: e in s && e.id in live ==> e in Fitted(s, live, limit)
    ensures Total(s) <= limit ==> Fitted(s, live, limit) == s
    decreases |s|
  {
    var i := FirstDead(s, live);
    if Total(s) > limit && i < |s| {
      var rest := Without(s, i);
      FittedIsEnough(rest, live, limit);
      WithoutHas(s, i);
    }
  }

  lemma WithoutHas(s: seq<Entry>, i: nat)
    requires i < |s|
    ensures forall e :: e in Without(s, i) ==> e in s
    ensures forall e :: e in s && e != s[i] ==> e in Without(s, i)
  {
    assert s == s[..i] + [s[i]] + s[i + 1..];
  }

  /** Bytes of the entries that are not live. */
  function DeadBytes(s: seq<Entry>, live: set<nat>): nat {
    if s == [] then 0 else (if s[0].id in live then 0 else s[0].bytes) + DeadBytes(s[1..], live)
  }

  /** In one pass: dead entries go for as long as there is an excess. */
  function Survivors(s: seq<Entry>, live: set<nat>, excess: int): seq<Entry> {
    if s == [] then []
    else if s[0].id !in live && excess > 0 then Survivors(s[1..], live, excess - s[0].bytes)
    else [s[0]] + Survivors(s[1..], live, excess)
  }

  lemma {:induction false} NoExcess(s: seq<Entry>, live: set<nat>, excess: int)
    requires excess <= 0 || forall e :: e in s ==> e.id in live
    ensures Survivors(s, live, excess) == s
  {
    if s != [] {
      NoExcess(s[1..], live, excess);
    }
  }

  lemma {:induction false} LiveFirst(a: seq<Entry>, t: seq<Entry>, live: set<nat>, excess: int)
    requires forall e :: e in a ==> e.id in live
    ensures Survivors(a + t, live, excess) == a + Survivors(t, live, excess)
  {
    if a == [] {
      assert a + t == t;
    } else {
      assert (a + t)[1..] == a[1..] + t && (a + t)[0] == a[0];
      LiveFirst(a[1..], t, live, excess);
    }
  }

  /** The search for the next victim comes to the same as one pass over the entries. */
  lemma {:induction false} FittedIsOnePass(s: seq<Entry>, live: set<nat>, limit: int)
    ensures Fitted(s, live, limit) == Survivors(s, live, Total(s) - limit)
    decreases |s|
  {
    hide Total, DeadBytes;
    var i, excess := FirstDead(s, live), Total(s) - limit;
    if excess <= 0 || i == |s| {
      NoExcess(s, live, excess);
    } else {
      TotalWithout(s, i);
      FittedIsOnePass(Without(s, i), live, limit);
      DeadGoesFirst(s, live, excess, i);
    }
  }

  lemma DeadGoesFirst(s: seq<Entry>, live: set<nat>, excess: int, i: nat)
    requires i < |s| && excess > 0 && s[i].id !in live && forall j :: 0 <= j < i ==> s[j].id in live
    ensures Survivors(s, live, excess) == Survivors(Without(s, i), live, excess - s[i].bytes)
  {
    var before, rest := s[..i], s[i..];
    LiveFirst(before, rest, live, excess);
    LiveFirst(before, rest[1..], live, excess - s[i].bytes);
    assert s == before + rest && rest[1..] == s[i + 1..];
  }

  predicate DistinctIds(s: seq<Entry>) { forall i, j :: 0 <= i < j < |s| ==> s[i].id != s[j].id }

  lemma SurvivorsAreOld(s: seq<Entry>, live: set<nat>, excess: int)
    ensures forall e :: e in Survivors(s, live, excess) ==> e in s
  {}

  lemma FirstIsUnique(s: seq<Entry>)
    requires DistinctIds(s) && s != []
    ensures s[0] !in s[1..]
  {
    forall j | 0 <= j < |s[1..]|
      ensures s[1..][j] != s[0]
    {
      assert s[j + 1].id != s[0].id;
    }
  }

  /** An entry survives if and only if it is live or the dead ones before it make up for the excess. */
  lemma {:induction false} SurvivesIff(s: seq<Entry>, live: set<nat>, excess: int, i: nat)
    requires DistinctIds(s) && i < |s|
    ensures s[i] in Survivors(s, live, excess) <==> s[i].id in live || excess <= DeadBytes(s[..i], live)
  {
    var rest := s[1..];
    var dropped := s[0].id !in live && excess > 0;
    var left := if dropped then excess - s[0].bytes else excess;
    assert Survivors(s, live, excess) == (if dropped then [] else [s[0]]) + Survivors(rest, live, left);
    if i == 0 {
      FirstIsUnique(s);
      SurvivorsAreOld(rest, live, left);
    } else {
      assert s[..i][1..] == rest[..i - 1] && s[..i][0] == s[0] && rest[i - 1] == s[i];
      SurvivesIff(rest, live, left, i - 1);
    }
  }

  /** What is removed for want of room: every removed entry comes before every dead one that is kept. */
  lemma DroppedFirst(s: seq<Entry>, live: set<nat>, limit: int, i: nat, j: nat)
    requires DistinctIds(s) && i < |s| && j < |s| && s[i].id !in live && s[j].id !in live
    requires s[i] !in Fitted(s, live, limit) && s[j] in Fitted(s, live, limit)
    ensures i < j && Total(s) - DeadBytes(s[..i], live) > limit >= Total(s) - DeadBytes(s[..j], live)
  {
    hide Total, Survivors, Fitted, DistinctIds;
    FittedIsOnePass(s, live, limit);
    SurvivesIff(s, live, Total(s) - limit, i);
    SurvivesIff(s, live, Total(s) - limit, j);
    if j <= i {
      DeadBytesGrow(s, live, j, i);
    }
  }

  lemma {:induction false} DeadBytesGrow(s: seq<Entry>, live: set<nat>, j: nat, i: nat)
    requires j <= i <= |s|
    ensures DeadBytes(s[..j], live) <= DeadBytes(s[..i], live)
  {
    if j > 0 {
      DeadBytesGrow(s[1..], live, j - 1, i - 1);
      assert s[..j][1..] == s[1..][..j - 1] && s[..i][1..] == s[1..][..i - 1];
    }
  }

  lemma {:induction false} UnexpiredSplits(a: seq<Entry>, b: seq<Entry>, live: set<nat>, now: int, ttl: int)
    ensures Unexpired(a + b, live, now, ttl) == Unexpired(a, live, now, ttl) + Unexpired(b, live, now, ttl)
  {
    if a == [] {
      assert a + b == b;
    } else {
      assert (a + b)[1..] == a[1..] + b && (a + b)[0] == a[0];
      UnexpiredSplits(a[1..], b, live, now, ttl);
    }
  }

  lemma {:induction false} UnexpiredDistinct(s: seq<Entry>, live: set<nat>, now: int, ttl: int)
    requires DistinctIds(s)
    ensures DistinctIds(Unexpired(s, live, now, ttl))
    ensures forall e :: e in Unexpired(s, live, now, ttl) <==> e in s && !Expired(e, live, now, ttl)
  {
    if s != [] {
      var rest := Unexpired(s[1..], live, now, ttl);
      UnexpiredDistinct(s[1..], live, now, ttl);
      assert forall e :: e in rest ==> e.id != s[0].id;
      assert s == [s[0]] + s[1..];
    }
  }

  /** Listed after a cleanup: live, or young enough and with what is left, when its turn comes, within the limit. */
  predicate Stays(s: seq<Entry>, live: set<nat>, now: int, ttl: int, limit: int, i: nat)
    requires i < |s|
  {
    s[i].id in live ||
    ((ttl > 0 ==> now - s[i].lastUsed <= ttl) &&
     Total(Unexpired(s, live, now, ttl)) - DeadBytes(Unexpired(s[..i], live, now, ttl), live) <= limit)
  }

  /** For every listing: a cleanup keeps exactly these entries. */
  lemma CleanupExactly(s: seq<Entry>, live: set<nat>, now: int, ttl: int, limit: int, i: nat)
    requires DistinctIds(s) && i < |s|
    ensures s[i] in Fitted(Unexpired(s, live, now, ttl), live, limit) <==> Stays(s, live, now, ttl, limit, i)
  {
    hide Total, DeadBytes, Fitted, Survivors, DistinctIds, Unexpired;
    var young, before := Unexpired(s, live, now, ttl), Unexpired(s[..i], live, now, ttl);
    UnexpiredDistinct(s, live, now, ttl);
    FittedIsEnough(young, live, limit);
    if s[i] in young {
      UnexpiredSplits(s[..i], s[i..], live, now, ttl);
      UnexpiredFirst(s[i..], live, now, ttl);
      assert s == s[..i] + s[i..];
      assert young[|before|] == s[i] && young[..|before|] == before;
      FittedIsOnePass(young, live, limit);
      SurvivesIff(young, live, Total(young) - limit, |before|);
    }
  }

  lemma UnexpiredFirst(s: seq<Entry>, live: set<nat>, now: int, ttl: int)
    requires s != [] && !Expired(s[0], live, now, ttl)
    ensures Unexpired(s, live, now, ttl) != [] && Unexpired(s, live, now, ttl)[0] == s[0]
  {}

  /** Every entry is kept or removed, and no live one is removed. */
  ghost predicate Parted(all: seq<Entry>, kept: seq<Entry>, removed: seq<Entry>, live: set<nat>) {
    (forall e :: e in all <==> e in kept || e in removed) && forall e :: e in removed ==> e.id !in live
  }

  lemma PartedMoves(all: seq<Entry>, kept: seq<Entry>, removed: seq<Entry>, live: set<nat>, i: nat)
    requires Parted(all, kept, removed, live) && i < |kept| && kept[i].id !in live
    ensures Parted(all, Without(kept, i), removed + [kept[i]], live)
  {
    forall e
      ensures e in kept <==> e in Without(kept, i) || e == kept[i]
    {
      assert kept == kept[..i] + [kept[i]] + kept[i + 1..];
    }
  }

  /** One entry of the pass that drops what has expired. */
  lemma ExpiryStep(all: seq<Entry>, kept: seq<Entry>, rest: seq<Entry>, removed: seq<Entry>, live: set<nat>, now: int, ttl: int)
    requires rest != [] && Parted(all, kept + rest, removed, live)
    ensures
      var e := rest[0];
      if Expired(e, live, now, ttl) then
        Parted(all, kept + rest[1..], removed + [e], live) &&
        kept + Unexpired(rest, live, now, ttl) == kept + Unexpired(rest[1..], live, now, ttl)
      else
        Parted(all, kept + [e] + rest[1..], removed, live) &&
        kept + Unexpired(rest, live, now, ttl) == kept + [e] + Unexpired(rest[1..], live, now, ttl)
  {
    var e, tail := rest[0], Unexpired(rest[1..], live, now, ttl);
    assert Unexpired(rest, live, now, ttl) == (if Expired(e, live, now, ttl) then [] else [e]) + tail;
    hide Unexpired, Parted, Without;
    FirstOfRest(kept, rest, tail);
    if Expired(e, live, now, ttl) {
      PartedMoves(all, kept + rest, removed, live, |kept|);
    }
  }

  lemma FirstOfRest(kept: seq<Entry>, rest: seq<Entry>, tail: seq<Entry>)
    requires rest != []
    ensures (kept + rest)[|kept|] == rest[0] && Without(kept + rest, |kept|) == kept + rest[1..]
    ensures kept + rest == kept + [rest[0]] + rest[1..]
    ensures [] + tail == tail && kept + ([rest[0]] + tail) == kept + [rest[0]] + tail
  {}

  lemma NothingExpires(all: seq<Entry>, live: set<nat>, now: int, ttl: int)
    ensures Parted(all, [] + all, [], live) && Unexpired([], live, now, ttl) == []
  {}

  class Index {
    var diskSessions: seq<Entry>      // least recently saved first

    constructor (entries: seq<Entry>)
      ensures diskSessions == entries
    {
      diskSessions := entries;
    }

    method RemoveExpired(live: set<nat>, now: int, ttl: int) returns (removed: seq<Entry>)
      modifies this
      ensures diskSessions == Unexpired(old(diskSessions), live, now, ttl)
      ensures Parted(old(diskSessions), diskSessions, removed, live)
    {
      ghost var all := diskSessions;
      var kept, rest := [], diskSessions;
      removed := [];
      NothingExpires(all, live, now, ttl);
      hide Parted, Unexpired;
      while rest != []
        invariant diskSessions == all
        invariant kept + Unexpired(rest, live, now, ttl) == Unexpired(all, live, now, ttl)
        invariant Parted(all, kept + rest, removed, live)
        decreases |rest|
      {
        ExpiryStep(all, kept, rest, removed, live, now, ttl);
        if Expired(rest[0], live, now, ttl) {
          removed := removed + [rest[0]];
        } else {
          kept := kept + [rest[0]];
        }
        rest := rest[1..];
      }
      assert kept + [] == kept;
      diskSessions := kept;
    }

    method FitLimit(live: set<nat>, limit: int, already: seq<Entry>, ghost all: seq<Entry>) returns (removed: seq<Entry>)
      requires Parted(all, diskSessions, already, live)
      modifies this
      ensures diskSessions == Fitted(old(diskSessions), live, limit)
      ensures Parted(all, diskSessions, removed, live)
    {
      hide Parted;
      removed := already;
      var total := Sum(diskSessions);
      while total > limit
        invariant total == Total(diskSessions) && Fitted(diskSessions, live, limit) == Fitted(old(diskSessions), live, limit)
        invariant Parted(all, diskSessions, removed, live)
        decreases |diskSessions|
      {
        var i := FirstDead(diskSessions, live);
        if i == |diskSessions| { break; }
        TotalWithout(diskSessions, i);
        PartedMoves(all, diskSessions, removed, live, i);
        removed, total := removed + [diskSessions[i]], total - diskSessions[i].bytes;
        diskSessions := Without(diskSessions, i);
      }
    }

    /** Removes expired entries, then the oldest ones that are not live, while the total is over the limit. */
    method Cleanup(live: set<nat>, now: int, ttl: int, limit: int) returns (removed: seq<Entry>)
      modifies this
      ensures diskSessions == Fitted(Unexpired(old(diskSessions), live, now, ttl), live, limit)
      ensures Parted(old(diskSessions), diskSessions, removed, live)
      ensures DistinctIds(old(diskSessions)) ==> forall i :: 0 <= i < |old(diskSessions)| ==>
        (old(diskSessions)[i] in diskSessions <==> Stays(old(diskSessions), live, now, ttl, limit, i))
    {
      hide Stays, Fitted, Unexpired, Parted, DistinctIds;
      ghost var all := diskSessions;
      removed := RemoveExpired(live, now, ttl);
      removed := FitLimit(live, limit, removed, old(diskSessions));
      if DistinctIds(all) {
        forall i | 0 <= i < |all|
          ensures all[i] in diskSessions <==> Stays(all, live, now, ttl, limit, i)
        {
          CleanupExactly(all, live, now, ttl, limit, i);
        }
      }
    }
  }

  method Sum(s: seq<Entry>) returns (total: nat)
    ensures total == Total(s)
  {
    total := 0;
    var rest := s;
    while rest != []
      invariant total + Total(rest) == Total(s)
      decreases |rest|
    {
      total, rest := total + rest[0].bytes, rest[1..];
    }
  }
}
