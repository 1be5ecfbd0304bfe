/**
 The decode worker as the server sees it: prefixes parked under session keys, contexts of active requests, and
 saved snapshots.  A command either does what it says or answers with an error; which one is left open unless the
 worker is willing, and then whatever can be done is done.  Every active request takes one of a fixed number of slots.  The
 client keeps its own list of active requests.
*/
module SessionWorker {

  /** A failed command says whether it was for want of room and whether the retained prefix survived. */
  datatype Reply = Done | Failure(capacity: bool, preserved: bool)

  /** A report of the worker that the client does not accept ends the request and drops what was parked. */
  datatype Parked = Parking(tokens: nat, pages: nat) | NotParked(capacity: bool) | Rejected

  /** A plain step, one that releases the slot, and one that ends on the emitted token and keeps the slot. */
  datatype Mode = Plain | Final | Hold

  class Worker {
    const batched: bool                            // steps carry their mode, from the second protocol on
    const slots: nat                               // how many requests may be active
    var parked: map<nat, seq<nat>>
    var active: map<nat, seq<nat>>
    var resumed: map<nat, nat>                     // how much of a request's context was resumed
    var snapshots: map<(nat, nat), seq<nat>>
    var activeIds: set<nat>                        // what the client takes to be active
    var willing: bool
    var diskFull: bool

    constructor (batched: bool, slots: nat)
      ensures parked == map[] && active == map[] && snapshots == map[] && activeIds == {} && resumed == map[]
      ensures this.batched == batched && this.slots == slots && willing && !diskFull
    {
      this.batched, this.slots := batched, slots;
      parked, active, resumed, snapshots := map[], map[], map[], map[];
      activeIds, willing, diskFull := {}, true, false;
    }

    /** A request never parks less than the prefix it resumed. */
    function Floor(id: nat): nat
      reads this`active, this`resumed
    {
      if id in active && id in resumed && resumed[id] <= |active[id]| then resumed[id] else 0
    }

    /** A full prefill. */
    method Begin(id: nat, prompt: seq<nat>) returns (r: Reply)
      modifies this`active, this`resumed, this`activeIds
      ensures r.Done? ==> active == old(active)[id := prompt] && activeIds == old(activeIds) + {id} && Floor(id) == 0
      ensures r.Failure? ==> active == old(active) && activeIds == old(activeIds)
      ensures r.Done? ==> |old(active)| < slots
      ensures willing && id !in old(activeIds) && |old(active)| < slots ==> r.Done?
    {
      var room: bool, sound: bool := *, *;
      if id in activeIds { return Failure(false, false); }
      if |active| >= slots || (!willing && !room) { return Failure(true, false); }
      if !willing && !sound { return Failure(false, false); }
      active, resumed, activeIds := active[id := prompt], resumed[id := 0], activeIds + {id};
      r := Done;
    }

    /**
     Continues a parked prefix; a failure that does not say otherwise may have lost it.  A checkpoint other than 0 is
     where the request is to be cut when it is retained, and must lie in what is added.
    */
    method BeginResume(id: nat, key: nat, delta: seq<nat>, checkpoint: nat) returns (r: Reply)
      modifies this`active, this`parked, this`resumed, this`activeIds
      ensures r.Done? ==> key in old(parked) && active == old(active)[id := old(parked)[key] + delta]
      ensures r.Done? ==> parked == old(parked) - {key} && Floor(id) == |old(parked)[key]|
      ensures r.Done? ==> activeIds == old(activeIds) + {id}
      ensures r.Failure? ==> active == old(active) && activeIds == old(activeIds)
      ensures r.Failure? && r.preserved ==> key in parked && parked == old(parked)
      ensures r.Failure? && !r.preserved ==> parked == old(parked) || parked == old(parked) - {key}
      ensures r.Done? ==> |old(active)| < slots
      ensures willing && id !in old(activeIds) && |old(active)| < slots ==>
        r == if key in old(parked) && InDelta(checkpoint, |old(parked)[key]|, |delta|) then Done else Failure(false, false)
      ensures r.Done? ==> InDelta(checkpoint, |old(parked)[key]|, |delta|)
    {
      var room: bool, sound: bool, kept: bool := *, *, *;
      if key !in parked || id in activeIds { return Failure(false, false); }
      if !InDelta(checkpoint, |parked[key]|, |delta|) { return Failure(false, false); }
      if |active| >= slots { return Failure(true, true); }
      if !willing && (!room || !sound) {
        if !kept {
          parked := parked - {key};
        }
        return Failure(!room, kept);
      }
      resumed := resumed[id := |parked[key]|];
      active, parked, activeIds := active[id := parked[key] + delta], parked - {key}, activeIds + {id};
      r := Done;
    }

    /**
     One decode step feeds tokens to the context and emits them; no tokens stand for an error.  A final step and,
     where modes are sent, a hold emit one.  After either of them the client strikes the request off its list.
    */
    method Step(id: nat, mode: Mode) returns (emitted: seq<nat>)
      requires id in active
      modifies this`active, this`activeIds
      ensures emitted == [] ==> active == old(active) && activeIds == old(activeIds)
      ensures emitted != [] && mode == Final ==> active == old(active) - {id} && activeIds == old(activeIds) - {id}
      ensures emitted != [] && mode != Final ==> active == old(active)[id := old(active)[id] + emitted]
      ensures emitted != [] && mode != Final ==>
        activeIds == if mode == Hold && batched then old(activeIds) - {id} else old(activeIds)
      ensures mode != Final ==> Floor(id) >= old(Floor(id))
      ensures mode == Final || (mode == Hold && batched) ==> |emitted| <= 1
      ensures willing ==> emitted != []
    {
      var tokens: seq<nat> := *;
      emitted := if willing && tokens == [] then [0] else tokens;
      if (mode == Final || (mode == Hold && batched)) && emitted != [] {
        emitted := emitted[..1];
      }
      if emitted == [] { return; }
      active := if mode == Final then active - {id} else active[id := active[id] + emitted];
      if mode == Final || (mode == Hold && batched) {
        activeIds := activeIds - {id};
      }
    }

    /** Ends a request and parks a prefix of its context; the accounting it reports is not to be trusted. */
    method EndRetain(id: nat, key: nat, checkpoint: nat) returns (r: Parked)
      modifies this`active, this`parked, this`activeIds
      ensures r.Parking? ==> id in old(active) && key !in old(parked) && old(Floor(id)) <= r.tokens <= |old(active)[id]|
      ensures r.Parking? ==> parked == old(parked)[key := old(active)[id][..r.tokens]]
      ensures r.NotParked? || r.Rejected? ==> parked == old(parked)
      ensures r.NotParked? ==> active == old(active) && activeIds == old(activeIds)
      ensures !r.NotParked? ==> id in old(active) && active == old(active) - {id} && activeIds == old(activeIds) - {id}
      ensures willing && id in old(active) && key !in old(parked) ==>
        r.Parking? && (old(Floor(id)) <= checkpoint <= |old(active)[id]| ==> r == Parking(checkpoint, 0))
    {
      var room: bool, sound: bool, accepted: bool, tokens: nat, pages: nat := *, *, *, *, *;
      if id !in active || key in parked { return NotParked(false); }
      if willing {
        tokens, pages := checkpoint, 0;
      } else if !sound {
        return NotParked(false);
      } else if !room {
        return NotParked(true);
      }
      var kept := if tokens < Floor(id) then Floor(id) else if tokens <= |active[id]| then tokens else |active[id]|;
      ghost var context := active[id];
      if willing || accepted {
        parked, r := parked[key := active[id][..kept]], Parking(kept, pages);
      } else {
        r := Rejected;
      }
      active, activeIds := active - {id}, activeIds - {id};
    }

    /** Only a request on the client's list is cancelled. */
    method Cancel(id: nat)
      modifies this`active, this`activeIds
      ensures activeIds == old(activeIds) - {id}
      ensures active == if id in old(activeIds) then old(active) - {id} else old(active)
    {
      if id in activeIds {
        active, activeIds := active - {id}, activeIds - {id};
      }
    }

    /** Forgets a parked prefix; an unknown key is an error that callers ignore. */
    method DropSession(key: nat) returns (known: bool)
      modifies this`parked
      ensures parked == old(parked) - {key} && known == (key in old(parked))
    {
      known := key in parked;
      parked := parked - {key};
    }

    method SaveSession(key: nat, id: nat, generation: nat) returns (saved: bool)
      modifies this`snapshots
      ensures saved ==> key in parked && snapshots == old(snapshots)[(id, generation) := parked[key]]
      ensures !saved ==> snapshots == old(snapshots)
      ensures willing ==> saved == (key in parked && !diskFull)
    {
      var sound: bool := *;
      saved := (willing || sound) && key in parked && !diskFull;
      if saved {
        snapshots := snapshots[(id, generation) := parked[key]];
      }
    }

    method LoadSession(key: nat, id: nat, generation: nat, position: nat) returns (loaded: bool)
      modifies this`parked
      ensures loaded ==> key !in old(parked) && (id, generation) in snapshots && |snapshots[(id, generation)]| == position
      ensures parked == if loaded then old(parked)[key := snapshots[(id, generation)]] else old(parked)
      ensures willing && key !in old(parked) && (id, generation) in snapshots && |snapshots[(id, generation)]| == position ==>
        loaded
    {
      var sound: bool := *;
      loaded := (willing || sound) && key !in parked &&
                (id, generation) in snapshots && |snapshots[(id, generation)]| == position;
      if loaded {
        parked := parked[key := snapshots[(id, generation)]];
      }
    }

    /** The directories of snapshots are removed from the disk that the worker loads from. */
    method RemoveDirectories(ids: set<nat>)
      modifies this`snapshots
      ensures snapshots == Outside(old(snapshots), ids)
    {
      snapshots := Outside(snapshots, ids);
    }
  }

  predicate InDelta(checkpoint: nat, held: nat, delta: nat) { checkpoint == 0 || held <= checkpoint <= held + delta }

  function Outside(snapshots: map<(nat, nat), seq<nat>>, ids: set<nat>): map<(nat, nat), seq<nat>> {
    map p | p in snapshots && p.0 !in ids :: snapshots[p]
  }
}
