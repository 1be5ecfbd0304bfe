/**
 Continuous decode batching.  Request threads submit one step at a time; a dispatcher gathers the waiting
 steps into batches no larger than the worker's capacity.  The methods are the steps that interleave.
 */
module DecodeBatcher {
  import opened Options

  datatype Mode = Plain | Final | Hold

  datatype Waiter = Waiter(id: nat, request: nat, mode: Mode)

  datatype Answer = Token(token: nat) | Error

  function Requests(batch: seq<Waiter>): set<nat> { set w | w in batch :: w.request }

  function Ids(batch: seq<Waiter>): set<nat> { set w | w in batch :: w.id }

  function Stream(m: map<nat, seq<nat>>, r: nat): seq<nat> { if r in m then m[r] else [] }

  /** No two waiters of the same request or with the same identity. */
  predicate Separate(s: seq<Waiter>) {
    forall i, j :: 0 <= i < j < |s| ==> s[i].request != s[j].request && s[i].id != s[j].id
  }

  lemma OneWaiter(s: seq<Waiter>, v: Waiter, w: Waiter)
    requires Separate(s) && v in s && w in s
    ensures v.request == w.request || v.id == w.id ==> v == w
  {
    var i :| 0 <= i < |s| && s[i] == v;
    var j :| 0 <= j < |s| && s[j] == w;
  }

  // The worker side

  /** The requests that the client stops tracking after a batch, and those the worker releases. */
  function Untracked(batch: seq<Waiter>): set<nat> { set w | w in batch && w.mode != Plain :: w.request }

  function Released(batch: seq<Waiter>): set<nat> { set w | w in batch && w.mode == Final :: w.request }

  /** The requests of a batch that hold their slots. */
  function Held(batch: seq<Waiter>): set<nat> { set w | w in batch && w.mode == Hold :: w.request }

  /** What a batch does to the slots that the worker keeps and the client has forgotten. */
  lemma LostAfterBatch(active: set<nat>, ids: set<nat>, batch: seq<Waiter>)
    requires Separate(batch) && Requests(batch) <= active
    ensures active - Released(batch) - (ids - Untracked(batch)) == active - ids - Released(batch) + Held(batch)
  {
    forall r
      ensures r in active - Released(batch) - (ids - Untracked(batch)) <==> r in active - ids - Released(batch) + Held(batch)
    {
      if v :| v in batch && v.request == r {
        assert r in Requests(batch);
        forall w | w in batch && w.request == r
          ensures w == v
        {
          OneWaiter(batch, v, w);
        }
      }
    }
  }

  class CudaWorker {
    const capacity: nat
    var active: set<nat>                     // slots of the worker process
    var activeIds: set<nat>                  // what the client believes
    ghost var emitted: map<nat, seq<nat>>    // everything emitted, by request

    constructor (capacity: nat, active: set<nat>)
      ensures this.capacity == capacity && this.active == activeIds == active && emitted == map[]
    {
      this.capacity, this.active, activeIds, emitted := capacity, active, active, map[];
    }

    /** Slots that the worker keeps and the client does not know of any more. */
    function Lost(): set<nat>
      reads this
    {
      active - activeIds
    }

    /**
     One batch: every request emits at least one token, or the batch fails and none does.  A held slot is lost to
     the client; of the lost slots only final steps release any.
    */
    method Step(batch: seq<Waiter>) returns (r: Option<map<nat, seq<nat>>>)
      requires Separate(batch)
      modifies this
      ensures r.Some? ==> 0 < |batch| <= capacity && r.value.Keys == Requests(batch)
      ensures r.Some? ==> forall q :: q in r.value ==> r.value[q] != []
      ensures r.Some? ==> forall q :: Stream(emitted, q) == Stream(old(emitted), q) + Stream(r.value, q)
      ensures r.Some? ==> active == old(active) - Released(batch) && activeIds == old(activeIds) - Untracked(batch)
      ensures r.Some? ==> Lost() == old(Lost()) - Released(batch) + Held(batch)
      ensures r.None? ==> emitted == old(emitted) && active == old(active) && activeIds == old(activeIds)
    {
      var sound: bool, tokens: map<nat, seq<nat>> := *, *;
      if !sound || |batch| == 0 || |batch| > capacity || !(Requests(batch) <= active) { return None; }
      var result := map q | q in Requests(batch) :: if q in tokens && tokens[q] != [] then tokens[q] else [0];
      emitted := map q | q in emitted.Keys + Requests(batch) :: Stream(emitted, q) + Stream(result, q);
      LostAfterBatch(active, activeIds, batch);
      active, activeIds := active - Released(batch), activeIds - Untracked(batch);
      r := Some(result);
    }

    /** Only what the client knows of is cancelled; lost slots stay. */
    method Cancel(request: nat)
      modifies this`active, this`activeIds
      ensures Lost() == old(Lost())
      ensures activeIds == old(activeIds) - {request}
      ensures active == if request in old(activeIds) then old(active) - {request} else old(active)
    {
      if request in activeIds {
        active := active - {request};
        activeIds := activeIds - {request};
      }
    }
  }

  // The client side, as properties of its tables

  type Streams = map<nat, seq<nat>>

  /** The waiters are still to be answered, and no buffer belongs to one of them. */
  predicate Unanswered(s: seq<Waiter>, next: nat, answers: map<nat, Answer>, buffered: Streams) {
    Separate(s) && (forall w :: w in s ==> w.id < next && w.id !in answers && w.request !in buffered) &&
    forall i :: i in answers ==> i < next
  }

  predicate NonEmpty(m: Streams) { forall r :: r in m ==> m[r] != [] }

  /** Delivered tokens, then buffered ones, then those of a batch being answered are what the worker emitted. */
  predicate Conserved(delivered: Streams, buffered: Streams, owed: Streams, emitted: Streams, r: nat) {
    Stream(delivered, r) + Stream(buffered, r) + Stream(owed, r) == Stream(emitted, r)
  }

  ghost predicate AllConserved(delivered: Streams, buffered: Streams, owed: Streams, emitted: Streams, settled: set<nat>) {
    forall r :: r !in settled ==> Conserved(delivered, buffered, owed, emitted, r)
  }

  function Appended(m: Streams, r: nat, token: nat): Streams { m[r := Stream(m, r) + [token]] }

  /** A stream without its first token, dropped when nothing is left. */
  function Rest(m: Streams, r: nat, tokens: seq<nat>): Streams
    requires tokens != []
  {
    if |tokens| > 1 then m[r := tokens[1..]] else m - {r}
  }

  lemma PopConserves(d: Streams, b: Streams, o: Streams, e: Streams, settled: set<nat>, r: nat)
    requires AllConserved(d, b, o, e, settled) && r in b && b[r] != [] && r !in o
    ensures AllConserved(Appended(d, r, b[r][0]), Rest(b, r, b[r]), o, e, settled)
  {
    var d2, b2 := Appended(d, r, b[r][0]), Rest(b, r, b[r]);
    forall q | q !in settled
      ensures Conserved(d2, b2, o, e, q)
    {
      assert Conserved(d, b, o, e, q);
      if q == r {
        assert Stream(d, r) + b[r] == Stream(d2, r) + b[r][1..];
      }
    }
  }

  lemma ServeConserves(d: Streams, b: Streams, o: Streams, e: Streams, settled: set<nat>, r: nat)
    requires AllConserved(d, b, o, e, settled) && r in o && o[r] != [] && r !in b
    ensures AllConserved(Appended(d, r, o[r][0]), Rest(b, r, o[r]), o - {r}, e, settled)
  {
    var d2, b2 := Appended(d, r, o[r][0]), Rest(b, r, o[r]);
    forall q | q !in settled
      ensures Conserved(d2, b2, o - {r}, e, q)
    {
      assert Conserved(d, b, o, e, q);
      if q == r {
        assert Stream(d, r) + [] + o[r] == Stream(d2, r) + o[r][1..] + [];
      }
    }
  }

  lemma SettleConserves(d: Streams, b: Streams, o: Streams, e: Streams, settled: set<nat>, r: nat)
    requires AllConserved(d, b, o, e, settled)
    ensures AllConserved(d, b - {r}, o, e, settled + {r})
  {
    forall q | q !in settled + {r}
      ensures Conserved(d, b - {r}, o, e, q)
    {
      assert Conserved(d, b, o, e, q);
    }
  }

  lemma StepConserves(d: Streams, b: Streams, e: Streams, settled: set<nat>, result: Streams, after: Streams)
    requires AllConserved(d, b, map[], e, settled)
    requires forall r :: Stream(after, r) == Stream(e, r) + Stream(result, r)
    ensures AllConserved(d, b, result, after, settled)
  {
    assert forall q :: Stream(map[], q) == [];
    hide Stream;
    forall q | q !in settled
      ensures Conserved(d, b, result, after, q)
    {
      assert Conserved(d, b, map[], e, q);
      assert Stream(d, q) + Stream(b, q) + [] == Stream(d, q) + Stream(b, q);
    }
  }

  lemma FirstAnswered(s: seq<Waiter>, next: nat, answers: map<nat, Answer>, buffered: Streams, a: Answer, after: Streams)
    requires s != [] && Unanswered(s, next, answers, buffered)
    requires after.Keys <= buffered.Keys + {s[0].request}
    ensures Unanswered(s[1..], next, answers[s[0].id := a], after)
    ensures s[0].request !in buffered && s[0].id !in answers && s[0].request !in Requests(s[1..])
  {
    forall w | w in s[1..]
      ensures w.id < next && w.id != s[0].id && w.request != s[0].request && w.id !in answers && w.request !in buffered
    {
      var j :| 0 <= j < |s[1..]| && s[1..][j] == w;
      assert s[j + 1] == w && w in s;
    }
    assert s[0] in s;
  }

  lemma Enqueued(s: seq<Waiter>, next: nat, answers: map<nat, Answer>, buffered: Streams, w: Waiter)
    requires Unanswered(s, next, answers, buffered)
    requires w.id == next && w.request !in Requests(s) && w.request !in buffered
    ensures Unanswered(s + [w], next + 1, answers, buffered)
  {
    forall v | v in s
      ensures v.request != w.request && v.id < next
    {
      assert v.request in Requests(s);
    }
  }

  lemma OneRequest(w: Waiter)
    ensures Requests([w]) == {w.request} && Ids([w]) == {w.id}
  {}

  lemma NoWaiters()
    ensures Requests([]) == {} && Ids([]) == {} && Released([]) == {}
  {}

  lemma TokensNonEmpty(m: Streams)
    requires forall q :: q in m ==> m[q] != []
    ensures NonEmpty(m)
  {}

  lemma FewerBuffers(s: seq<Waiter>, next: nat, answers: map<nat, Answer>, buffered: Streams, after: Streams)
    requires Unanswered(s, next, answers, buffered) && after.Keys <= buffered.Keys
    ensures Unanswered(s, next, answers, after)
  {
    hide Separate;
  }

  lemma RequestsJoin(a: seq<Waiter>, b: seq<Waiter>)
    ensures Requests(a + b) == Requests(a) + Requests(b)
    ensures Ids(a + b) == Ids(a) + Ids(b)
  {
    forall w ensures w in a + b <==> w in a || w in b {}
  }

  class ContinuousDecodeBatcher {
    const worker: CudaWorker
    var pending: seq<Waiter>
    var inFlight: seq<Waiter>
    var buffered: Streams
    var answers: map<nat, Answer>
    var nextWaiter: nat
    ghost var owed: Streams           // emitted for waiters of the batch in flight
    ghost var delivered: Streams
    ghost var settled: set<nat>       // finished, or buffer discarded or taken

    ghost predicate Valid()
      reads this, worker
    {
      worker.capacity > 0 && |inFlight| <= worker.capacity && Unanswered(inFlight + pending, nextWaiter, answers, buffered) &&
      NonEmpty(buffered) && NonEmpty(owed) && owed.Keys <= Requests(inFlight) &&
      AllConserved(delivered, buffered, owed, worker.emitted, settled)
    }

    constructor (worker: CudaWorker)
      requires worker.capacity > 0 && worker.emitted == map[]
      ensures Valid() && this.worker == worker && inFlight + pending == [] && settled == {} && answers == map[] && owed == map[]
    {
      this.worker := worker;
      pending, inFlight, buffered, answers, nextWaiter := [], [], map[], map[], 0;
      owed, delivered, settled := map[], map[], {};
    }

    /** Delivers a buffered token; a final step gives up the rest and the worker slot. */
    method PopBuffered(request: nat, final: bool) returns (token: nat)
      requires Valid() && request in buffered && request !in Requests(inFlight + pending)
      modifies this`buffered, this`delivered, this`settled, worker`active, worker`activeIds
      ensures Valid() && token == old(buffered)[request][0] && delivered == Appended(old(delivered), request, token)
      ensures final ==> settled == old(settled) + {request} && buffered == old(buffered) - {request}
      ensures !final ==> settled == old(settled) && Stream(buffered, request) == old(buffered)[request][1..]
      ensures forall r :: r != request ==> Stream(buffered, r) == Stream(old(buffered), r)
      ensures worker.activeIds == old(worker.activeIds) - if final then {request} else {}
      ensures worker.active == old(worker.active) - if final then old(worker.activeIds) * {request} else {}
    {
      hide Unanswered, AllConserved;
      RequestsJoin(inFlight, pending);
      var tokens := buffered[request];
      token := tokens[0];
      PopConserves(delivered, buffered, owed, worker.emitted, settled, request);
      delivered := Appended(delivered, request, token);
      FewerBuffers(inFlight + pending, nextWaiter, answers, buffered, Rest(buffered, request, tokens));
      buffered := Rest(buffered, request, tokens);
      if final {
        SettleConserves(delivered, buffered, owed, worker.emitted, settled, request);
        FewerBuffers(inFlight + pending, nextWaiter, answers, buffered, buffered - {request});
        buffered, settled := buffered - {request}, settled + {request};
        worker.Cancel(request);
      }
    }

    /** One step of a request: a buffered token at once, or a place in the queue. */
    method Submit(request: nat, final: bool, hold: bool) returns (token: Option<nat>, id: nat)
      requires Valid() && request !in Requests(inFlight + pending)
      modifies this`pending, this`buffered, this`nextWaiter, this`delivered, this`settled, worker`active, worker`activeIds
      ensures Valid() && (token.Some? <==> request in old(buffered))
      ensures token.Some? ==> token.value == old(buffered)[request][0] && pending == old(pending)
      ensures token.Some? ==> delivered == Appended(old(delivered), request, token.value)
      ensures token.Some? ==> settled == old(settled) + if final then {request} else {}
      ensures token.Some? ==> Stream(buffered, request) == if final then [] else old(buffered)[request][1..]
      ensures worker.activeIds == old(worker.activeIds) - if token.Some? && final then {request} else {}
      ensures worker.active == old(worker.active) - if token.Some? && final then old(worker.activeIds) * {request} else {}
      ensures token.None? ==> settled == old(settled)
      ensures forall r :: r != request ==> Stream(buffered, r) == Stream(old(buffered), r)
      ensures token.None? ==> delivered == old(delivered) && buffered == old(buffered) && id == old(nextWaiter)
      ensures token.None? ==>
        pending == old(pending) + [Waiter(id, request, if final then Final else if hold then Hold else Plain)]
    {
      hide Unanswered, AllConserved;
      id := nextWaiter;
      if request in buffered {
        var t := PopBuffered(request, final);
        return Some(t), id;
      }
      var w := Waiter(id, request, if final then Final else if hold then Hold else Plain);
      Enqueued(inFlight + pending, nextWaiter, answers, buffered, w);
      assert inFlight + (pending + [w]) == inFlight + pending + [w];
      pending, nextWaiter, token := pending + [w], nextWaiter + 1, None;
    }

    /** Takes what is buffered for a request: with what was delivered it is all the worker emitted for it. */
    method TakeBuffered(request: nat) returns (tokens: seq<nat>)
      requires Valid()
      modifies this`buffered, this`settled
      ensures Valid() && tokens == Stream(old(buffered), request) && buffered == old(buffered) - {request}
      ensures request !in old(settled) && request !in Requests(inFlight) ==>
        Stream(delivered, request) + tokens == Stream(worker.emitted, request)
      ensures settled == old(settled) + {request}
    {
      hide Unanswered;
      tokens := if request in buffered then buffered[request] else [];
      if request !in settled {
        assert Conserved(delivered, buffered, owed, worker.emitted, request);
      }
      SettleConserves(delivered, buffered, owed, worker.emitted, settled, request);
      FewerBuffers(inFlight + pending, nextWaiter, answers, buffered, buffered - {request});
      buffered, settled := buffered - {request}, settled + {request};
    }

    /** Moves waiters from the queue into the next batch, at most as many as the worker has slots. */
    method Gather()
      requires Valid() && inFlight == [] && owed == map[]
      modifies this`pending, this`inFlight
      ensures Valid() && inFlight + pending == old(inFlight + pending) && (old(pending) != [] ==> inFlight != [])
    {
      hide Unanswered, AllConserved;
      if pending == [] { return; }
      ghost var all := inFlight + pending;
      inFlight, pending := [pending[0]], pending[1..];
      while pending != [] && |inFlight| < worker.capacity
        invariant 0 < |inFlight| <= worker.capacity && inFlight + pending == all
        decreases |pending|
      {
        var timedOut: bool := *;
        if timedOut { break; }
        assert inFlight + [pending[0]] + pending[1..] == inFlight + pending;
        inFlight, pending := inFlight + [pending[0]], pending[1..];
      }
    }

    /** Answers the first waiter of a failed batch. */
    method FailFirst()
      requires Valid() && inFlight != [] && owed == map[]
      modifies this`inFlight, this`answers
      ensures Valid() && inFlight == old(inFlight)[1..] && answers == old(answers)[old(inFlight)[0].id := Error]
    {
      hide Unanswered, AllConserved, NonEmpty;
      var w := inFlight[0];
      ghost var s := inFlight + pending;
      FirstAnswered(s, nextWaiter, answers, buffered, Error, buffered);
      assert s[1..] == inFlight[1..] + pending;
      inFlight, answers := inFlight[1..], answers[w.id := Error];
    }

    /** Answers the first waiter of the batch with the first of its tokens; the rest are buffered unless it was the last. */
    method ServeFirst(tokens: seq<nat>)
      requires Valid() && inFlight != [] && inFlight[0].request in owed && tokens == owed[inFlight[0].request]
      modifies this`inFlight, this`answers, this`buffered, this`owed, this`delivered, this`settled
      ensures Valid() && inFlight == old(inFlight)[1..] && tokens != []
      ensures answers == old(answers)[old(inFlight)[0].id := Token(tokens[0])]
      ensures owed == old(owed) - {old(inFlight)[0].request}
      ensures delivered == Appended(old(delivered), old(inFlight)[0].request, tokens[0])
      ensures settled == old(settled) + if old(inFlight)[0].mode == Final then {old(inFlight)[0].request} else {}
    {
      hide Unanswered, AllConserved, Stream, Requests;
      var w := inFlight[0];
      ghost var s := inFlight + pending;
      FirstAnswered(s, nextWaiter, answers, buffered, Token(tokens[0]), buffered);
      RequestsJoin([w], inFlight[1..]);
      assert inFlight == [w] + inFlight[1..] && s[1..] == inFlight[1..] + pending;
      assert Requests([w]) == {w.request} by { OneRequest(w); }
      ServeConserves(delivered, buffered, owed, worker.emitted, settled, w.request);
      ghost var rest := Rest(buffered, w.request, tokens);
      FirstAnswered(s, nextWaiter, answers, buffered, Token(tokens[0]), rest);
      delivered, owed := Appended(delivered, w.request, tokens[0]), owed - {w.request};
      if w.mode == Final {
        SettleConserves(delivered, rest, owed, worker.emitted, settled, w.request);
        assert rest - {w.request} == buffered;
        settled := settled + {w.request};
      } else {
        buffered := Rest(buffered, w.request, tokens);
      }
      inFlight, answers := inFlight[1..], answers[w.id := Token(tokens[0])];
    }

    /**
     Runs one batch: the worker steps it, and every waiter of it is answered, each with the next token of its
     own request or all with an error.
    */
    method Dispatch()
      requires Valid() && inFlight != [] && owed == map[]
      modifies this, worker
      ensures Valid() && inFlight == [] && owed == map[] && pending == old(pending)
      ensures answers.Keys == old(answers).Keys + Ids(old(inFlight)) && Ids(old(inFlight)) !! old(answers).Keys
      ensures forall i :: i in old(answers) ==> answers[i] == old(answers)[i]
      ensures
        ((forall w :: w in old(inFlight) ==> Answered(w, answers, old(delivered), delivered)) &&
         settled == old(settled) + (set w | w in old(inFlight) && w.mode == Final :: w.request) &&
         worker.active == old(worker.active) - Released(old(inFlight)) &&
         worker.activeIds == old(worker.activeIds) - Untracked(old(inFlight))) ||
        ((forall w :: w in old(inFlight) ==> Failed(w, answers)) && delivered == old(delivered) && settled == old(settled) &&
         buffered == old(buffered) && worker.emitted == old(worker.emitted) && worker.active == old(worker.active))
    {
      hide Unanswered, AllConserved, NonEmpty;
      ghost var batch, emitted0 := inFlight, worker.emitted;
      BatchIsSeparate(inFlight, pending, nextWaiter, answers, buffered);
      var r := worker.Step(inFlight);
      if r.None? {
        FailBatch();
      } else {
        StepConserves(delivered, buffered, emitted0, settled, r.value, worker.emitted);
        owed := r.value;
        TokensNonEmpty(owed);
        ServeBatch(r.value);
      }
    }

    /** Every waiter of a failed batch gets the error. */
    method FailBatch()
      requires Valid() && owed == map[] && Separate(inFlight) && Ids(inFlight) !! answers.Keys
      modifies this`inFlight, this`answers
      ensures Valid() && inFlight == []
      ensures answers.Keys == old(answers).Keys + Ids(old(inFlight))
      ensures forall k :: k in old(answers) ==> answers[k] == old(answers)[k]
      ensures forall w :: w in old(inFlight) ==> Failed(w, answers)
    {
      hide Valid, Separate, Ids, Requests;
      ghost var batch, i := inFlight, 0;
      assert batch[0..] == batch && Ids(batch[..0]) == {} by { NoWaiters(); assert batch[..0] == []; }
      while inFlight != []
        invariant 0 <= i <= |batch| && inFlight == batch[i..] && Valid()
        invariant answers.Keys == old(answers).Keys + Ids(batch[..i])
        invariant forall k :: k in old(answers) ==> answers[k] == old(answers)[k]
        invariant forall j :: 0 <= j < i ==> Failed(batch[j], answers)
        decreases |inFlight|
      {
        BatchStep(batch, i, old(answers));
        FailFirst();
        i := i + 1;
      }
      assert batch[..i] == batch;
    }

    /** Every waiter of a batch gets the next token of its request. */
    method ServeBatch(tokens: Streams)
      requires Valid() && owed == tokens && Separate(inFlight) && Ids(inFlight) !! answers.Keys
      requires tokens.Keys == Requests(inFlight)
      modifies this`inFlight, this`answers, this`buffered, this`owed, this`delivered, this`settled
      ensures Valid() && inFlight == [] && owed == map[]
      ensures answers.Keys == old(answers).Keys + Ids(old(inFlight))
      ensures forall k :: k in old(answers) ==> answers[k] == old(answers)[k]
      ensures forall w :: w in old(inFlight) ==> Answered(w, answers, old(delivered), delivered)
      ensures settled == old(settled) + Released(old(inFlight))
    {
      hide Valid, Separate, Ids, Requests, Answered, Stream, Appended, Released;
      ghost var batch, i := inFlight, 0;
      assert batch[0..] == batch && Ids(batch[..0]) == {} && Requests(batch[..0]) == {} by {
        NoWaiters();
        assert batch[..0] == [];
      }
      assert Released(batch[..0]) == {} by { NoWaiters(); assert batch[..0] == []; }
      while inFlight != []
        invariant 0 <= i <= |batch| && inFlight == batch[i..] && Valid()
        invariant owed == tokens - Requests(batch[..i])
        invariant answers.Keys == old(answers).Keys + Ids(batch[..i])
        invariant forall k :: k in old(answers) ==> answers[k] == old(answers)[k]
        invariant forall j :: 0 <= j < i ==> Answered(batch[j], answers, old(delivered), delivered)
        invariant forall q :: q !in Requests(batch[..i]) ==> Stream(delivered, q) == Stream(old(delivered), q)
        invariant settled == old(settled) + Released(batch[..i])
        decreases |inFlight|
      {
        BatchStep(batch, i, old(answers));
        ghost var answered, d := answers, delivered;
        ServeFirst(tokens[inFlight[0].request]);
        AnsweredStays(batch, i, answered, old(delivered), d, tokens[batch[i].request][0]);
        i := i + 1;
      }
      assert batch[..i] == batch;
    }
  }

  /** The next token of the waiter's request was delivered to it. */
  predicate Answered(w: Waiter, answers: map<nat, Answer>, before: Streams, after: Streams) {
    w.id in answers && answers[w.id].Token? &&
    Stream(after, w.request) == Stream(before, w.request) + [answers[w.id].token]
  }

  predicate Failed(w: Waiter, answers: map<nat, Answer>) { w.id in answers && answers[w.id] == Error }

  lemma BatchIsSeparate(batch: seq<Waiter>, pending: seq<Waiter>, next: nat, answers: map<nat, Answer>, buffered: Streams)
    requires Unanswered(batch + pending, next, answers, buffered)
    ensures Separate(batch) && Ids(batch) !! answers.Keys && Requests(batch) !! buffered.Keys
  {
    var all := batch + pending;
    forall i, j | 0 <= i < j < |batch|
      ensures batch[i].request != batch[j].request && batch[i].id != batch[j].id
    {
      assert all[i] == batch[i] && all[j] == batch[j];
    }
    forall w | w in batch
      ensures w.id !in answers && w.request !in buffered
    {
      assert w in all;
    }
  }

  lemma AnsweredStays(batch: seq<Waiter>, i: nat, answers: map<nat, Answer>, before: Streams, d: Streams, token: nat)
    requires i < |batch| && (forall j :: 0 <= j < i ==> Answered(batch[j], answers, before, d))
    requires forall j :: 0 <= j < i ==> batch[j].request != batch[i].request && batch[j].id != batch[i].id
    requires Stream(d, batch[i].request) == Stream(before, batch[i].request)
    ensures
      var after, d2 := answers[batch[i].id := Token(token)], Appended(d, batch[i].request, token);
      forall j :: 0 <= j < i + 1 ==> Answered(batch[j], after, before, d2)
    ensures forall q :: q != batch[i].request ==> Stream(Appended(d, batch[i].request, token), q) == Stream(d, q)
  {
    var after, d2 := answers[batch[i].id := Token(token)], Appended(d, batch[i].request, token);
    forall j | 0 <= j < i + 1
      ensures Answered(batch[j], after, before, d2)
    {
      if j < i {
        assert Answered(batch[j], answers, before, d);
      }
    }
  }

  /** The next waiter of a batch shares nothing with those before it. */
  lemma BatchStep(batch: seq<Waiter>, i: nat, answers: map<nat, Answer>)
    requires Separate(batch) && i < |batch| && Ids(batch) !! answers.Keys
    ensures Requests(batch[..i + 1]) == Requests(batch[..i]) + {batch[i].request}
    ensures Ids(batch[..i + 1]) == Ids(batch[..i]) + {batch[i].id}
    ensures Released(batch[..i + 1]) == Released(batch[..i]) + if batch[i].mode == Final then {batch[i].request} else {}
    ensures batch[i].request !in Requests(batch[..i]) && batch[i].id !in Ids(batch[..i])
    ensures batch[i].id !in answers && batch[i].request in Requests(batch) && batch[i..][1..] == batch[i + 1..]
    ensures forall j :: 0 <= j < i ==> batch[j].request != batch[i].request && batch[j].id != batch[i].id
  {
    assert batch[..i + 1] == batch[..i] + [batch[i]];
    RequestsJoin(batch[..i], [batch[i]]);
    assert batch[i] in batch;
  }
}
