/** The batch-synchronous compile scheduler (`run_job_queue`): up to `jobs`
    compile processes are spawned, taking targets from the tail of the queue;
    when that many are in flight, all of them are waited out (newest first)
    before the next spawn; the first spawn or wait failure ends the run. */
module Scheduler {
  import opened Project
  import opened Staleness

  function Last<T>(s: seq<T>): T
    requires s != []
  {
    s[|s| - 1]
  }

  function DropLast<T>(s: seq<T>): seq<T>
    requires s != []
  {
    s[..|s| - 1]
  }

  function Reverse<T>(s: seq<T>): (r: seq<T>)
    ensures |r| == |s|
  {
    if s == [] then [] else [Last(s)] + Reverse(DropLast(s))
  }

  function Min(a: nat, b: nat): nat
  {
    if a < b then a else b
  }

  /** Spawning the targets, in the given order. */
  function Spawns(ts: seq<Target>): seq<Event>
  {
    if ts == [] then [] else [Spawn(ts[0])] + Spawns(ts[1..])
  }

  /** Waiting for the targets' jobs, in the given order. */
  function Waits(ts: seq<Target>): seq<Event>
  {
    if ts == [] then [] else [Wait(ts[0])] + Waits(ts[1..])
  }

  /** The schedule in batch form, when nothing fails: the spawn order is cut
      into consecutive chunks of `jobs` targets (the last one possibly shorter);
      each chunk is spawned and then waited out in reverse. */
  function Batches(order: seq<Target>, jobs: nat): seq<Event>
    requires jobs >= 1 || order == []
    decreases |order|
  {
    if order == [] then []
    else
      var k := Min(jobs, |order|);
      Spawns(order[..k]) + Waits(Reverse(order[..k])) + Batches(order[k..], jobs)
  }

  /** The events the scheduler's loop goes on to produce from the state where
      `queue` is still to be spawned and `inFlight` is the vector of running
      jobs, when nothing fails. */
  function Plan(queue: seq<Target>, inFlight: seq<Target>, jobs: nat): seq<Event>
    requires jobs >= 1 || queue == []
    decreases |queue|, |inFlight|
  {
    if queue == [] then Waits(Reverse(inFlight))
    else if |inFlight| < jobs then
      [Spawn(Last(queue))] + Plan(DropLast(queue), inFlight + [Last(queue)], jobs)
    else Waits(Reverse(inFlight)) + Plan(queue, [], jobs)
  }

  /** Carrying out a plan of events, stopping at the first one that fails. */
  function Exec(ok: seq<Event> -> bool, trace: seq<Event>, plan: seq<Event>): (Result<()>, seq<Event>)
    decreases |plan|
  {
    if plan == [] then (Ok(()), trace)
    else
      var t := trace + [plan[0]];
      if ok(t) then Exec(ok, t, plan[1..]) else (Err(FailureOf(plan[0])), t)
  }

  /** Running a single event: it is appended, and its failure is the error. */
  lemma ExecSingle(ok: seq<Event> -> bool, trace: seq<Event>, e: Event)
    ensures Exec(ok, trace, [e]) ==
      (if ok(trace + [e]) then Ok(()) else Err(FailureOf(e)), trace + [e])
  {
    assert [e][1..] == [];
  }

  /** Running two plans one after the other is running their concatenation. */
  lemma {:induction false} ExecConcat(ok: seq<Event> -> bool, trace: seq<Event>, a: seq<Event>, b: seq<Event>)
    ensures Exec(ok, trace, a + b) ==
      if Exec(ok, trace, a).0.Err? then Exec(ok, trace, a) else Exec(ok, Exec(ok, trace, a).1, b)
    decreases |a|
  {
    if a == [] {
      assert a + b == b;
    } else {
      assert (a + b)[0] == a[0] && (a + b)[1..] == a[1..] + b;
      ExecConcat(ok, trace + [a[0]], a[1..], b);
    }
  }

  lemma {:induction false} ExecStopsAtFirstFailure(ok: seq<Event> -> bool, trace: seq<Event>, plan: seq<Event>)
    ensures var t := Exec(ok, trace, plan).1;
      |trace| <= |t| <= |trace| + |plan| && t == trace + plan[..|t| - |trace|]
    ensures var t := Exec(ok, trace, plan).1;
      forall i :: |trace| < i < |t| ==> ok(t[..i])
    ensures var (r, t) := Exec(ok, trace, plan);
      r.Ok? ==> t == trace + plan && (|plan| > 0 ==> ok(t))
    ensures var (r, t) := Exec(ok, trace, plan);
      r.Err? ==> |t| > |trace| && !ok(t) && r.error == FailureOf(t[|t| - 1])
    decreases |plan|
  {
    if plan != [] {
      var t1 := trace + [plan[0]];
      if ok(t1) {
        ExecStopsAtFirstFailure(ok, t1, plan[1..]);
        var t := Exec(ok, t1, plan[1..]).1;
        assert t == trace + plan[..|t| - |trace|] by {
          assert t == t1 + plan[1..][..|t| - |t1|];
          assert [plan[0]] + plan[1..][..|t| - |t1|] == plan[..|t| - |trace|];
        }
        forall i | |trace| < i < |t| ensures ok(t[..i]) {
          if i == |t1| {
            assert t[..i] == t1;
          }
        }
      }
    }
  }

  lemma {:induction false} SpawnsConcat(a: seq<Target>, b: seq<Target>)
    ensures Spawns(a + b) == Spawns(a) + Spawns(b)
  {
    if a == [] {
      assert a + b == b;
    } else {
      assert (a + b)[0] == a[0] && (a + b)[1..] == a[1..] + b;
      SpawnsConcat(a[1..], b);
    }
  }

  lemma ExecStep(ok: seq<Event> -> bool, trace: seq<Event>, e: Event, rest: seq<Event>)
    ensures Exec(ok, trace, [e] + rest) ==
      if ok(trace + [e]) then Exec(ok, trace + [e], rest) else (Err(FailureOf(e)), trace + [e])
  {
    assert ([e] + rest)[0] == e && ([e] + rest)[1..] == rest;
  }

  lemma WaitsOfReverse(f: seq<Target>)
    requires f != []
    ensures Waits(Reverse(f)) == [Wait(Last(f))] + Waits(Reverse(DropLast(f)))
  {
    var r := Reverse(f);
    assert r == [Last(f)] + Reverse(DropLast(f));
    assert r[0] == Last(f) && r[1..] == Reverse(DropLast(f));
  }

  /** The loop's plan from any state in which at most `jobs` jobs are in
      flight: finish the current chunk, wait it out, then the remaining batches. */
  ghost function BatchForm(queue: seq<Target>, inFlight: seq<Target>, jobs: nat): seq<Event>
    requires jobs >= 1 || queue == []
    requires |inFlight| <= jobs
  {
    var rq := Reverse(queue);
    var k := Min(jobs - |inFlight|, |queue|);
    Spawns(rq[..k]) + Waits(Reverse(inFlight + rq[..k])) + Batches(rq[k..], jobs)
  }

  lemma {:induction false} PlanInBatchForm(queue: seq<Target>, inFlight: seq<Target>, jobs: nat)
    requires jobs >= 1 || queue == []
    requires |inFlight| <= jobs
    ensures Plan(queue, inFlight, jobs) == BatchForm(queue, inFlight, jobs)
    decreases |queue|, |inFlight|
  {
    if queue == [] {
      assert inFlight + Reverse(queue)[..0] == inFlight;
    } else if |inFlight| < jobs {
      PlanInBatchForm(DropLast(queue), inFlight + [Last(queue)], jobs);
      BatchFormSpawnStep(queue, inFlight, jobs);
    } else {
      PlanInBatchForm(queue, [], jobs);
      BatchFormDrainStep(queue, inFlight, jobs);
    }
  }

  lemma BatchFormSpawnStep(queue: seq<Target>, inFlight: seq<Target>, jobs: nat)
    requires queue != [] && |inFlight| < jobs
    ensures BatchForm(queue, inFlight, jobs) ==
            [Spawn(Last(queue))] + BatchForm(DropLast(queue), inFlight + [Last(queue)], jobs)
  {
    var x := Last(queue);
    var k := Min(jobs - |inFlight|, |queue|);
    var rq, rq' := Reverse(queue), Reverse(DropLast(queue));
    ReverseSplit(queue, k);
    var head, head' := rq[..k], rq'[..k - 1];
    SpawnsCons(head, x, head');
    AppendCons(inFlight, head, x, head');
    BatchFormParts(queue, inFlight, jobs, k, head, Waits(Reverse(inFlight + head)), Batches(rq[k..], jobs));
    BatchFormParts(DropLast(queue), inFlight + [x], jobs, k - 1, head', Waits(Reverse(inFlight + head)), Batches(rq[k..], jobs));
    ConsAssoc(Spawns(head), Spawn(x), Spawns(head'), Waits(Reverse(inFlight + head)), Batches(rq[k..], jobs));
  }

  lemma BatchFormParts(queue: seq<Target>, inFlight: seq<Target>, jobs: nat, k: nat,
                       head: seq<Target>, w: seq<Event>, b: seq<Event>)
    requires jobs >= 1 || queue == []
    requires |inFlight| <= jobs
    requires k == Min(jobs - |inFlight|, |queue|)
    requires head == Reverse(queue)[..k]
    requires w == Waits(Reverse(inFlight + head))
    requires b == Batches(Reverse(queue)[k..], jobs)
    ensures BatchForm(queue, inFlight, jobs) == Spawns(head) + w + b
  {
  }

  lemma AppendCons<T>(f: seq<T>, s: seq<T>, x: T, rest: seq<T>)
    requires s == [x] + rest
    ensures f + s == (f + [x]) + rest
  {
  }

  lemma ConsAssoc<T>(a: seq<T>, x: T, a': seq<T>, w: seq<T>, b: seq<T>)
    requires a == [x] + a'
    ensures a + w + b == [x] + (a' + w + b)
  {
  }

  lemma ReverseSplit(queue: seq<Target>, k: nat)
    requires 0 < k <= |queue|
    ensures Reverse(queue)[..k] == [Last(queue)] + Reverse(DropLast(queue))[..k - 1]
    ensures Reverse(queue)[k..] == Reverse(DropLast(queue))[k - 1..]
  {
    var r := Reverse(DropLast(queue));
    assert Reverse(queue) == [Last(queue)] + r;
    ConsSlices(Last(queue), r, k);
  }

  lemma ConsSlices<T>(x: T, r: seq<T>, k: nat)
    requires 0 < k <= |r| + 1
    ensures ([x] + r)[..k] == [x] + r[..k - 1]
    ensures ([x] + r)[k..] == r[k - 1..]
  {
  }

  lemma SpawnsCons(s: seq<Target>, x: Target, rest: seq<Target>)
    requires s == [x] + rest
    ensures Spawns(s) == [Spawn(x)] + Spawns(rest)
  {
    assert s[0] == x && s[1..] == rest;
  }

  lemma BatchFormDrainStep(queue: seq<Target>, inFlight: seq<Target>, jobs: nat)
    requires jobs >= 1 && queue != [] && |inFlight| == jobs
    ensures BatchForm(queue, inFlight, jobs) ==
            Waits(Reverse(inFlight)) + BatchForm(queue, [], jobs)
  {
    var rq := Reverse(queue);
    var k0 := Min(jobs, |queue|);
    var w, b := Waits(Reverse(inFlight)), Batches(rq, jobs);
    EmptySlices(inFlight, rq);
    BatchFormParts(queue, inFlight, jobs, 0, [], w, b);
    EmptySlices(rq[..k0], rq);
    BatchFormParts(queue, [], jobs, k0, rq[..k0], Waits(Reverse(rq[..k0])), Batches(rq[k0..], jobs));
    BatchesUnfold(rq, jobs);
    Glue(BatchForm(queue, inFlight, jobs), Spawns([]), w, b, BatchForm(queue, [], jobs));
  }

  lemma Glue(x: seq<Event>, e: seq<Event>, w: seq<Event>, b: seq<Event>, y: seq<Event>)
    requires e == [] && x == e + w + b && y == b
    ensures x == w + y
  {
  }

  lemma EmptySlices<T>(f: seq<T>, r: seq<T>)
    ensures r[..0] == [] && r[0..] == r && f + [] == f && [] + f == f
  {
  }

  lemma BatchesUnfold(order: seq<Target>, jobs: nat)
    requires jobs >= 1 && order != []
    ensures Batches(order, jobs) ==
      Spawns(order[..Min(jobs, |order|)]) + Waits(Reverse(order[..Min(jobs, |order|)]))
        + Batches(order[Min(jobs, |order|)..], jobs)
  {
  }

  lemma PlanIsBatches(queue: seq<Target>, jobs: nat)
    requires jobs >= 1 || queue == []
    ensures Plan(queue, [], jobs) == Batches(Reverse(queue), jobs)
  {
    PlanInBatchForm(queue, [], jobs);
    var rq := Reverse(queue);
    var k := Min(jobs, |queue|);
    assert [] + rq[..k] == rq[..k];
    if queue == [] {
      assert rq == [];
    }
  }

  /** `run_job_queue`. The queue is consumed from its tail; `inFlight` is the
      vector of running jobs, drained from its tail. */
  method RunJobQueue(queue: seq<Target>, jobs: nat, ok: seq<Event> -> bool, trace0: seq<Event>)
    returns (r: Result<()>, trace: seq<Event>)
    requires jobs >= 1 || queue == []
    ensures (r, trace) == Exec(ok, trace0, Batches(Reverse(queue), jobs))
  {
    PlanIsBatches(queue, jobs);
    ghost var goal := Exec(ok, trace0, Plan(queue, [], jobs));
    var jobQueue := queue;
    var inFlight: seq<Target> := [];
    trace := trace0;
    while jobQueue != []
      invariant jobs >= 1 || jobQueue == []
      invariant |inFlight| <= jobs
      invariant Exec(ok, trace, Plan(jobQueue, inFlight, jobs)) == goal
      decreases |jobQueue|, |inFlight|
    {
      if |inFlight| < jobs {
        var target := jobQueue[|jobQueue| - 1];
        ExecStep(ok, trace, Spawn(target), Plan(jobQueue[..|jobQueue| - 1], inFlight + [target], jobs));
        jobQueue := jobQueue[..|jobQueue| - 1];
        trace := trace + [Spawn(target)];
        if !ok(trace) {
          r := Err(SpawnFailed(target));
          return;
        }
        inFlight := inFlight + [target];
      } else {
        ghost var rest := Plan(jobQueue, [], jobs);
        while inFlight != []
          invariant Exec(ok, trace, Waits(Reverse(inFlight)) + rest) == goal
          decreases |inFlight|
        {
          var job := inFlight[|inFlight| - 1];
          DrainStep(ok, trace, inFlight, rest);
          inFlight := inFlight[..|inFlight| - 1];
          trace := trace + [Wait(job)];
          if !ok(trace) {
            r := Err(JobFailed(job));
            return;
          }
        }
        assert Waits(Reverse(inFlight)) + rest == rest;
      }
    }
    assert Waits(Reverse(inFlight)) + [] == Waits(Reverse(inFlight));
    while inFlight != []
      invariant Exec(ok, trace, Waits(Reverse(inFlight)) + []) == goal
      decreases |inFlight|
    {
      var job := inFlight[|inFlight| - 1];
      DrainStep(ok, trace, inFlight, []);
      inFlight := inFlight[..|inFlight| - 1];
      trace := trace + [Wait(job)];
      if !ok(trace) {
        r := Err(JobFailed(job));
        return;
      }
    }
    r := Ok(());
  }

  /** One wait of a drain: the newest job in flight is waited for first. */
  lemma DrainStep(ok: seq<Event> -> bool, trace: seq<Event>, inFlight: seq<Target>, rest: seq<Event>)
    requires inFlight != []
    ensures Exec(ok, trace, Waits(Reverse(inFlight)) + rest) ==
      if ok(trace + [Wait(Last(inFlight))])
      then Exec(ok, trace + [Wait(Last(inFlight))], Waits(Reverse(DropLast(inFlight))) + rest)
      else (Err(JobFailed(Last(inFlight))), trace + [Wait(Last(inFlight))])
  {
    WaitsOfReverse(inFlight);
    var e := Wait(Last(inFlight));
    ConsAssoc(Waits(Reverse(inFlight)), e, Waits(Reverse(DropLast(inFlight))), rest, []);
    assert Waits(Reverse(inFlight)) + rest == [e] + (Waits(Reverse(DropLast(inFlight))) + rest) by {
      assert Waits(Reverse(inFlight)) + rest + [] == Waits(Reverse(inFlight)) + rest;
      assert Waits(Reverse(DropLast(inFlight))) + rest + [] == Waits(Reverse(DropLast(inFlight))) + rest;
    }
    ExecStep(ok, trace, e, Waits(Reverse(DropLast(inFlight))) + rest);
  }

  /** The state the batch-synchronous policy tracks: the vector of jobs in
      flight, and whether a drain has begun since the last spawn. */
  datatype Pool = Pool(inFlight: seq<Target>, draining: bool)

  const Idle: Pool := Pool([], false)

  /** The policy, one event at a time; None when the event breaks it. A spawn
      needs fewer than `jobs` jobs in flight and no drain under way unless the
      drain is complete; a wait must be for the newest job in flight. */
  function Step(jobs: nat, s: Pool, e: Event): Option<Pool>
  {
    match e
    case Spawn(t) =>
      if |s.inFlight| < jobs && (!s.draining || s.inFlight == [])
      then Some(Pool(s.inFlight + [t], false)) else None
    case Wait(t) =>
      if s.inFlight != [] && Last(s.inFlight) == t
      then Some(Pool(DropLast(s.inFlight), true)) else None
    case _ => None
  }

  /** Replaying a run against the policy; None if some event breaks it. */
  function Replay(jobs: nat, s: Pool, es: seq<Event>): Option<Pool>
    decreases |es|
  {
    if es == [] then Some(s)
    else
      match Step(jobs, s, es[0])
      case None => None
      case Some(s') => Replay(jobs, s', es[1..])
  }

  lemma {:induction false} ReplayConcat(jobs: nat, s: Pool, a: seq<Event>, b: seq<Event>)
    ensures Replay(jobs, s, a + b) ==
      if Replay(jobs, s, a).None? then None else Replay(jobs, Replay(jobs, s, a).value, b)
    decreases |a|
  {
    if a == [] {
      assert a + b == b;
    } else {
      assert (a + b)[0] == a[0] && (a + b)[1..] == a[1..] + b;
      if Step(jobs, s, a[0]).Some? {
        ReplayConcat(jobs, Step(jobs, s, a[0]).value, a[1..], b);
      }
    }
  }

  lemma {:induction false} ReplaySpawns(jobs: nat, s: Pool, c: seq<Target>)
    requires |s.inFlight| + |c| <= jobs
    requires c != [] ==> !s.draining || s.inFlight == []
    ensures Replay(jobs, s, Spawns(c)) == Some(if c == [] then s else Pool(s.inFlight + c, false))
    decreases |c|
  {
    if c != [] {
      var s' := Pool(s.inFlight + [c[0]], false);
      var es := Spawns(c);
      assert es[0] == Spawn(c[0]) && es[1..] == Spawns(c[1..]);
      assert Step(jobs, s, es[0]) == Some(s');
      assert Replay(jobs, s, es) == Replay(jobs, s', es[1..]);
      ReplaySpawns(jobs, s', c[1..]);
      assert s'.inFlight + c[1..] == s.inFlight + c by {
        assert c == [c[0]] + c[1..];
      }
      if c[1..] == [] {
        assert s'.inFlight == s'.inFlight + c[1..];
      }
    }
  }

  lemma {:induction false} ReplayWaits(jobs: nat, base: seq<Target>, xs: seq<Target>, d: bool)
    ensures Replay(jobs, Pool(base + xs, d), Waits(Reverse(xs))) ==
            Some(Pool(base, if xs == [] then d else true))
    decreases |xs|
  {
    if xs == [] {
      assert base + xs == base;
    } else {
      WaitsOfReverse(xs);
      assert Last(base + xs) == Last(xs);
      assert DropLast(base + xs) == base + DropLast(xs);
      ReplayWaits(jobs, base, DropLast(xs), true);
    }
  }

  /** Every batch schedule obeys the policy and ends with nothing in flight. */
  lemma {:induction false} BatchesObeyPolicy(order: seq<Target>, jobs: nat, d: bool)
    requires jobs >= 1 || order == []
    ensures Replay(jobs, Pool([], d), Batches(order, jobs)) == Some(Pool([], d || order != []))
    decreases |order|
  {
    if order != [] {
      var k := Min(jobs, |order|);
      var c := order[..k];
      ReplaySpawns(jobs, Pool([], d), c);
      assert [] + c == c;
      ReplayWaits(jobs, [], c, false);
      ReplayConcat(jobs, Pool([], d), Spawns(c), Waits(Reverse(c)));
      ReplayConcat(jobs, Pool([], d), Spawns(c) + Waits(Reverse(c)), Batches(order[k..], jobs));
      BatchesObeyPolicy(order[k..], jobs, true);
    }
  }

  /** Along a run the policy accepts, at most `jobs` jobs are ever in flight. */
  lemma {:induction false} PolicyBoundsInFlight(jobs: nat, s: Pool, es: seq<Event>)
    requires Replay(jobs, s, es).Some? && |s.inFlight| <= jobs
    ensures forall k :: 0 <= k <= |es| ==>
      Replay(jobs, s, es[..k]).Some? && |Replay(jobs, s, es[..k]).value.inFlight| <= jobs
    decreases |es|
  {
    if es != [] {
      var s' := Step(jobs, s, es[0]).value;
      PolicyBoundsInFlight(jobs, s', es[1..]);
      forall k | 0 <= k <= |es|
        ensures Replay(jobs, s, es[..k]).Some? && |Replay(jobs, s, es[..k]).value.inFlight| <= jobs
      {
        if k > 0 {
          assert es[..k][0] == es[0] && es[..k][1..] == es[1..][..k - 1];
        }
      }
    }
  }

  /** Along a run the policy accepts, a spawn that follows a wait finds no job
      in flight: a drain always runs to completion. */
  lemma DrainCompletesBeforeSpawn(jobs: nat, s: Pool, es: seq<Event>, k: int)
    requires Replay(jobs, s, es).Some? && |s.inFlight| <= jobs
    requires 0 < k < |es| && es[k].Spawn? && es[k - 1].Wait?
    ensures Replay(jobs, s, es[..k]).Some? && Replay(jobs, s, es[..k]).value.inFlight == []
  {
    PolicyBoundsInFlight(jobs, s, es);
    assert es[..k] == es[..k - 1] + [es[k - 1]];
    assert es[..k + 1] == es[..k] + [es[k]];
    ReplayConcat(jobs, s, es[..k - 1], [es[k - 1]]);
    ReplayConcat(jobs, s, es[..k], [es[k]]);
    assert Replay(jobs, s, es[..k + 1]).Some?;
  }

  /** The targets spawned along a run, in spawn order. */
  function Spawned(es: seq<Event>): seq<Target>
  {
    if es == [] then []
    else (if es[0].Spawn? then [es[0].target] else []) + Spawned(es[1..])
  }

  lemma {:induction false} SpawnedConcat(a: seq<Event>, b: seq<Event>)
    ensures Spawned(a + b) == Spawned(a) + Spawned(b)
    decreases |a|
  {
    if a == [] {
      assert a + b == b;
    } else {
      assert (a + b)[0] == a[0] && (a + b)[1..] == a[1..] + b;
      SpawnedConcat(a[1..], b);
    }
  }

  lemma {:induction false} SpawnedOfSpawns(c: seq<Target>)
    ensures Spawned(Spawns(c)) == c
    decreases |c|
  {
    if c != [] {
      SpawnedOfSpawns(c[1..]);
      assert c == [c[0]] + c[1..];
    }
  }

  lemma {:induction false} SpawnedOfWaits(c: seq<Target>)
    ensures Spawned(Waits(c)) == []
    decreases |c|
  {
    if c != [] {
      SpawnedOfWaits(c[1..]);
    }
  }

  /** A batch schedule spawns each target of the order once, in that order. */
  lemma {:induction false} BatchesSpawnInOrder(order: seq<Target>, jobs: nat)
    requires jobs >= 1 || order == []
    ensures Spawned(Batches(order, jobs)) == order
    decreases |order|
  {
    if order != [] {
      var k := Min(jobs, |order|);
      var c := order[..k];
      SpawnedConcat(Spawns(c) + Waits(Reverse(c)), Batches(order[k..], jobs));
      SpawnedConcat(Spawns(c), Waits(Reverse(c)));
      SpawnedOfSpawns(c);
      SpawnedOfWaits(Reverse(c));
      BatchesSpawnInOrder(order[k..], jobs);
      assert order == c + order[k..];
    }
  }

  /** With room for every target, all of them are spawned before any wait. */
  lemma BatchesWhenAllFit(order: seq<Target>, jobs: nat)
    requires |order| <= jobs
    ensures Batches(order, jobs) == Spawns(order) + Waits(Reverse(order))
  {
    if order != [] {
      assert order[..|order|] == order && order[|order|..] == [];
    }
  }

  lemma {:induction false} ReverseAt<T>(s: seq<T>, i: int)
    requires 0 <= i < |s|
    ensures Reverse(s)[i] == s[|s| - 1 - i]
    decreases |s|
  {
    if i > 0 {
      ReverseAt(DropLast(s), i - 1);
    }
  }

  /** The spawn order of an ascending queue is descending. */
  lemma ReverseOfAscending(queue: seq<Target>)
    requires StrictlyAscending(queue)
    ensures forall i, j :: 0 <= i < j < |queue| ==> TargetLess(Reverse(queue)[j], Reverse(queue)[i])
  {
    forall i, j | 0 <= i < j < |queue|
      ensures TargetLess(Reverse(queue)[j], Reverse(queue)[i])
    {
      ReverseAt(queue, i);
      ReverseAt(queue, j);
    }
  }

  /** What `run_job_queue` promises. Its events extend the history; every
      prefix of them obeys the batch-synchronous policy, with at most `jobs`
      jobs in flight; on success every target was spawned once, from the tail
      of the queue, and every spawned job was waited for; on failure the run
      stops at the first failing event, which it reports. */
  lemma RunJobQueueCorrect(queue: seq<Target>, jobs: nat, ok: seq<Event> -> bool, trace0: seq<Event>)
    requires jobs >= 1 || queue == []
    ensures var trace := Exec(ok, trace0, Batches(Reverse(queue), jobs)).1;
      |trace| >= |trace0| && trace[..|trace0|] == trace0
    ensures var trace := Exec(ok, trace0, Batches(Reverse(queue), jobs)).1;
      var run := trace[|trace0|..];
      forall k :: 0 <= k <= |run| ==>
        Replay(jobs, Idle, run[..k]).Some? && |Replay(jobs, Idle, run[..k]).value.inFlight| <= jobs
    ensures var (r, trace) := Exec(ok, trace0, Batches(Reverse(queue), jobs));
      r.Ok? ==> (Spawned(trace[|trace0|..]) == Reverse(queue)
                 && Replay(jobs, Idle, trace[|trace0|..]) == Some(Pool([], queue != [])))
    ensures var (r, trace) := Exec(ok, trace0, Batches(Reverse(queue), jobs));
      r.Err? ==> (|trace| > |trace0| && !ok(trace) && r.error == FailureOf(trace[|trace| - 1])
                  && forall i :: |trace0| < i < |trace| ==> ok(trace[..i]))
  {
    var plan := Batches(Reverse(queue), jobs);
    ExecStopsAtFirstFailure(ok, trace0, plan);
    BatchesObeyPolicy(Reverse(queue), jobs, false);
    BatchesSpawnInOrder(Reverse(queue), jobs);
    ExecPrefixObeysPolicy(jobs, ok, trace0, plan);
  }

  /** The events a plan the policy accepts actually gets to run, when it stops
      early, still obey the policy at every prefix. */
  lemma ExecPrefixObeysPolicy(jobs: nat, ok: seq<Event> -> bool, trace0: seq<Event>, plan: seq<Event>)
    requires Replay(jobs, Idle, plan).Some?
    ensures var trace := Exec(ok, trace0, plan).1;
      |trace| >= |trace0| &&
      var run := trace[|trace0|..];
      forall k :: 0 <= k <= |run| ==>
        Replay(jobs, Idle, run[..k]).Some? && |Replay(jobs, Idle, run[..k]).value.inFlight| <= jobs
  {
    ExecStopsAtFirstFailure(ok, trace0, plan);
    var trace := Exec(ok, trace0, plan).1;
    var n := |trace| - |trace0|;
    assert trace[|trace0|..] == plan[..n];
    PrefixAccepted(jobs, Idle, plan, n);
    PolicyBoundsInFlight(jobs, Idle, plan[..n]);
  }

  lemma PrefixAccepted(jobs: nat, s: Pool, plan: seq<Event>, n: nat)
    requires Replay(jobs, s, plan).Some? && n <= |plan|
    ensures Replay(jobs, s, plan[..n]).Some?
  {
    assert plan == plan[..n] + plan[n..];
    ReplayConcat(jobs, s, plan[..n], plan[n..]);
  }

  /** Compiling one target at a time: each is spawned and waited for before
      the next. */
  function OneAtATime(order: seq<Target>): seq<Event>
  {
    if order == [] then [] else [Spawn(order[0]), Wait(order[0])] + OneAtATime(order[1..])
  }

  /** With a single worker the schedule is strictly sequential. */
  lemma {:induction false} SequentialWithOneJob(order: seq<Target>)
    ensures Batches(order, 1) == OneAtATime(order)
    decreases |order|
  {
    if order != [] {
      var c := order[..1];
      assert c == [order[0]];
      assert Reverse(c) == [order[0]];
      assert Spawns(c) == [Spawn(order[0])];
      assert Waits(Reverse(c)) == [Wait(order[0])];
      SequentialWithOneJob(order[1..]);
    }
  }

  /** Two queued targets with two workers form a single batch: both are
      spawned from the tail, then waited for newest first. */
  lemma PairInOneBatch(x: Target, y: Target)
    ensures Batches(Reverse([x, y]), 2) == [Spawn(y), Spawn(x), Wait(x), Wait(y)]
  {
    assert DropLast([x, y]) == [x];
    assert Reverse([x]) == [x];
    assert Reverse([x, y]) == [y, x];
    var c := [y, x];
    assert c[..2] == c && c[2..] == [];
    assert DropLast(c) == [y];
    assert Reverse(c) == [x, y];
    assert Spawns([x]) == [Spawn(x)] by {
      assert [x][1..] == [];
    }
    assert Spawns(c) == [Spawn(y), Spawn(x)] by {
      assert c[1..] == [x];
      assert Spawns(c) == [Spawn(y)] + Spawns([x]);
    }
    assert Waits([y]) == [Wait(y)] by {
      assert [y][1..] == [];
    }
    assert Waits([x, y]) == [Wait(x), Wait(y)] by {
      assert [x, y][1..] == [y];
      assert Waits([x, y]) == [Wait(x)] + Waits([y]);
    }
    assert Batches(c[2..], 2) == [];
  }

  /** A failing wait returns at once: with two targets in flight, when the
      first wait fails the other job is never waited for by the scheduler. */
  lemma FailedWaitLeavesSibling(x: Target, y: Target, ok: seq<Event> -> bool, trace0: seq<Event>)
    requires ok(trace0 + [Spawn(y)]) && ok(trace0 + [Spawn(y), Spawn(x)])
    requires !ok(trace0 + [Spawn(y), Spawn(x), Wait(x)])
    ensures Exec(ok, trace0, Batches(Reverse([x, y]), 2)) ==
      (Err(JobFailed(x)), trace0 + [Spawn(y), Spawn(x), Wait(x)])
  {
    PairInOneBatch(x, y);
    var plan := [Spawn(y), Spawn(x), Wait(x), Wait(y)];
    assert plan[1..] == [Spawn(x), Wait(x), Wait(y)];
    assert plan[1..][1..] == [Wait(x), Wait(y)];
    var t1 := trace0 + [Spawn(y)];
    var t2 := t1 + [Spawn(x)];
    var t3 := t2 + [Wait(x)];
    assert t2 == trace0 + [Spawn(y), Spawn(x)];
    assert t3 == trace0 + [Spawn(y), Spawn(x), Wait(x)];
    assert Exec(ok, t2, plan[1..][1..]) == (Err(JobFailed(x)), t3);
    assert Exec(ok, t1, plan[1..]) == Exec(ok, t2, plan[1..][1..]);
    assert Exec(ok, trace0, plan) == Exec(ok, t1, plan[1..]);
  }
}
