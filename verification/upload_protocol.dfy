/**
 Resumable uploads as a protocol: any number of request threads and workers, interleaved at the
 granularity of the locked sections of service/upload_jobs.go and
 service/siteservice_resumablereceiver.go. A job is an object with its own identity: the registry
 may forget it, and a later job may use the same key.
 */
module UploadProtocol {
  import opened ChunkStore
  import opened UploadJobs
  import ChunkReader

  /** Running; past the notice that a commit is coming; past the commit point; or panicked. */
  datatype Phase = Running | Armed | Committing | Broken

  /** `seen` is what was on disk when the worker was started. */
  datatype Worker = Worker(job: int, phase: Phase, seen: Files)

  /** `commits` counts, for each job ever registered, the attempts that reached the commit point. */
  datatype World = World(
    jobs: map<int, Job>, registry: map<Key, int>, files: Files,
    workers: map<int, Worker>, pins: map<int, int>, commits: map<int, nat>)

  function Registered(s: World): map<Key, Job>
    requires forall key | key in s.registry :: s.registry[key] in s.jobs
  {
    map key | key in s.registry :: s.jobs[s.registry[key]]
  }

  datatype Step =
    | Acquire(t: int, key: Key, sid: Option<int>, params: Params, now: int, busy: set<Key>, stuck: set<Name>, id: int)
    | PinExisting(t: int, key: Key)
    | Receive(t: int, post: Post, w: int)
    | Release(t: int)
    | Notify(w: int)
    | ReachCommit(w: int)
    | Panic(w: int)
    | Finish(w: int, ok: bool, now: int, stuck: set<Name>)

  /** What can happen: ids are fresh, a worker notifies before it commits, and succeeds only by committing. */
  ghost predicate Possible(s: World, step: Step) {
    match step
    case Acquire(t, key, _, p, _, _, _, id) => t !in s.pins && key.uid != 0 && Fits(key, p) && id !in s.jobs
    case PinExisting(t, _) => t !in s.pins
    case Receive(t, post, w) => t in s.pins && WellFormed(post) && w !in s.workers
    case Release(t) => t in s.pins
    case Notify(w) => w in s.workers && s.workers[w].phase == Running
    case ReachCommit(w) => w in s.workers && s.workers[w].phase == Armed
    case Panic(w) => w in s.workers && s.workers[w].phase != Broken
    case Finish(w, ok, _, _) => w in s.workers && (ok ==> s.workers[w].phase == Committing)
  }

  function Swept(s: World, now: int, busy: set<Key>, stuck: set<Name>): World
    requires Linked(s)
  {
    s.(registry := s.registry - SweptKeys(Registered(s), s.files, now, busy, stuck),
       files := SweptFiles(Registered(s), s.files, now, busy, stuck))
  }

  function Pinned(s: World, t: int, id: int): World
    requires id in s.jobs
  {
    s.(jobs := s.jobs[id := s.jobs[id].(refs := s.jobs[id].refs + 1)], pins := s.pins[t := id])
  }

  function Opened(s: World, key: Key, sid: Option<int>, p: Params, now: int, id: int): World {
    s.(jobs := s.jobs[id := Job(key, sid, p, None, Receiving, false, 0, now, 0)],
       registry := s.registry[key := id], commits := s.commits[id := 0])
  }

  function Next(s: World, step: Step): World
    requires Linked(s) && Possible(s, step)
  {
    match step
    case Acquire(t, key, sid, p, now, busy, stuck, id) =>
      var swept := Swept(s, now, busy, stuck);
      if key in swept.registry then Pinned(swept, t, swept.registry[key])
      else if |swept.registry| >= MAX_JOBS then swept
      else Pinned(Opened(swept, key, sid, p, now, id), t, id)
    case PinExisting(t, key) => if key in s.registry then Pinned(s, t, s.registry[key]) else s
    case Receive(t, post, w) =>
      var id := s.pins[t];
      var r := Received(s.jobs[id], s.files, post);
      var s' := s.(jobs := s.jobs[id := r.job], files := r.files);
      if r.reply.Started? then s'.(workers := s.workers[w := Worker(id, Running, r.files)]) else s'
    case Release(t) =>
      var id := s.pins[t];
      s.(jobs := s.jobs[id := s.jobs[id].(refs := s.jobs[id].refs - 1)], pins := s.pins - {t})
    case Notify(w) =>
      var id := s.workers[w].job;
      s.(jobs := s.jobs[id := s.jobs[id].(retryable := false)],
         workers := s.workers[w := s.workers[w].(phase := Armed)])
    case ReachCommit(w) =>
      var id := s.workers[w].job;
      s.(commits := s.commits[id := s.commits[id] + 1],
         workers := s.workers[w := s.workers[w].(phase := Committing)])
    case Panic(w) =>
      var id := s.workers[w].job;
      s.(jobs := s.jobs[id := s.jobs[id].(retryable := false)],
         workers := s.workers[w := s.workers[w].(phase := Broken)])
    case Finish(w, ok, now, stuck) =>
      var id := s.workers[w].job;
      var j := s.jobs[id].(state := if ok then Succeeded else Failed, touched := now);
      s.(jobs := s.jobs[id := j], workers := s.workers - {w},
         files := if ok then Cleaned(s.files, j, stuck) else s.files)
  }

  // ---------------------------------------------------------------- the invariant

  /** Every id names a job that exists. */
  ghost predicate Linked(s: World) {
    && (forall key | key in s.registry :: s.registry[key] in s.jobs)
    && (forall t | t in s.pins :: s.pins[t] in s.jobs)
    && (forall w | w in s.workers :: s.workers[w].job in s.jobs)
    && (forall id | id in s.jobs :: id in s.commits)
  }

  function Pinners(s: World, id: int): set<int> {
    set t | t in s.pins && s.pins[t] == id
  }

  /** A pinned or processing job is the one its key leads to; the reference count is the number of pins. */
  ghost predicate Owning(s: World) {
    && Linked(s)
    && (forall key | key in s.registry :: s.jobs[s.registry[key]].key == key)
    && (forall id | id in s.jobs :: s.jobs[id].refs == |Pinners(s, id)|)
    && (forall id | id in s.jobs && (s.jobs[id].refs != 0 || s.jobs[id].state == Processing) ::
          s.jobs[id].key in s.registry && s.registry[s.jobs[id].key] == id)
  }

  /** Where the commit point stands for one job and the phase of its worker, if it has one. */
  ghost predicate Committable(j: Job, commits: nat, phase: Option<Phase>) {
    && commits <= 1
    && (j.retryable || j.state == Receiving ==> commits == 0)
    && (phase == Some(Running) || phase == Some(Armed) ==> commits == 0)
    && (phase == Some(Running) <==> j.state == Processing && j.retryable)
    && (j.state == Processing <==> phase.Some?)
    && (j.state == Succeeded ==> commits == 1 && !j.retryable)
    && (phase == Some(Committing) ==> commits == 1)
  }

  ghost predicate WorkerOf(s: World, id: int, w: int) {
    w in s.workers && s.workers[w].job == id
  }

  ghost predicate AtMostOneWorker(s: World, id: int) {
    forall v, w | WorkerOf(s, id, v) && WorkerOf(s, id, w) :: v == w
  }

  ghost predicate Idle(s: World, id: int) {
    forall w :: !WorkerOf(s, id, w)
  }

  ghost predicate Sound(s: World, id: int)
    requires id in s.jobs && id in s.commits
  {
    && AtMostOneWorker(s, id)
    && (forall w | WorkerOf(s, id, w) :: Committable(s.jobs[id], s.commits[id], Some(s.workers[w].phase)))
    && (Idle(s, id) ==> Committable(s.jobs[id], s.commits[id], None))
  }

  ghost predicate Working(s: World) {
    Linked(s) && forall id | id in s.jobs :: Sound(s, id)
  }

  lemma AcquireKeepsLinked(s: World, step: Step)
    requires Linked(s) && Possible(s, step) && step.Acquire?
    ensures Linked(Next(s, step))
  {
    hide SweptKeys, SweptFiles, Registered, Fits;
  }

  lemma StepKeepsLinked(s: World, step: Step)
    requires Linked(s) && Possible(s, step)
    ensures Linked(Next(s, step))
  {
    hide Received, Swept, Cleaned, Fits;
    if step.Acquire? { AcquireKeepsLinked(s, step); }
  }

  // ---------------------------------------------------------------- at most one worker, at most one commit

  /** The sections that touch neither a job's state nor its worker. */
  lemma UntouchedStaysSound(s: World, s': World, id: int)
    requires id in s.jobs && id in s.commits && Sound(s, id)
    requires id in s'.jobs && id in s'.commits && s'.commits[id] == s.commits[id]
    requires s'.jobs[id].state == s.jobs[id].state && s'.jobs[id].retryable == s.jobs[id].retryable
    requires forall w :: WorkerOf(s', id, w) <==> WorkerOf(s, id, w)
    requires forall w | w in s.workers && WorkerOf(s, id, w) && w in s'.workers ::
              s'.workers[w].phase == s.workers[w].phase
    ensures Sound(s', id)
  {
    if Idle(s', id) {
      assert Idle(s, id);
    }
  }

  lemma ReceiveStaysSound(s: World, step: Step, id: int)
    requires Working(s) && Possible(s, step) && step.Receive? && id in s.jobs
    ensures id in Next(s, step).jobs && id in Next(s, step).commits && Sound(Next(s, step), id)
  {
    hide Received;
    var s' := Next(s, step);
    var mine := s.pins[step.t];
    StartedMeansComplete(s.jobs[mine], s.files, step.post);
    var r := Received(s.jobs[mine], s.files, step.post);
    ReceivedKeepsFlag(s.jobs[mine], s.files, step.post);
    assert Sound(s, id);
    if id != mine || r.job.state == s.jobs[id].state {
      UntouchedStaysSound(s, s', id);
    } else if r.reply.Started? {
      assert Idle(s, id);
      assert WorkerOf(s', id, step.w);
    } else {
      assert Idle(s, id) && Idle(s', id);
    }
  }

  lemma ReceivedKeepsFlag(j: Job, files: Files, m: Post)
    ensures var r := Received(j, files, m);
            && (r.job.retryable == j.retryable || r.reply.Started?)
            && (r.job.state == j.state || r.reply.Started? ||
                (j.state == Failed && j.retryable && r.job.state == Receiving))
  {
  }

  /** The four sections of a worker. */
  lemma WorkerStaysSound(s: World, step: Step, id: int)
    requires Working(s) && Possible(s, step) && id in s.jobs
    requires step.Notify? || step.ReachCommit? || step.Panic? || step.Finish?
    ensures id in Next(s, step).jobs && id in Next(s, step).commits && Sound(Next(s, step), id)
  {
    hide Cleaned;
    var s' := Next(s, step);
    var w := step.w;
    assert Sound(s, id);
    if s.workers[w].job != id {
      UntouchedStaysSound(s, s', id);
    } else {
      assert WorkerOf(s, id, w);
      assert forall v | WorkerOf(s', id, v) :: WorkerOf(s, id, v);
      assert !step.Finish? ==> WorkerOf(s', id, w);
    }
  }

  /** Nothing but reference counts has changed among the jobs of `s`. */
  ghost predicate Mild(s: World, s': World) {
    && s'.workers == s.workers
    && (forall id | id in s.jobs && id in s.commits ::
          id in s'.jobs && s'.jobs[id] == s.jobs[id].(refs := s'.jobs[id].refs)
          && id in s'.commits && s'.commits[id] == s.commits[id])
  }

  /** The world a new job is registered in, once pinned. */
  ghost predicate Opens(s: World, step: Step, s': World) {
    forall id | id in s'.jobs && id !in s.jobs ::
      step.Acquire? && id == step.id && id in s'.commits && s'.commits[id] == 0
      && s'.jobs[id] == Job(step.key, step.sid, step.params, None, Receiving, false, 0, step.now, 1)
  }

  lemma SweptIsMild(s: World, now: int, busy: set<Key>, stuck: set<Name>)
    requires Linked(s)
    ensures var s' := Swept(s, now, busy, stuck);
            && s' == s.(registry := s'.registry, files := s'.files)
            && s'.registry.Keys <= s.registry.Keys &&
                (forall key | key in s'.registry :: s'.registry[key] == s.registry[key])
  {
    hide SweptKeys, SweptFiles, Registered;
  }

  lemma PinnedIsMild(s: World, t: int, id: int)
    requires id in s.jobs
    ensures Mild(s, Pinned(s, t, id)) && Pinned(s, t, id).jobs.Keys == s.jobs.Keys
  {
  }

  lemma OpenedIsMild(s: World, key: Key, sid: Option<int>, p: Params, now: int, t: int, id: int)
    requires id !in s.jobs
    ensures var s' := Pinned(Opened(s, key, sid, p, now, id), t, id);
            && Mild(s, s') && s'.jobs.Keys == s.jobs.Keys + {id}
            && id in s'.commits && s'.commits[id] == 0
            && s'.jobs[id] == Job(key, sid, p, None, Receiving, false, 0, now, 1)
  {
  }

  lemma AcquireIsMild(s: World, step: Step)
    requires Linked(s) && Possible(s, step) && step.Acquire?
    ensures Mild(s, Next(s, step)) && Opens(s, step, Next(s, step))
  {
    hide Swept, Opened, Pinned, Fits;
    var swept := Swept(s, step.now, step.busy, step.stuck);
    SweptIsMild(s, step.now, step.busy, step.stuck);
    if step.key in swept.registry {
      PinnedIsMild(swept, step.t, swept.registry[step.key]);
    } else {
      OpenedIsMild(swept, step.key, step.sid, step.params, step.now, step.t, step.id);
    }
  }

  /** Sections under the registry's mutex change reference counts, and may add one new receiving job. */
  lemma RegistryStepIsMild(s: World, step: Step)
    requires Linked(s) && Possible(s, step)
    requires step.Acquire? || step.PinExisting? || step.Release?
    ensures Mild(s, Next(s, step)) && Opens(s, step, Next(s, step))
  {
    hide Swept, Opened;
    if step.Acquire? { AcquireIsMild(s, step); }
  }

  lemma RegistryStaysSound(s: World, step: Step, id: int)
    requires Working(s) && Possible(s, step) && id in Next(s, step).jobs
    requires step.Acquire? || step.PinExisting? || step.Release?
    ensures id in Next(s, step).commits && Sound(Next(s, step), id)
  {
    hide Next, Possible, Sound;
    RegistryStepIsMild(s, step);
    var s' := Next(s, step);
    if id in s.jobs {
      UntouchedStaysSound(s, s', id);
    } else {
      assert Idle(s', id) by { assert Linked(s); }
      NewJobIsSound(s', id);
    }
  }

  lemma NewJobIsSound(s: World, id: int)
    requires id in s.jobs && id in s.commits && Idle(s, id) && s.commits[id] == 0
    requires s.jobs[id].state == Receiving && !s.jobs[id].retryable
    ensures Sound(s, id)
  {
  }

  lemma StepKeepsWorking(s: World, step: Step)
    requires Working(s) && Possible(s, step)
    ensures Working(Next(s, step))
  {
    hide Sound, Next, Linked;
    var s' := Next(s, step);
    StepKeepsLinked(s, step);
    LinkedJobsAreCounted(s');
    forall id | id in s'.jobs ensures Sound(s', id) {
      if !step.Acquire? { NoJobAppears(s, step, id); }
      if step.Receive? { ReceiveStaysSound(s, step, id); }
      else if step.Acquire? || step.PinExisting? || step.Release? { RegistryStaysSound(s, step, id); }
      else { WorkerStaysSound(s, step, id); }
    }
  }

  lemma LinkedJobsAreCounted(s: World)
    requires Linked(s)
    ensures forall id | id in s.jobs :: id in s.commits
  {
  }

  lemma NoJobAppears(s: World, step: Step, id: int)
    requires Linked(s) && Possible(s, step) && !step.Acquire?
    ensures id in Next(s, step).jobs <==> id in s.jobs
  {
    hide Received, Cleaned;
  }

  // ---------------------------------------------------------------- who owns a key

  lemma SweptOwning(s: World, now: int, busy: set<Key>, stuck: set<Name>)
    requires Owning(s)
    ensures Owning(Swept(s, now, busy, stuck))
  {
    hide SweptFiles, Pinners;
    var s' := Swept(s, now, busy, stuck);
    SweptIsMild(s, now, busy, stuck);
    assert forall id | id in s.jobs :: Pinners(s', id) == Pinners(s, id) by { PinnersOf(s, s'); }
  }

  lemma PinnersOf(s: World, s': World)
    requires s'.pins == s.pins
    ensures forall id :: Pinners(s', id) == Pinners(s, id)
  {
  }

  lemma OpenedOwning(s: World, key: Key, sid: Option<int>, p: Params, now: int, id: int)
    requires Owning(s) && key !in s.registry && id !in s.jobs
    ensures Owning(Opened(s, key, sid, p, now, id))
  {
    hide Pinners;
    var s' := Opened(s, key, sid, p, now, id);
    PinnersOf(s, s');
    assert Pinners(s, id) == {} by { NobodyPins(s, id); }
  }

  lemma NobodyPins(s: World, id: int)
    requires Linked(s) && id !in s.jobs
    ensures Pinners(s, id) == {}
  {
    forall t ensures t !in Pinners(s, id) { }
  }

  lemma PinnedOwning(s: World, t: int, id: int)
    requires Owning(s) && t !in s.pins && id in s.jobs
    requires s.jobs[id].key in s.registry && s.registry[s.jobs[id].key] == id
    ensures Owning(Pinned(s, t, id))
  {
    hide Pinners;
    var s' := Pinned(s, t, id);
    PinnersGain(s, s', t, id);
  }

  lemma PinnersGain(s: World, s': World, t: int, id: int)
    requires t !in s.pins && s'.pins == s.pins[t := id]
    ensures |Pinners(s', id)| == |Pinners(s, id)| + 1
    ensures forall other | other != id :: Pinners(s', other) == Pinners(s, other)
  {
    assert Pinners(s', id) == Pinners(s, id) + {t};
  }

  lemma PinnersLose(s: World, s': World, t: int)
    requires t in s.pins && s'.pins == s.pins - {t}
    ensures |Pinners(s', s.pins[t])| == |Pinners(s, s.pins[t])| - 1
    ensures forall other | other != s.pins[t] :: Pinners(s', other) == Pinners(s, other)
  {
    assert Pinners(s', s.pins[t]) == Pinners(s, s.pins[t]) - {t};
  }

  lemma PinnedMeansCounted(s: World, t: int)
    requires Owning(s) && t in s.pins
    ensures s.jobs[s.pins[t]].refs > 0
  {
    assert t in Pinners(s, s.pins[t]);
  }

  lemma ReleaseKeepsOwning(s: World, t: int)
    requires Owning(s) && t in s.pins
    ensures Owning(Next(s, Release(t)))
  {
    hide Pinners;
    PinnersLose(s, Next(s, Release(t)), t);
    PinnedMeansCounted(s, t);
  }

  /** Jobs keep their keys and counts, and only a pinned job starts processing. */
  lemma JobStepKeepsOwning(s: World, step: Step)
    requires Owning(s) && Possible(s, step) && !step.Acquire? && !step.PinExisting? && !step.Release?
    ensures Owning(Next(s, step))
  {
    hide Pinners, Received, Cleaned;
    var s' := Next(s, step);
    StepKeepsLinked(s, step);
    PinnersOf(s, s');
    if step.Receive? {
      PinnedMeansCounted(s, step.t);
      StartedMeansComplete(s.jobs[s.pins[step.t]], s.files, step.post);
    }
  }

  lemma StepKeepsOwning(s: World, step: Step)
    requires Owning(s) && Possible(s, step)
    ensures Owning(Next(s, step))
  {
    hide Pinned, Opened, Swept, Pinners, Fits;
    if step.Acquire? {
      var swept := Swept(s, step.now, step.busy, step.stuck);
      SweptOwning(s, step.now, step.busy, step.stuck);
      SweptIsMild(s, step.now, step.busy, step.stuck);
      if step.key in swept.registry {
        PinnedOwning(swept, step.t, swept.registry[step.key]);
      } else if |swept.registry| < MAX_JOBS {
        OpenedOwning(swept, step.key, step.sid, step.params, step.now, step.id);
        OpenedJob(swept, step.key, step.sid, step.params, step.now, step.id);
        PinnedOwning(Opened(swept, step.key, step.sid, step.params, step.now, step.id), step.t, step.id);
      }
    } else if step.PinExisting? {
      if step.key in s.registry { PinnedOwning(s, step.t, s.registry[step.key]); }
    } else if step.Release? {
      ReleaseKeepsOwning(s, step.t);
    } else {
      JobStepKeepsOwning(s, step);
    }
  }

  lemma OpenedJob(s: World, key: Key, sid: Option<int>, p: Params, now: int, id: int)
    ensures var s' := Opened(s, key, sid, p, now, id);
            && s'.jobs == s.jobs[id := Job(key, sid, p, None, Receiving, false, 0, now, 0)]
            && s'.registry == s.registry[key := id] && s'.pins == s.pins && s'.files == s.files &&
                s'.workers == s.workers
  {
  }

  lemma RegisteredPinned(s: World, t: int, key: Key)
    requires Owning(s) && key in s.registry && Linked(Pinned(s, t, s.registry[key]))
    ensures var j := Registered(s)[key];
            Registered(Pinned(s, t, s.registry[key])) == Registered(s)[key := j.(refs := j.refs + 1)]
  {
    hide Pinners;
  }

  lemma RegisteredOpened(s: World, key: Key, sid: Option<int>, p: Params, now: int, t: int, id: int)
    requires Owning(s) && key !in s.registry && id !in s.jobs
    requires Linked(Pinned(Opened(s, key, sid, p, now, id), t, id))
    ensures Registered(Pinned(Opened(s, key, sid, p, now, id), t, id))
         == Registered(s)[key := Job(key, sid, p, None, Receiving, false, 0, now, 1)]
  {
    hide Pinners;
  }

  lemma RegisteredSwept(s: World, now: int, busy: set<Key>, stuck: set<Name>)
    requires Linked(s) && Linked(Swept(s, now, busy, stuck))
    ensures Registered(Swept(s, now, busy, stuck))
         == Registered(s) - SweptKeys(Registered(s), s.files, now, busy, stuck)
  {
    hide SweptKeys, SweptFiles;
  }

  lemma AcquireNext(s: World, step: Step)
    requires Linked(s) && Possible(s, step) && step.Acquire?
    ensures var swept := Swept(s, step.now, step.busy, step.stuck);
            Next(s, step) ==
              if step.key in swept.registry then Pinned(swept, step.t, swept.registry[step.key])
              else if |swept.registry| >= MAX_JOBS then swept
              else Pinned(Opened(swept, step.key, step.sid, step.params, step.now, step.id), step.t, step.id)
  {
    hide Swept, Pinned, Opened, Fits;
    SweptIsMild(s, step.now, step.busy, step.stuck);
  }

  /** Seen through the registry, an acquisition is what UploadJobs.Registry.Acquire does. */
  lemma AcquireIsPin(s: World, step: Step)
    requires Owning(s) && Possible(s, step) && step.Acquire?
    ensures Linked(Next(s, step))
    ensures var kept := Registered(s) - SweptKeys(Registered(s), s.files, step.now, step.busy, step.stuck);
            Registered(Next(s, step)) == Pin(kept, step.key, step.sid, step.params, step.now).0
  {
    StepKeepsLinked(s, step);
    var swept := Swept(s, step.now, step.busy, step.stuck);
    SweptOwning(s, step.now, step.busy, step.stuck);
    RegisteredSwept(s, step.now, step.busy, step.stuck);
    AcquireIsPinOf(s, step, swept);
  }

  lemma AcquireIsPinOf(s: World, step: Step, swept: World)
    requires Owning(s) && Possible(s, step) && step.Acquire? && Linked(Next(s, step))
    requires swept == Swept(s, step.now, step.busy, step.stuck) && Owning(swept)
    ensures Registered(Next(s, step)) == Pin(Registered(swept), step.key, step.sid, step.params, step.now).0
  {
    hide Next, Swept, Pinned, Opened, Registered, Pinners;
    AcquireNext(s, step);
    SweptIsMild(s, step.now, step.busy, step.stuck);
    RegisteredKeys(swept);
    assert |Registered(swept)| == |Registered(swept).Keys| && |swept.registry| == |swept.registry.Keys|;
    if step.key in swept.registry {
      RegisteredPinned(swept, step.t, step.key);
    } else if |swept.registry| < MAX_JOBS {
      RegisteredOpened(swept, step.key, step.sid, step.params, step.now, step.t, step.id);
    }
  }

  lemma RegisteredKeys(s: World)
    requires Linked(s)
    ensures Registered(s).Keys == s.registry.Keys
  {
  }

  // ---------------------------------------------------------------- who owns the files

  /** The file belongs to the job its key leads to. */
  ghost predicate Claimed(s: World, name: Name)
    requires Linked(s)
  {
    NameKey(name) in s.registry && OwnedBy(name, s.jobs[s.registry[NameKey(name)]])
  }

  /** Every file on disk belongs to the job its key leads to, or is as `left` has it. */
  ghost predicate Tidy(s: World, left: Files)
    requires Linked(s)
  {
    forall name | name in s.files :: Claimed(s, name) || (name in left && s.files[name] == left[name])
  }

  /** A worker's upload is complete, of the announced size, and on disk exactly as when it started. */
  ghost predicate Steady(s: World)
    requires Linked(s)
  {
    forall w | w in s.workers ::
      && Finished(s.workers[w].seen, s.jobs[s.workers[w].job])
      && SameUpload(s.files, s.workers[w].seen, s.jobs[s.workers[w].job])
  }

  ghost predicate SameUpload(files: Files, files': Files, j: Job) {
    forall name: Name | OwnedBy(name, j) ::
      && (name in files <==> name in files')
      && (name in files && name in files' ==> files[name] == files'[name])
  }

  lemma SweptStaysTidy(s: World, left: Files, now: int, busy: set<Key>, stuck: set<Name>)
    requires Owning(s) && Tidy(s, left)
    ensures Linked(Swept(s, now, busy, stuck)) && Tidy(Swept(s, now, busy, stuck), left)
  {
    hide Pinners, Expired;
    SweptOwning(s, now, busy, stuck);
    var s' := Swept(s, now, busy, stuck);
    forall name | name in s'.files && Claimed(s, name) ensures NameKey(name) in s'.registry {
      assert name in s.files && !Removable(Registered(s), name, now, busy, stuck);
    }
  }

  lemma SweptStaysSteady(s: World, now: int, busy: set<Key>, stuck: set<Name>)
    requires Owning(s) && Working(s) && Steady(s)
    ensures Linked(Swept(s, now, busy, stuck)) && Steady(Swept(s, now, busy, stuck))
  {
    hide Pinners, Finished, Fits, Sound, SweptKeys;
    SweptOwning(s, now, busy, stuck);
    SweptIsMild(s, now, busy, stuck);
    var s' := Swept(s, now, busy, stuck);
    forall w | w in s.workers ensures SameUpload(s'.files, s.workers[w].seen, s.jobs[s.workers[w].job]) {
      var id := s.workers[w].job;
      WorkersProcess(s, w);
      assert SameUpload(s.files, s.workers[w].seen, s.jobs[id]);
      forall name | OwnedBy(name, s.jobs[id]) ensures name in s.files <==> name in s'.files {
        assert NameKey(name) == s.jobs[id].key;
        assert !Doomed(Registered(s), s.jobs[id].key, now, busy);
      }
    }
  }

  lemma WorkersProcess(s: World, w: int)
    requires Working(s) && w in s.workers
    ensures s.jobs[s.workers[w].job].state == Processing
  {
    assert WorkerOf(s, s.workers[w].job, w);
    assert Sound(s, s.workers[w].job);
  }

  /** Two registered owners of one key are one job. */
  lemma OwnersAreUnique(s: World, a: int, b: int)
    requires Owning(s) && a in s.jobs && b in s.jobs && s.jobs[a].key == s.jobs[b].key
    requires s.jobs[a].refs != 0 || s.jobs[a].state == Processing
    requires s.jobs[b].refs != 0 || s.jobs[b].state == Processing
    ensures a == b
  {
  }

  ghost predicate SameNames(s: World, s': World) {
    forall id | id in s.jobs :: id in s'.jobs && s'.jobs[id].key == s.jobs[id].key &&
        s'.jobs[id].params == s.jobs[id].params
  }

  lemma StepKeepsNames(s: World, step: Step)
    requires Linked(s) && Possible(s, step)
    ensures SameNames(s, Next(s, step))
  {
    hide Received, Cleaned, Swept, Pinned, Opened, Fits;
    if step.Acquire? || step.PinExisting? || step.Release? {
      RegistryStepIsMild(s, step);
    } else if step.Receive? {
      StartedMeansComplete(s.jobs[s.pins[step.t]], s.files, step.post);
    }
  }

  /** Receiving a chunk writes only that chunk and its partial file, and only for a receiving job. */
  lemma ReceivedWritesOwn(j: Job, files: Files, m: Post)
    requires WellFormed(m)
    ensures var r := Received(j, files, m);
            && (forall name | name in r.files && name !in files :: OwnedBy(name, j))
            && (forall name | !OwnedBy(name, j) :: name in files <==> name in r.files)
            && (forall name | !OwnedBy(name, j) && name in files && name in r.files :: r.files[name] == files[name])
            && (j.state == Processing ==> r.files == files)
  {
    hide Content, Complete;
  }

  lemma TidyFrame(s: World, s': World, left: Files)
    requires Linked(s) && Linked(s') && Tidy(s, left) && SameNames(s, s')
    requires forall name | name in s'.files :: name in s.files && s'.files[name] == s.files[name]
    requires forall name | name in s'.files && NameKey(name) in s.registry ::
               NameKey(name) in s'.registry && s'.registry[NameKey(name)] == s.registry[NameKey(name)]
    ensures Tidy(s', left)
  {
    forall name | name in s'.files && Claimed(s, name) ensures Claimed(s', name) { }
  }

  lemma AcquireKeepsTidy(s: World, left: Files, step: Step)
    requires Owning(s) && Possible(s, step) && Tidy(s, left) && step.Acquire?
    ensures Linked(Next(s, step)) && Tidy(Next(s, step), left)
  {
    hide Swept, Fits, Tidy, Pinners, Linked;
    StepKeepsLinked(s, step);
    var swept := Swept(s, step.now, step.busy, step.stuck);
    SweptOwning(s, step.now, step.busy, step.stuck);
    SweptIsMild(s, step.now, step.busy, step.stuck);
    SweptStaysTidy(s, left, step.now, step.busy, step.stuck);
    TidyFrame(swept, Next(s, step), left);
  }

  lemma ReceiveKeepsTidy(s: World, left: Files, step: Step)
    requires Owning(s) && Possible(s, step) && Tidy(s, left) && step.Receive?
    ensures Linked(Next(s, step)) && Tidy(Next(s, step), left)
  {
    hide Received, OwnedBy, Pinners;
    StepKeepsLinked(s, step);
    StepKeepsNames(s, step);
    var s', id := Next(s, step), s.pins[step.t];
    PinnedMeansCounted(s, step.t);
    ReceivedWritesOwn(s.jobs[id], s.files, step.post);
    forall name | name in s'.files
      ensures Claimed(s', name) || (name in left && s'.files[name] == left[name])
    {
      if OwnedBy(name, s.jobs[id]) {
        OwnersDiffer(s.jobs[id]);
        SameOwner(name, s.jobs[id], s'.jobs[id]);
      } else if Claimed(s, name) {
        SameOwner(name, s.jobs[s.registry[NameKey(name)]], s'.jobs[s.registry[NameKey(name)]]);
      }
    }
  }

  lemma SameOwner(name: Name, j: Job, j': Job)
    requires j.key == j'.key && j.params == j'.params
    ensures OwnedBy(name, j) == OwnedBy(name, j')
  {
  }

  lemma StepKeepsTidy(s: World, left: Files, step: Step)
    requires Owning(s) && Possible(s, step) && Tidy(s, left)
    ensures Linked(Next(s, step)) && Tidy(Next(s, step), left)
  {
    hide Tidy, Pinners, Fits, Received, Swept, Opened, OwnedBy;
    StepKeepsLinked(s, step);
    StepKeepsNames(s, step);
    if step.Acquire? { AcquireKeepsTidy(s, left, step); }
    else if step.Receive? { ReceiveKeepsTidy(s, left, step); }
    else { TidyFrame(s, Next(s, step), left); }
  }

  lemma SteadyFrame(s: World, s': World)
    requires Linked(s) && Linked(s') && Steady(s) && SameNames(s, s')
    requires forall w | w in s'.workers ::
               w in s.workers && s'.workers[w].job == s.workers[w].job && s'.workers[w].seen == s.workers[w].seen
    requires forall w, name: Name | w in s'.workers && OwnedBy(name, s.jobs[s'.workers[w].job]) ::
               (name in s.files <==> name in s'.files)
    requires forall w, name: Name | w in s'.workers && OwnedBy(name, s.jobs[s'.workers[w].job]) && name in s.files &&
              name in s'.files ::
               s'.files[name] == s.files[name]
    ensures Steady(s')
  {
    hide Content, Complete;
  }

  lemma AcquireKeepsSteady(s: World, step: Step)
    requires Owning(s) && Working(s) && Possible(s, step) && Steady(s) && step.Acquire?
    ensures Linked(Next(s, step)) && Steady(Next(s, step))
  {
    hide Swept, Opened, Pinned, Fits, Steady, Pinners, Sound;
    StepKeepsLinked(s, step);
    StepKeepsNames(s, step);
    var swept := Swept(s, step.now, step.busy, step.stuck);
    SweptOwning(s, step.now, step.busy, step.stuck);
    SweptIsMild(s, step.now, step.busy, step.stuck);
    SweptStaysSteady(s, step.now, step.busy, step.stuck);
    AcquireIsMild(s, step);
    AcquireLeavesFiles(s, step);
    SteadyFrame(swept, Next(s, step));
  }

  lemma AcquireLeavesFiles(s: World, step: Step)
    requires Linked(s) && Possible(s, step) && step.Acquire?
    ensures Next(s, step).files == Swept(s, step.now, step.busy, step.stuck).files
  {
    hide Swept, Fits;
    SweptIsMild(s, step.now, step.busy, step.stuck);
  }

  lemma ReceiveKeepsSteady(s: World, step: Step)
    requires Owning(s) && Working(s) && Possible(s, step) && Steady(s) && step.Receive?
    ensures Linked(Next(s, step)) && Steady(Next(s, step))
  {
    hide Received, OwnedBy, Pinners, Sound, Finished;
    StepKeepsLinked(s, step);
    StepKeepsNames(s, step);
    var s', id := Next(s, step), s.pins[step.t];
    PinnedMeansCounted(s, step.t);
    ReceivedWritesOwn(s.jobs[id], s.files, step.post);
    StartedMeansComplete(s.jobs[id], s.files, step.post);
    forall w | w in s'.workers
      ensures Finished(s'.workers[w].seen, s'.jobs[s'.workers[w].job])
      ensures SameUpload(s'.files, s'.workers[w].seen, s'.jobs[s'.workers[w].job])
    {
      if w in s.workers {
        var other := s.workers[w].job;
        WorkersProcess(s, w);
        SameFinished(s.workers[w].seen, s.jobs[other], s'.jobs[other]);
        if other != id { OthersUploadUntouched(s, step, other); }
        KeepsUpload(s.files, s'.files, s.workers[w].seen, s.jobs[other], s'.jobs[other]);
      } else {
        SameFinished(s'.workers[w].seen, s.jobs[id], s'.jobs[id]);
      }
    }
  }

  lemma SameFinished(files: Files, j: Job, j': Job)
    requires j.key == j'.key && j.params == j'.params
    ensures Finished(files, j) == Finished(files, j')
  {
  }

  lemma KeepsUpload(files: Files, files': Files, seen: Files, j: Job, j': Job)
    requires j.key == j'.key && j.params == j'.params && SameUpload(files, seen, j) && SameUpload(files, files', j)
    ensures SameUpload(files', seen, j')
  {
    hide Owned;
    forall name | OwnedBy(name, j') ensures OwnedBy(name, j) { }
  }

  lemma OthersUploadUntouched(s: World, step: Step, other: int)
    requires Owning(s) && Possible(s, step) && step.Receive?
    requires other in s.jobs && other != s.pins[step.t] && s.jobs[other].state == Processing
    ensures SameUpload(s.files, Next(s, step).files, s.jobs[other])
  {
    hide Received, Pinners;
    var id := s.pins[step.t];
    PinnedMeansCounted(s, step.t);
    ReceivedWritesOwn(s.jobs[id], s.files, step.post);
    if s.jobs[other].key == s.jobs[id].key { OwnersAreUnique(s, other, id); }
  }

  /** A worker that finishes cleans up after itself alone. */
  lemma FinishKeepsSteady(s: World, step: Step)
    requires Owning(s) && Working(s) && Possible(s, step) && Steady(s) && step.Finish?
    ensures Linked(Next(s, step)) && Steady(Next(s, step))
  {
    hide Cleaned, Pinners, Sound, Steady, Finished, OwnedBy;
    StepKeepsLinked(s, step);
    StepKeepsNames(s, step);
    var s', mine := Next(s, step), s.workers[step.w].job;
    forall w, name: Name | w in s'.workers && OwnedBy(name, s.jobs[s'.workers[w].job])
      ensures name in s.files <==> name in s'.files
      ensures name in s.files && name in s'.files ==> s'.files[name] == s.files[name]
    {
      var other := s.workers[w].job;
      WorkersProcess(s, w);
      WorkersProcess(s, step.w);
      OneWorkerEach(s, w, step.w);
      if s.jobs[other].key == s.jobs[mine].key { OwnersAreUnique(s, other, mine); }
      OwnersDiffer(s.jobs[other]);
      OwnersDiffer(s'.jobs[mine]);
      CleanedKeeps(s.files, s'.jobs[mine], step.stuck, name);
    }
    SteadyFrame(s, s');
  }

  lemma OneWorkerEach(s: World, v: int, w: int)
    requires Working(s) && v in s.workers && w in s.workers && v != w
    ensures s.workers[v].job != s.workers[w].job
  {
    var id := s.workers[v].job;
    assert Sound(s, id) && WorkerOf(s, id, v);
    assert s.workers[w].job == id ==> WorkerOf(s, id, w);
  }

  lemma CleanedKeeps(files: Files, j: Job, stuck: set<Name>, name: Name)
    requires !OwnedBy(name, j)
    ensures name in files <==> name in Cleaned(files, j, stuck)
    ensures name in files ==> Cleaned(files, j, stuck)[name] == files[name]
  {
  }

  lemma StepKeepsSteady(s: World, step: Step)
    requires Owning(s) && Working(s) && Possible(s, step) && Steady(s)
    ensures Linked(Next(s, step)) && Steady(Next(s, step))
  {
    hide Steady, Pinners, Fits, Received, Cleaned, Swept, Opened, OwnedBy, Sound, Finished;
    StepKeepsLinked(s, step);
    StepKeepsNames(s, step);
    if step.Acquire? { AcquireKeepsSteady(s, step); }
    else if step.Receive? { ReceiveKeepsSteady(s, step); }
    else if step.Finish? { FinishKeepsSteady(s, step); }
    else { SteadyFrame(s, Next(s, step)); }
  }

  // ---------------------------------------------------------------- capacity

  lemma StepKeepsCapacity(s: World, step: Step)
    requires Linked(s) && Possible(s, step) && |s.registry| <= MAX_JOBS
    ensures |Next(s, step).registry| <= MAX_JOBS
  {
    hide Received, Cleaned, Swept, Fits;
    if step.Acquire? {
      var swept := Swept(s, step.now, step.busy, step.stuck);
      SweptIsMild(s, step.now, step.busy, step.stuck);
      FewerKeys(swept.registry, s.registry);
    }
  }

  lemma FewerKeys(m: map<Key, int>, n: map<Key, int>)
    requires m.Keys <= n.Keys
    ensures |m| <= |n|
  {
    SubsetIsSmaller(m.Keys, n.Keys);
    assert |m| == |m.Keys| && |n| == |n.Keys|;
  }

  lemma {:induction false} SubsetIsSmaller(a: set<Key>, b: set<Key>)
    requires a <= b
    ensures |a| <= |b|
  {
    if a != {} {
      var x :| x in a;
      SubsetIsSmaller(a - {x}, b - {x});
    }
  }

  // ---------------------------------------------------------------- runs

  /** What the checks on a new job's parameters leave true of every job. */
  ghost predicate Sized(s: World) {
    forall id | id in s.jobs :: s.jobs[id].params.chunks >= 1
  }

  lemma StepKeepsSized(s: World, step: Step)
    requires Linked(s) && Sized(s) && Possible(s, step)
    ensures Sized(Next(s, step))
  {
    hide Next;
    StepKeepsNames(s, step);
    forall id | id in Next(s, step).jobs && id !in s.jobs ensures Next(s, step).jobs[id].params.chunks >= 1 {
      if step.Acquire? { AcquireIsMild(s, step); } else { NoJobAppears(s, step, id); }
    }
  }

  ghost predicate Inv(s: World, left: Files) {
    Owning(s) && Working(s) && Tidy(s, left) && Steady(s) && Sized(s) && |s.registry| <= MAX_JOBS
  }

  function Fresh(files: Files): World {
    World(map[], map[], files, map[], map[], map[])
  }

  /** A process starts with an empty registry and whatever chunk files an earlier process has left. */
  ghost predicate Run(trace: seq<World>, steps: seq<Step>) {
    && |trace| == |steps| + 1 && trace[0] == Fresh(trace[0].files)
    && forall i | 0 <= i < |steps| ::
         Linked(trace[i]) && Possible(trace[i], steps[i]) && trace[i + 1] == Next(trace[i], steps[i])
  }

  /** The files there were at the start and that have never been gone since. */
  function LeftAt(trace: seq<World>, i: nat): Files
    requires i < |trace|
  {
    map name | name in trace[0].files && (forall k | 0 <= k <= i :: name in trace[k].files) :: trace[0].files[name]
  }

  lemma StepKeepsInv(s: World, left: Files, step: Step)
    requires Inv(s, left) && Possible(s, step)
    ensures Inv(Next(s, step), left)
  {
    hide Owning, Working, Tidy, Steady, Sized, Next, Possible;
    assert Linked(s) by { assert Working(s); WorkingIsLinked(s); }
    StepKeepsOwning(s, step);
    StepKeepsWorking(s, step);
    StepKeepsTidy(s, left, step);
    StepKeepsSteady(s, step);
    StepKeepsSized(s, step);
    StepKeepsCapacity(s, step);
  }

  lemma WorkingIsLinked(s: World)
    requires Working(s)
    ensures Linked(s)
  {
  }

  lemma FreshInv(files: Files)
    ensures Inv(Fresh(files), files)
  {
  }

  lemma LeftShrinks(trace: seq<World>, i: nat)
    requires i + 1 < |trace| && Inv(trace[i + 1], LeftAt(trace, i))
    ensures Inv(trace[i + 1], LeftAt(trace, i + 1))
  {
    hide Owning, Working, Steady, Sized, Claimed;
    var s, before, now := trace[i + 1], LeftAt(trace, i), LeftAt(trace, i + 1);
    forall name | name in s.files && name in before ensures name in now {
      assert forall k | 0 <= k <= i + 1 :: name in trace[k].files;
    }
  }

  lemma {:induction false} RunKeepsInv(trace: seq<World>, steps: seq<Step>, i: nat)
    requires Run(trace, steps) && i < |trace|
    ensures Inv(trace[i], LeftAt(trace, i))
  {
    hide Inv, Next, Possible, Linked;
    if i == 0 {
      FreshInv(trace[0].files);
      assert LeftAt(trace, 0) == trace[0].files;
    } else {
      RunKeepsInv(trace, steps, i - 1);
      StepKeepsInv(trace[i - 1], LeftAt(trace, i - 1), steps[i - 1]);
      LeftShrinks(trace, i - 1);
    }
  }

  /**
   Over all duplicate chunks, retries, worker failures, panics and commits that fail without
   saying whether they took effect: a job never has two workers, and at most one of all its
   attempts ever reaches the commit point.
   */
  lemma UploadCommitsAtMostOnce(trace: seq<World>, steps: seq<Step>, i: nat, id: int)
    requires Run(trace, steps) && i < |trace| && id in trace[i].jobs
    ensures AtMostOneWorker(trace[i], id)
    ensures id in trace[i].commits && trace[i].commits[id] <= 1
    ensures trace[i].commits[id] == 1 ==> trace[i].jobs[id].state != Receiving && !trace[i].jobs[id].retryable
  {
    hide Owning, Tidy, Steady;
    RunKeepsInv(trace, steps, i);
    assert Sound(trace[i], id);
    if !Idle(trace[i], id) {
      var w :| WorkerOf(trace[i], id, w);
    }
  }

  /** No chunk that arrives after the commit point was reached starts another worker or writes anything. */
  lemma NothingRestartsAfterCommit(trace: seq<World>, steps: seq<Step>, i: nat, id: int, post: Post)
    requires Run(trace, steps) && i < |trace| && id in trace[i].jobs && id in trace[i].commits &&
              trace[i].commits[id] == 1
    ensures var r := Received(trace[i].jobs[id], trace[i].files, post);
            !r.reply.Started? && r.job.state == trace[i].jobs[id].state && r.files == trace[i].files
  {
    UploadCommitsAtMostOnce(trace, steps, i, id);
    StartedMeansComplete(trace[i].jobs[id], trace[i].files, post);
  }

  /** A pinned or processing job is never forgotten, and the registry stays within its limit. */
  lemma PinnedJobsStayRegistered(trace: seq<World>, steps: seq<Step>, i: nat)
    requires Run(trace, steps) && i < |trace|
    ensures Linked(trace[i]) && |trace[i].registry| <= MAX_JOBS
    ensures forall t | t in trace[i].pins ::
              var id := trace[i].pins[t];
              trace[i].jobs[id].key in trace[i].registry && trace[i].registry[trace[i].jobs[id].key] == id
    ensures forall w | w in trace[i].workers ::
              var id := trace[i].workers[w].job;
              trace[i].jobs[id].key in trace[i].registry && trace[i].registry[trace[i].jobs[id].key] == id
  {
    hide Pinners, Sound, Tidy, Steady;
    RunKeepsInv(trace, steps, i);
    var s := trace[i];
    forall t | t in s.pins ensures s.jobs[s.pins[t]].refs > 0 { PinnedMeansCounted(s, t); }
    forall w | w in s.workers ensures s.jobs[s.workers[w].job].state == Processing { WorkersProcess(s, w); }
  }

  // ---------------------------------------------------------------- what a worker reads

  lemma StepKeepsWorker(s: World, step: Step, w: int)
    requires Linked(s) && Possible(s, step) && w in s.workers && w in Next(s, step).workers
    ensures Next(s, step).workers[w].job == s.workers[w].job && Next(s, step).workers[w].seen == s.workers[w].seen
  {
    hide Received, Cleaned, Swept, Fits;
    if step.Acquire? { SweptIsMild(s, step.now, step.busy, step.stuck); }
  }

  ghost predicate Alive(trace: seq<World>, w: int, first: nat, last: nat)
    requires last < |trace|
  {
    forall m | first <= m <= last :: w in trace[m].workers
  }

  /** As long as a worker runs it works on the same upload. */
  lemma {:induction false} WorkerKeepsJob(trace: seq<World>, steps: seq<Step>, w: int, first: nat, last: nat)
    requires Run(trace, steps) && first <= last < |trace| && Alive(trace, w, first, last)
    ensures Linked(trace[first]) && Linked(trace[last])
    ensures var (v, v') := (trace[first].workers[w], trace[last].workers[w]);
            && v'.job == v.job && v'.seen == v.seen
            && trace[last].jobs[v.job].key == trace[first].jobs[v.job].key
            && trace[last].jobs[v.job].params == trace[first].jobs[v.job].params
    decreases last
  {
    hide Inv, Next, Possible, Linked;
    RunKeepsInv(trace, steps, last);
    InvIsLinked(trace[last], LeftAt(trace, last));
    if first < last {
      WorkerKeepsJob(trace, steps, w, first, last - 1);
      RunKeepsInv(trace, steps, last - 1);
      InvIsLinked(trace[last - 1], LeftAt(trace, last - 1));
      StepKeepsWorker(trace[last - 1], steps[last - 1], w);
      StepKeepsNames(trace[last - 1], steps[last - 1]);
    }
  }

  lemma InvIsLinked(s: World, left: Files)
    requires Inv(s, left)
    ensures Linked(s) && forall w | w in s.workers :: s.workers[w].job in s.jobs
  {
    hide Owning, Tidy, Steady, Sound;
  }

  /** The reader of a worker's upload, over the given files. */
  function Upload(files: Files, j: Job): ChunkReader.Source {
    ChunkReader.Source(files, j.key.uid, j.key.file, j.params.chunks)
  }

  /** Reads of one reader, each over the files as they are at its own moment. */
  function ReadsAlong(trace: seq<World>, j: Job, p: ChunkReader.Position, times: seq<nat>, wants: seq<nat>)
    : seq<ChunkReader.Reading>
    requires ChunkReader.Valid(p) && |times| == |wants| && forall t | t in times :: t < |trace|
    decreases |wants|
  {
    if wants == [] then []
    else
      assert times[0] in times && forall t | t in times[1..] :: t in times;
      var src := Upload(trace[times[0]].files, j);
      var r := ChunkReader.ReadOnce(src, p, wants[0]);
      ChunkReader.ReadKeepsValid(src, p, wants[0]);
      [r] + ReadsAlong(trace, j, r.after, times[1..], wants[1..])
  }

  lemma {:induction false} ReadsAlongAreReads(
    trace: seq<World>, j: Job, seen: Files, p: ChunkReader.Position, times: seq<nat>, wants: seq<nat>)
    requires ChunkReader.Valid(p) && |times| == |wants|
    requires forall t | t in times :: t < |trace| && ChunkReader.SameChunks(Upload(trace[t].files, j), Upload(seen, j))
    ensures ReadsAlong(trace, j, p, times, wants) == ChunkReader.Reads(Upload(seen, j), p, wants)
    decreases |wants|
  {
    if wants != [] {
      hide ChunkReader.ReadOnce, ChunkReader.SameChunks, ChunkReader.Valid;
      assert times[0] in times;
      var src := Upload(trace[times[0]].files, j);
      ChunkReader.SameChunksReadAlike(src, Upload(seen, j), p, wants[0]);
      var r := ChunkReader.ReadOnce(src, p, wants[0]);
      ChunkReader.ReadKeepsValid(src, p, wants[0]);
      assert forall t | t in times[1..] :: t in times;
      ReadsAlongAreReads(trace, j, seen, r.after, times[1..], wants[1..]);
    }
  }

  lemma SteadyChunks(s: World, w: int)
    requires Linked(s) && Steady(s) && Sized(s) && w in s.workers
    ensures var j := s.jobs[s.workers[w].job];
            && ChunkReader.SameChunks(Upload(s.files, j), Upload(s.workers[w].seen, j))
            && Finished(s.workers[w].seen, j) && j.params.chunks >= 1
  {
    hide Finished;
    var j := s.jobs[s.workers[w].job];
    assert forall n | 1 <= n <= j.params.chunks :: OwnedBy(Chunk(j.key.uid, j.key.file, n), j);
  }

  lemma WorkerAt(trace: seq<World>, steps: seq<Step>, w: int, first: nat, t: nat)
    requires Run(trace, steps) && first <= t < |trace| && Alive(trace, w, first, t)
    ensures Linked(trace[first])
    ensures var v := trace[first].workers[w];
            var j := trace[first].jobs[v.job];
            && ChunkReader.SameChunks(Upload(trace[t].files, j), Upload(v.seen, j))
            && Finished(v.seen, j) && j.params.chunks >= 1
  {
    hide Owning, Working, Tidy, Linked, Next, Possible, Steady, Sized;
    WorkerKeepsJob(trace, steps, w, first, t);
    RunKeepsInv(trace, steps, t);
    SteadyChunks(trace[t], w);
  }

  /**
   While a worker runs, its chunks are complete, of the announced size, and the ones it was started
   on; so whatever buffers it reads with, each Read at whatever moment of its life and however much
   goes on in between, it reads those bytes in order and is told the end exactly when they are through.
   */
  lemma WorkersReadTheirUpload(
    trace: seq<World>, steps: seq<Step>, w: int, first: nat, last: nat, times: seq<nat>, wants: seq<nat>, i: nat)
    requires Run(trace, steps) && first <= last < |trace| && Alive(trace, w, first, last)
    requires |times| == |wants| && i < |wants| && forall t | t in times :: first <= t <= last
    ensures Linked(trace[first])
    ensures var v := trace[first].workers[w];
            var j := trace[first].jobs[v.job];
            var stream := Content(v.seen, j.key.uid, j.key.file, 1, j.params.chunks);
            var rs := ReadsAlong(trace, j, ChunkReader.START, times, wants);
            && |stream| == j.params.size && |rs| == |wants|
            && ChunkReader.Delivered(rs) == stream[..ChunkReader.Min(ChunkReader.Sum(wants), |stream|)]
            && rs[i].outcome == (if wants[i] > 0 && ChunkReader.Sum(wants[..i + 1]) > |stream|
                                 then ChunkReader.EOF else ChunkReader.Fine)
  {
    hide Inv, Linked, Next, Possible, ReadsAlong, ChunkReader.SameChunks;
    WorkerAt(trace, steps, w, first, first);
    RunKeepsInv(trace, steps, first);
    InvIsLinked(trace[first], LeftAt(trace, first));
    var v := trace[first].workers[w];
    var j := trace[first].jobs[v.job];
    forall t | t in times ensures ChunkReader.SameChunks(Upload(trace[t].files, j), Upload(v.seen, j)) {
      WorkerAt(trace, steps, w, first, t);
    }
    ReadsAlongAreReads(trace, j, v.seen, ChunkReader.START, times, wants);
    ChunkReader.ReaderReassembles(Upload(v.seen, j), wants, i);
  }

  // ---------------------------------------------------------------- what a new job finds

  /**
   The files a newly registered job finds under its key are exactly those that were there when the
   process started and have never been removed since, with their old bytes; never a file that
   another job of this process has received.
   */
  lemma NewJobsFindLeftovers(trace: seq<World>, steps: seq<Step>, i: nat, name: Name)
    requires Run(trace, steps) && i < |steps| && steps[i].Acquire?
    requires steps[i].id in trace[i + 1].jobs && NameKey(name) == steps[i].key
    ensures name in trace[i + 1].files <==> name in LeftAt(trace, i + 1)
    ensures name in trace[i + 1].files ==> name in trace[0].files && trace[i + 1].files[name] == trace[0].files[name]
  {
    hide Swept, Fits, Steady, Pinners, Sound, Tidy;
    RunKeepsInv(trace, steps, i);
    var s, step, left := trace[i], steps[i], LeftAt(trace, i);
    var swept := Swept(s, step.now, step.busy, step.stuck);
    SweptIsMild(s, step.now, step.busy, step.stuck);
    SweptStaysTidy(s, left, step.now, step.busy, step.stuck);
    assert step.key !in swept.registry;
    assert trace[i + 1].files == swept.files;
    if name in swept.files {
      UnclaimedIsLeft(swept, left, name);
      assert forall k | 0 <= k <= i + 1 :: name in trace[k].files;
    }
  }

  lemma UnclaimedIsLeft(s: World, left: Files, name: Name)
    requires Linked(s) && Tidy(s, left) && name in s.files && NameKey(name) !in s.registry
    ensures name in left && s.files[name] == left[name]
  {
  }

  /** So a new job finds nothing exactly if each initial file of its key was gone at some moment. */
  lemma NewJobsFindNothing(trace: seq<World>, steps: seq<Step>, i: nat)
    requires Run(trace, steps) && i < |steps| && steps[i].Acquire? && steps[i].id in trace[i + 1].jobs
    ensures (forall name | name in trace[i + 1].files :: NameKey(name) != steps[i].key)
       <==> (forall name | name in trace[0].files && NameKey(name) == steps[i].key :: name !in LeftAt(trace, i + 1))
  {
    hide Next, Linked, Possible;
    forall name | NameKey(name) == steps[i].key ensures name in trace[i + 1].files <==> name in LeftAt(trace, i + 1) {
      NewJobsFindLeftovers(trace, steps, i, name);
    }
  }

  /** What removes a file: the sweep, a finished worker, or the renaming of a partial file. */
  ghost predicate Removes(s: World, step: Step, name: Name)
    requires Linked(s) && Possible(s, step)
  {
    match step
    case Acquire(_, _, _, _, now, busy, stuck, _) => Removable(Registered(s), name, now, busy, stuck)
    case Finish(w, ok, _, stuck) => ok && OwnedBy(name, s.jobs[s.workers[w].job]) && name !in stuck
    case Receive(t, post, _) =>
      var j := s.jobs[s.pins[t]];
      && name == Name(j.key.uid, j.key.file, post.number, true) && post.fault.Clean?
      && Received(j, s.files, post).files != s.files
    case _ => false
  }

  /** A file goes only with its own upload: swept, cleaned up after, or a partial file renamed into place. */
  lemma RemovedByItsUpload(s: World, step: Step, name: Name)
    requires Linked(s) && Possible(s, step) && name in s.files
    ensures name !in Next(s, step).files <==> Removes(s, step, name)
  {
    hide Content, Complete, Fits, Expired, Received, Swept, Registered, Removable;
    if step.Acquire? {
      AcquireLeavesFiles(s, step);
      SweptKeepsFile(s, step.now, step.busy, step.stuck, name);
    } else if step.Receive? {
      ReceivedRemoves(s.jobs[s.pins[step.t]], s.files, step.post, name);
    }
  }

  lemma SweptKeepsFile(s: World, now: int, busy: set<Key>, stuck: set<Name>, name: Name)
    requires Linked(s) && name in s.files
    ensures name in Swept(s, now, busy, stuck).files <==> !Removable(Registered(s), name, now, busy, stuck)
  {
    hide Removable, SweptKeys, Registered;
  }

  lemma ReceivedRemoves(j: Job, files: Files, m: Post, name: Name)
    requires name in files && WellFormed(m)
    ensures name !in Received(j, files, m).files <==>
              name == Name(j.key.uid, j.key.file, m.number, true) && m.fault.Clean? &&
                  Received(j, files, m).files != files
  {
    hide Content, Complete;
  }

  // ---------------------------------------------------------------- leftovers that pass for new

  /** The second chunk is left from an earlier process; the client registers, and posts the first. */
  function LeftoverSteps(key: Key, p: Params, chunk: Bytes, now: int): seq<Step> {
    [Acquire(1, key, None, p, now, {}, {}, 5), Receive(1, Post(None, p, 1, chunk, 0, now, Clean, true, 7), 9)]
  }

  function LeftoverTrace(key: Key, p: Params, stale: Bytes, chunk: Bytes, now: int): seq<World> {
    var files := map[Chunk(key.uid, key.file, 2) := stale];
    var after := Put(files, key.uid, key.file, 1, chunk, Clean);
    [Fresh(files),
     World(map[5 := Job(key, None, p, None, Receiving, false, 0, now, 1)], map[key := 5], files, map[], map[1 := 5],
           map[5 := 0]),
     World(map[5 := Job(key, None, p, Some(7), Processing, true, 0, now, 1)], map[key := 5], after,
           map[9 := Worker(5, Running, after)], map[1 := 5], map[5 := 0])]
  }

  /**
   The registry is only in memory, so a leftover chunk passes for the new upload's own: a worker is
   started on bytes that this client has never sent.
   */
  lemma LeftoverChunksPassAsNew(key: Key, p: Params, stale: Bytes, chunk: Bytes, now: int)
    requires key.uid != 0 && Fits(key, p) && p.chunks == 2 && p.size == |chunk| + |stale| && chunk != []
    ensures Run(LeftoverTrace(key, p, stale, chunk, now), LeftoverSteps(key, p, chunk, now))
    ensures var w := LeftoverTrace(key, p, stale, chunk, now)[2].workers[9];
            w.phase == Running && Content(w.seen, key.uid, key.file, 1, 2) == chunk + stale
  {
    hide Next, Possible, Linked, Content, Put, Fits;
    var trace, steps := LeftoverTrace(key, p, stale, chunk, now), LeftoverSteps(key, p, chunk, now);
    LeftoverContent(key, p, stale, chunk);
    LeftoverAcquire(key, p, stale, chunk, now);
    LeftoverReceive(key, p, stale, chunk, now);
    assert trace[0] == Fresh(trace[0].files);
  }

  lemma LeftoverAcquire(key: Key, p: Params, stale: Bytes, chunk: Bytes, now: int)
    requires key.uid != 0 && Fits(key, p)
    ensures var trace, step := LeftoverTrace(key, p, stale, chunk, now), LeftoverSteps(key, p, chunk, now)[0];
            Linked(trace[0]) && Possible(trace[0], step) && Next(trace[0], step) == trace[1]
  {
  }

  lemma LeftoverReceive(key: Key, p: Params, stale: Bytes, chunk: Bytes, now: int)
    requires key.uid != 0 && Fits(key, p) && p.chunks == 2 && p.size == |chunk| + |stale| && chunk != []
    ensures var trace, step := LeftoverTrace(key, p, stale, chunk, now), LeftoverSteps(key, p, chunk, now)[1];
            Linked(trace[1]) && Possible(trace[1], step) && Next(trace[1], step) == trace[2]
  {
    LeftoverContent(key, p, stale, chunk);
  }

  lemma LeftoverContent(key: Key, p: Params, stale: Bytes, chunk: Bytes)
    ensures var after := Put(map[Chunk(key.uid, key.file, 2) := stale], key.uid, key.file, 1, chunk, Clean);
            Content(after, key.uid, key.file, 1, 2) == chunk + stale && Complete(after, key.uid, key.file, 1, 2)
  {
    var uid, file := key.uid, key.file;
    var after := Put(map[Chunk(uid, file, 2) := stale], uid, file, 1, chunk, Clean);
    assert Content(after, uid, file, 3, 2) == [];
    assert Content(after, uid, file, 2, 2) == stale;
    assert Content(after, uid, file, 1, 2) == chunk + stale;
    forall n | 1 <= n <= 2 ensures Present(after, uid, file, n) { }
  }
}
